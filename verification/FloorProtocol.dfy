/**
  The staleness floor of pinned execution reads (cmd/agenthof/verify.go, judgeFloor and
  writeVerifyFloor): overlapping readers under the shared lock read the floor, and write it, at
  separate moments, while the root may be exchanged for another validly signed one.
 */
module FloorProtocol {
  import opened Prelude

  /** A validly signed install: its ledger and its position there. */
  datatype View = View(logID: string, version: int)

  datatype Floor = NoFloor | Corrupt | At(view: View)

  /** A reader holding the shared lock: just in, holding the install it verified, or about to write the floor. */
  datatype Reader = Entered | Verified(view: View) | Advancing(view: View)

  type Pid = nat

  /**
    current    the validly signed install the root holds now, if it holds one
    floor      verify.floor
    readers    the shared lock's holders
    accepted   the installs execution reads have accepted since the floor was last removed
   */
  datatype System = System(current: Option<View>, floor: Floor, readers: map<Pid, Reader>, accepted: seq<View>)

  datatype Verdict = Accept | Advance | Stale | ForeignLedger | NotVerifiable

  predicate Below(a: View, b: View) { a.logID == b.logID && a.version <= b.version }

  /** The judgment on an install that verified, against the floor as read. */
  function JudgeFloor(floor: Floor, view: View): Verdict {
    match floor
    case Corrupt => NotVerifiable
    case NoFloor => Advance
    case At(f) =>
      if f.logID != view.logID then ForeignLedger
      else if view.version < f.version then Stale
      else if view.version == f.version then Accept
      else Advance
  }

  /** The judgment in one stroke: nothing is refused that is not below or foreign to the floor. */
  lemma JudgeFloorMeans(floor: Floor, view: View)
    ensures JudgeFloor(floor, view) in {Accept, Advance} <==>
              floor != Corrupt && (floor.At? ==> Below(floor.view, view))
    ensures JudgeFloor(floor, view) == Accept <==> floor == At(view)
  {
  }

  /** verify.floor as one reader alone drives it. */
  class FloorFile {
    var floor: Floor

    constructor (floor: Floor)
      ensures this.floor == floor
    {
      this.floor := floor;
    }

    /** Judges a verified install; only an execution read advances the floor, and one that cannot remember refuses. */
    method JudgeAndAdvance(view: View, advance: bool, writes: bool) returns (v: Verdict)
      modifies this
      ensures v == Accept <==> (old(floor) != Corrupt && (old(floor).At? ==> Below(old(floor).view, view)) &&
                                (old(floor) != At(view) && advance ==> writes))
      ensures floor == if v == Accept && advance then At(view) else old(floor)
      ensures v == Stale <==>
                old(floor).At? && old(floor).view.logID == view.logID && view.version < old(floor).view.version
      ensures v == ForeignLedger <==> old(floor).At? && old(floor).view.logID != view.logID
    {
      if floor == Corrupt {
        return NotVerifiable;
      }
      if floor.At? {
        if floor.view.logID != view.logID {
          return ForeignLedger;
        }
        if view.version < floor.view.version {
          return Stale;
        }
        if view.version == floor.view.version {
          return Accept;
        }
      }
      if !advance {
        return Accept;
      }
      if !writes {
        return NotVerifiable;
      }
      floor := At(view);
      return Accept;
    }
  }

  datatype Step =
    | Enter(pid: Pid)
    | Verify(pid: Pid)
    | Judge(pid: Pid)
    | Look(pid: Pid)
    | WriteFloor(pid: Pid, ok: bool)
    | Leave(pid: Pid)
    | Exchange(root: Option<View>)
    | SpoilFloor
    | RemoveFloor

  predicate Enabled(s: System, step: Step) {
    match step
    case Enter(pid) => pid !in s.readers
    case Verify(pid) => pid in s.readers && s.readers[pid] == Entered && s.current.Some?
    case Judge(pid) => pid in s.readers && s.readers[pid].Verified?
    case Look(pid) => pid in s.readers && s.readers[pid].Verified?
    case WriteFloor(pid, _) => pid in s.readers && s.readers[pid].Advancing?
    case Leave(pid) => pid in s.readers
    case _ => true
  }

  function Drop(s: System, pid: Pid): System { s.(readers := s.readers - {pid}) }

  function Effect(s: System, step: Step): System
    requires Enabled(s, step)
  {
    match step
    case Enter(pid) => s.(readers := s.readers[pid := Entered])
    case Verify(pid) => s.(readers := s.readers[pid := Verified(s.current.value)])
    case Judge(pid) =>
      var view := s.readers[pid].view;
      (match JudgeFloor(s.floor, view)
       case Accept => Drop(s, pid).(accepted := s.accepted + [view])
       case Advance => s.(readers := s.readers[pid := Advancing(view)])
       case _ => Drop(s, pid))
    case Look(pid) => Drop(s, pid)
    case WriteFloor(pid, ok) =>
      var view := s.readers[pid].view;
      if ok then Drop(s, pid).(floor := At(view), accepted := s.accepted + [view]) else Drop(s, pid)
    case Leave(pid) => Drop(s, pid)
    case Exchange(root) => s.(current := root)
    case SpoilFloor => s.(floor := Corrupt)
    case RemoveFloor => s.(floor := NoFloor, accepted := [])
  }

  predicate CanRun(s: System, steps: seq<Step>)
    decreases |steps|
  {
    steps == [] || (Enabled(s, steps[0]) && CanRun(Effect(s, steps[0]), steps[1..]))
  }

  function Run(s: System, steps: seq<Step>): System
    requires CanRun(s, steps)
    decreases |steps|
  {
    if steps == [] then s else Run(Effect(s, steps[0]), steps[1..])
  }

  /** The root is exchanged (by an install, or whole) only while no reader holds the lock. */
  predicate BetweenWindows(s: System, steps: seq<Step>)
    requires CanRun(s, steps)
    decreases |steps|
  {
    steps == [] ||
    ((steps[0].Exchange? ==> s.readers == map[]) && BetweenWindows(Effect(s, steps[0]), steps[1..]))
  }

  // ---------------------------------------------------------------- the invariant

  predicate Monotone(views: seq<View>) {
    forall i, j :: 0 <= i < j < |views| ==> Below(views[i], views[j])
  }

  predicate AllBelow(views: seq<View>, v: View) {
    forall i :: 0 <= i < |views| ==> Below(views[i], v)
  }

  /** A reader past its verify holds the root's install; one about to write, nothing older than was ever accepted. */
  predicate ReaderOk(s: System, r: Reader) {
    && (r != Entered ==> Some(r.view) == s.current)
    && (r.Advancing? ==> AllBelow(s.accepted, r.view) && (s.floor.At? ==> Below(s.floor.view, r.view)))
  }

  predicate Inv(s: System) {
    && (forall p :: p in s.readers ==> ReaderOk(s, s.readers[p]))
    && Monotone(s.accepted)
    && (s.floor == NoFloor ==> s.accepted == [])
    && (s.floor.At? ==> AllBelow(s.accepted, s.floor.view))
  }

  /** The floor did not go back: it is higher in the same ledger, or it was spoilt or removed. */
  predicate Holds(a: Floor, b: Floor, step: Step) {
    a.At? ==> (b.At? && Below(a.view, b.view)) || step.RemoveFloor? || (step.SpoilFloor? && b == Corrupt)
  }

  lemma StepKeepsInv(s: System, step: Step)
    requires Inv(s) && Enabled(s, step) && (step.Exchange? ==> s.readers == map[])
    ensures Inv(Effect(s, step)) && Holds(s.floor, Effect(s, step).floor, step)
  {
    var s' := Effect(s, step);
    if step.Judge? || (step.WriteFloor? && step.ok) {
      assert ReaderOk(s, s.readers[step.pid]);
      forall p | p in s'.readers ensures ReaderOk(s', s'.readers[p]) {
        assert p == step.pid || ReaderOk(s, s.readers[p]);
      }
    } else {
      forall p | p in s'.readers ensures ReaderOk(s', s'.readers[p]) {
        assert p in s.readers ==> ReaderOk(s, s.readers[p]);
      }
    }
  }

  /**
    Over every run whose exchanges fall between lock windows, however the readers inside a window
    interleave: since the floor was last removed, every install accepted is of the same ledger as
    every one accepted before it and no older.
   */
  lemma {:induction false} AcceptedNeverGoBack(s: System, steps: seq<Step>)
    requires Inv(s) && CanRun(s, steps) && BetweenWindows(s, steps)
    ensures Inv(Run(s, steps)) && Monotone(Run(s, steps).accepted)
    decreases |steps|
  {
    if steps != [] {
      StepKeepsInv(s, steps[0]);
      AcceptedNeverGoBack(Effect(s, steps[0]), steps[1..]);
    }
  }

  predicate Undisturbed(steps: seq<Step>) {
    forall i :: 0 <= i < |steps| ==> !steps[i].RemoveFloor? && !steps[i].SpoilFloor?
  }

  /** And while nobody removes or spoils it, the floor itself only rises, in its own ledger. */
  lemma {:induction false} FloorNeverRegresses(s: System, steps: seq<Step>)
    requires Inv(s) && CanRun(s, steps) && BetweenWindows(s, steps) && Undisturbed(steps) && s.floor.At?
    ensures Run(s, steps).floor.At? && Below(s.floor.view, Run(s, steps).floor.view)
    ensures s.accepted <= Run(s, steps).accepted
    decreases |steps|
  {
    if steps != [] {
      StepKeepsInv(s, steps[0]);
      assert Undisturbed(steps[1..]);
      FloorNeverRegresses(Effect(s, steps[0]), steps[1..]);
    }
  }

  /** A read after the floor exists is judged exactly by it: accepted at or above it in its ledger, else refused. */
  lemma AcceptedExactlyAtOrAboveTheFloor(s: System, pid: Pid)
    requires Inv(s) && s.floor.At? && pid in s.readers && s.readers[pid].Verified?
    ensures var view, s' := s.readers[pid].view, Effect(s, Judge(pid));
            && (Below(s.floor.view, view) ==>
                  (s'.accepted == s.accepted + [view] ||
                   (pid in s'.readers && s'.readers[pid] == Advancing(view) &&
                    Effect(s', WriteFloor(pid, true)).accepted == s.accepted + [view])))
            && (!Below(s.floor.view, view) ==> s'.accepted == s.accepted && s'.floor == s.floor && pid !in s'.readers)
  {
    JudgeFloorMeans(s.floor, s.readers[pid].view);
  }

  // ---------------------------------------------------------------- an exchange inside a window

  /** A run after which an install was accepted below or foreign to one accepted before it. */
  ghost predicate Breaks(s: System, steps: seq<Step>) { Allowed(s, steps) && !Monotone(Run(s, steps).accepted) }

  /** Further exchanges fall between windows, and nobody removes or spoils the floor. */
  ghost predicate Allowed(s: System, steps: seq<Step>) {
    CanRun(s, steps) && BetweenWindows(s, steps) && Undisturbed(steps)
  }

  /** A reader that will write the floor, or would on judging it now. */
  predicate MayWrite(floor: Floor, r: Reader) {
    r.Advancing? || (r.Verified? && JudgeFloor(floor, r.view) == Advance)
  }

  predicate Advances(s: System, pid: Pid) { pid in s.readers && s.readers[pid].Advancing? }

  /**
    An exchange of the root under the readers' lock is harmful when the new install would advance the
    floor while some reader may still write another one. Over a corrupt floor nobody new is accepted
    until a reader already past its judgment has replaced it, so harm takes two such readers.
   */
  predicate Harmful(s: System, root: Option<View>) {
    root.Some? &&
    if s.floor == Corrupt then
      exists p, q :: p in s.readers && q in s.readers && p != q && Advances(s, p) && Advances(s, q) &&
                     JudgeFloor(At(s.readers[p].view), root.value) == Advance
    else
      JudgeFloor(s.floor, root.value) == Advance &&
      exists p :: p in s.readers && MayWrite(s.floor, s.readers[p]) && s.readers[p].view != root.value
  }

  /**
    A window in which readers hold at most two installs: `writer`, which the floor may yet be written to,
    and `settled`, which it will not.
   */
  predicate TwoViews(s: System, settled: Option<View>, writer: View) {
    && (forall p :: p in s.readers ==> TwoViewsReader(s, settled, writer, s.readers[p]))
    && (s.current.Some? ==> s.current == settled || s.current == Some(writer))
    && Monotone(s.accepted)
  }

  predicate TwoViewsReader(s: System, settled: Option<View>, writer: View, r: Reader) {
    && (r.Verified? ==> Some(r.view) == settled || r.view == writer)
    && (r.Advancing? ==> r.view == writer && AllBelow(s.accepted, r.view) &&
                         (s.floor.At? ==> Below(s.floor.view, r.view)))
  }

  ghost predicate AtMostOneAdvances(s: System) { forall p, q :: Advances(s, p) && Advances(s, q) ==> p == q }

  ghost predicate Guarded(s: System, settled: Option<View>, writer: View) {
    && TwoViews(s, settled, writer)
    && match s.floor
       case NoFloor => s.accepted == [] && settled.None?
       case At(f) => AllBelow(s.accepted, f) && (settled.Some? ==> JudgeFloor(s.floor, settled.value) != Advance)
       case Corrupt =>
         settled.Some? ==> JudgeFloor(At(writer), settled.value) != Advance || AtMostOneAdvances(s)
  }

  ghost predicate Safe(s: System) { exists settled, writer :: Guarded(s, settled, writer) }

  /** A floor once there is still there, at or above where it was. */
  predicate Rises(a: Floor, b: Floor) { a.At? ==> b.At? && Below(a.view, b.view) }

  /** The reader that writes decides which of the two installs is settled from then on. */
  lemma WriteKeepsSafe(s: System, pid: Pid, settled: Option<View>, writer: View)
    requires Guarded(s, settled, writer) && Enabled(s, WriteFloor(pid, true))
    ensures Safe(Effect(s, WriteFloor(pid, true))) && Rises(s.floor, Effect(s, WriteFloor(pid, true)).floor)
  {
    var s' := Effect(s, WriteFloor(pid, true));
    assert TwoViewsReader(s, settled, writer, s.readers[pid]) && Advances(s, pid);
    if s.floor == Corrupt && settled.Some? && JudgeFloor(At(writer), settled.value) == Advance {
      forall p | p in s'.readers ensures TwoViewsReader(s', Some(writer), settled.value, s'.readers[p]) {
        assert TwoViewsReader(s, settled, writer, s.readers[p]) && (Advances(s, p) ==> p == pid);
      }
      assert Guarded(s', Some(writer), settled.value);
    } else {
      forall p | p in s'.readers ensures TwoViewsReader(s', settled, writer, s'.readers[p]) {
        assert TwoViewsReader(s, settled, writer, s.readers[p]);
      }
      assert Guarded(s', settled, writer);
    }
  }

  lemma JudgeKeepsGuarded(s: System, pid: Pid, settled: Option<View>, writer: View)
    requires Guarded(s, settled, writer) && Enabled(s, Judge(pid))
    ensures Guarded(Effect(s, Judge(pid)), settled, writer)
  {
    var s' := Effect(s, Judge(pid));
    assert TwoViewsReader(s, settled, writer, s.readers[pid]);
    forall p | p in s'.readers ensures TwoViewsReader(s', settled, writer, s'.readers[p]) {
      assert p == pid || TwoViewsReader(s, settled, writer, s.readers[p]);
    }
    forall p | Advances(s', p) && s.floor == Corrupt ensures Advances(s, p) { }
  }

  lemma StepKeepsSafe(s: System, step: Step)
    requires Safe(s) && Enabled(s, step) && (step.Exchange? ==> s.readers == map[])
    requires !step.RemoveFloor? && !step.SpoilFloor?
    ensures Safe(Effect(s, step)) && Rises(s.floor, Effect(s, step).floor)
  {
    var settled, writer :| Guarded(s, settled, writer);
    var s' := Effect(s, step);
    if step.WriteFloor? && step.ok {
      WriteKeepsSafe(s, step.pid, settled, writer);
    } else if step.Judge? {
      JudgeKeepsGuarded(s, step.pid, settled, writer);
    } else if step.Exchange? {
      assert Guarded(s', None, if step.root.Some? then step.root.value else writer);
    } else {
      forall p | p in s'.readers ensures TwoViewsReader(s', settled, writer, s'.readers[p]) {
        assert p in s.readers ==> TwoViewsReader(s, settled, writer, s.readers[p]);
      }
      forall p | Advances(s', p) ensures Advances(s, p) { }
      assert Guarded(s', settled, writer);
    }
  }

  lemma {:induction false} SafeNeverBreaks(s: System, steps: seq<Step>)
    requires Safe(s) && Allowed(s, steps)
    ensures Monotone(Run(s, steps).accepted) && Rises(s.floor, Run(s, steps).floor)
    decreases |steps|
  {
    if steps == [] {
      var settled, writer :| Guarded(s, settled, writer);
    } else {
      assert !steps[0].RemoveFloor? && !steps[0].SpoilFloor?;
      StepKeepsSafe(s, steps[0]);
      assert Undisturbed(steps[1..]);
      SafeNeverBreaks(Effect(s, steps[0]), steps[1..]);
    }
  }

  /** A harmless exchange leaves one of the two installs settled. */
  lemma HarmlessIsSafe(s: System, root: Option<View>)
    requires Inv(s) && !Harmful(s, root)
    ensures Safe(Effect(s, Exchange(root)))
  {
    var s' := Effect(s, Exchange(root));
    var was := if s.current.Some? then s.current.value else View("", 0);
    forall p | p in s.readers ensures ReaderOk(s, s.readers[p]) { }
    if root.None? || root == s.current {
      assert Guarded(s', None, was);
    } else if s.floor == Corrupt {
      assert Guarded(s', root, was);
    } else if s.floor.At? && JudgeFloor(s.floor, root.value) != Advance {
      assert Guarded(s', root, was);
    } else {
      forall p | p in s.readers && MayWrite(s.floor, s.readers[p]) ensures s.readers[p].view == root.value { }
      if s.floor.At? && JudgeFloor(s.floor, was) != Advance {
        assert Guarded(s', Some(was), root.value);
      } else {
        assert Guarded(s', None, root.value);
      }
    }
  }

  predicate IsQuiet(step: Step) { !step.Exchange? && !step.RemoveFloor? && !step.SpoilFloor? }

  /** The run leads there, and only readers take part in it. */
  ghost predicate Reached(s: System, steps: seq<Step>, end: System) {
    CanRun(s, steps) && Run(s, steps) == end && forall i :: 0 <= i < |steps| ==> IsQuiet(steps[i])
  }

  lemma GoOn(s: System, steps: seq<Step>, end: System, step: Step) returns (longer: seq<Step>, next: System)
    requires Reached(s, steps, end) && Enabled(end, step) && IsQuiet(step)
    ensures longer == steps + [step] && Reached(s, longer, next) && next == Effect(end, step)
  {
    longer := RunExtends(s, steps, end, step);
    next := Effect(end, step);
  }

  lemma {:induction false} QuietIsBetweenWindows(s: System, steps: seq<Step>)
    requires CanRun(s, steps) && forall i :: 0 <= i < |steps| ==> IsQuiet(steps[i])
    ensures BetweenWindows(s, steps)
    decreases |steps|
  {
    if steps != [] {
      assert IsQuiet(steps[0]);
      forall i | 0 <= i < |steps[1..]| ensures IsQuiet(steps[1..][i]) { assert IsQuiet(steps[i + 1]); }
      QuietIsBetweenWindows(Effect(s, steps[0]), steps[1..]);
    }
  }

  lemma ReachedBreaks(s: System, steps: seq<Step>, end: System, i: nat, j: nat)
    requires Reached(s, steps, end) && i < j < |end.accepted| && !Below(end.accepted[i], end.accepted[j])
    ensures Breaks(s, steps)
  {
    QuietIsBetweenWindows(s, steps);
    forall k | 0 <= k < |steps| ensures !steps[k].RemoveFloor? && !steps[k].SpoilFloor? { assert IsQuiet(steps[k]); }
  }

  lemma {:induction false} FreePid(pids: set<Pid>) returns (free: Pid)
    ensures forall p :: p in pids ==> p < free
    decreases |pids|
  {
    free := 0;
    if pids != {} {
      var q :| q in pids;
      var rest := FreePid(pids - {q});
      free := if q < rest then rest else q + 1;
      forall p | p in pids ensures p < free { assert p == q || p in pids - {q}; }
    }
  }

  /** A new reader comes in, verifies the root's install, and is about to write the floor. */
  lemma NewWriter(s: System, steps: seq<Step>, end: System, pid: Pid) returns (longer: seq<Step>, next: System)
    requires Reached(s, steps, end) && pid !in end.readers && end.current.Some?
    requires JudgeFloor(end.floor, end.current.value) == Advance
    ensures Reached(s, longer, next)
    ensures next == end.(readers := end.readers[pid := Advancing(end.current.value)])
  {
    longer, next := GoOn(s, steps, end, Enter(pid));
    longer, next := GoOn(s, longer, next, Verify(pid));
    longer, next := GoOn(s, longer, next, Judge(pid));
    assert next.readers == end.readers[pid := Advancing(end.current.value)];
  }

  /** Two readers about to write different installs: writing the higher one first accepts the lower one after it. */
  lemma TwoWritersBreak(s: System, steps: seq<Step>, end: System, p: Pid, q: Pid) returns (longer: seq<Step>)
    requires Reached(s, steps, end) && Advances(end, p) && Advances(end, q)
    requires !Below(end.readers[p].view, end.readers[q].view)
    ensures Breaks(s, longer)
  {
    var n, next := |end.accepted|, end;
    longer, next := GoOn(s, steps, end, WriteFloor(p, true));
    longer, next := GoOn(s, longer, next, WriteFloor(q, true));
    ReachedBreaks(s, longer, next, n, n + 1);
  }

  lemma HarmfulBreaks(s: System, root: Option<View>) returns (steps: seq<Step>)
    requires Inv(s) && Harmful(s, root) && s.floor != Corrupt
    ensures Breaks(Effect(s, Exchange(root)), steps)
  {
    var s' := Effect(s, Exchange(root));
    var p :| p in s.readers && MayWrite(s.floor, s.readers[p]) && s.readers[p].view != root.value;
    var other, end := s.readers[p].view, s';
    var r := FreePid(s.readers.Keys);
    steps := [];
    if s.readers[p].Verified? {
      steps, end := GoOn(s', steps, end, Judge(p));
    }
    steps, end := NewWriter(s', steps, end, r);
    if Below(other, root.value) {
      steps := TwoWritersBreak(s', steps, end, r, p);
    } else {
      steps := TwoWritersBreak(s', steps, end, p, r);
    }
  }

  lemma HarmfulOverCorruptBreaks(s: System, root: Option<View>) returns (steps: seq<Step>)
    requires Inv(s) && Harmful(s, root) && s.floor == Corrupt
    ensures Breaks(Effect(s, Exchange(root)), steps)
  {
    var s' := Effect(s, Exchange(root));
    var p, q :| p in s.readers && q in s.readers && p != q && Advances(s, p) && Advances(s, q) &&
      JudgeFloor(At(s.readers[p].view), root.value) == Advance;
    assert ReaderOk(s, s.readers[p]) && ReaderOk(s, s.readers[q]);
    var end := s';
    steps, end := GoOn(s', [], end, WriteFloor(p, true));
    var r := FreePid(s.readers.Keys);
    steps, end := NewWriter(s', steps, end, r);
    steps := TwoWritersBreak(s', steps, end, r, q);
  }

  /**
    An exchange inside a window can make an older or foreign install be accepted after a newer one, in
    some run whose later exchanges fall between windows, if and only if it is harmful; a harmless one
    never lets the floor go back either.
   */
  lemma HarmfulExactly(s: System, root: Option<View>)
    requires Inv(s)
    ensures (exists steps :: Breaks(Effect(s, Exchange(root)), steps)) <==> Harmful(s, root)
    ensures !Harmful(s, root) ==>
              forall steps :: Allowed(Effect(s, Exchange(root)), steps) ==>
                                Rises(s.floor, Run(Effect(s, Exchange(root)), steps).floor)
  {
    var s' := Effect(s, Exchange(root));
    if Harmful(s, root) {
      var steps: seq<Step>;
      if s.floor == Corrupt {
        steps := HarmfulOverCorruptBreaks(s, root);
      } else {
        steps := HarmfulBreaks(s, root);
      }
      assert Breaks(s', steps);
    } else {
      HarmlessIsSafe(s, root);
      forall steps | Allowed(s', steps)
        ensures Monotone(Run(s', steps).accepted) && Rises(s.floor, Run(s', steps).floor)
      {
        SafeNeverBreaks(s', steps);
      }
    }
  }

  /**
    One such run from a root at rest: a reader is between its floor read and its write when the root is
    exchanged for a newer install, and the floor goes back from 3 to 2.
   */
  lemma ExchangeInsideAWindowBreaksIt() returns (s: System, before: seq<Step>, steps: seq<Step>)
    ensures s.readers == map[] && Inv(s)
    ensures CanRun(s, before) && before <= steps && |steps| == |before| + 1
    ensures CanRun(s, steps) && Undisturbed(steps) && !BetweenWindows(s, steps)
    ensures !Monotone(Run(s, steps).accepted)
    ensures Run(s, before).floor == At(View("l", 3)) && Run(s, steps).floor == At(View("l", 2))
  {
    var older, newer := View("l", 2), View("l", 3);
    s := System(Some(older), At(View("l", 1)), map[], []);
    var head, mid := NewWriter(s, [], s, 0);
    var swap := Exchange(Some(newer));
    var s1 := Effect(mid, swap);
    var tail, end := NewWriter(s1, [], s1, 1);
    tail, end := GoOn(s1, tail, end, WriteFloor(1, true));
    var last, final := GoOn(s1, tail, end, WriteFloor(0, true));
    assert final.accepted == [newer, older] && !Below(final.accepted[0], final.accepted[1]);
    RunsJoin(s, head, mid, swap, tail);
    RunsJoin(s, head, mid, swap, last);
    before, steps := head + [swap] + tail, head + [swap] + last;
    assert last == tail + [last[|tail|]];
    WindowBroken(s, head, mid, swap, last);
    forall i | 0 <= i < |steps| ensures !steps[i].RemoveFloor? && !steps[i].SpoilFloor? {
      if i < |head| { assert IsQuiet(head[i]); } else if i > |head| { assert IsQuiet(last[i - |head| - 1]); }
    }
  }

  /** A run, a step and a run from there are one run. */
  lemma {:induction false} RunsJoin(s: System, head: seq<Step>, mid: System, step: Step, tail: seq<Step>)
    requires CanRun(s, head) && Run(s, head) == mid && Enabled(mid, step) && CanRun(Effect(mid, step), tail)
    ensures CanRun(s, head + [step] + tail) && Run(s, head + [step] + tail) == Run(Effect(mid, step), tail)
    decreases |head|
  {
    var all := head + [step] + tail;
    if head == [] {
      assert all[1..] == tail;
    } else {
      RunsJoin(Effect(s, head[0]), head[1..], mid, step, tail);
      assert all[1..] == head[1..] + [step] + tail;
    }
  }

  lemma {:induction false} WindowBroken(s: System, head: seq<Step>, mid: System, step: Step, tail: seq<Step>)
    requires CanRun(s, head) && Run(s, head) == mid && CanRun(s, head + [step] + tail)
    requires step.Exchange? && mid.readers != map[]
    ensures !BetweenWindows(s, head + [step] + tail)
    decreases |head|
  {
    var all := head + [step] + tail;
    if head == [] {
      assert all[0] == step;
    } else {
      assert all[1..] == head[1..] + [step] + tail;
      WindowBroken(Effect(s, head[0]), head[1..], mid, step, tail);
    }
  }

  lemma {:induction false} RunExtends(s: System, steps: seq<Step>, end: System, step: Step) returns (longer: seq<Step>)
    requires CanRun(s, steps) && Run(s, steps) == end && Enabled(end, step)
    ensures longer == steps + [step] && CanRun(s, longer) && Run(s, longer) == Effect(end, step)
    decreases |steps|
  {
    longer := steps + [step];
    if steps == [] {
      assert longer[1..] == [];
    } else {
      var rest := RunExtends(Effect(s, steps[0]), steps[1..], end, step);
      assert longer[1..] == rest;
    }
  }
}
