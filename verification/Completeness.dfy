/**
  The one-pass judge of a run ledger's completeness (internal/completeness/completeness.go).

  `Judge` is the checker as a fold over the events, `Check` is the loop the program runs,
  and `Accounted` is the declarative grammar of the ledgers that account for themselves.
 */
module Completeness {
  import opened Prelude

  datatype Kind =
    | RunRefused | WorkflowStarted | WorkflowFinished
    | StepStarted | StepSucceeded | StepFailed | BouncedBack
    | ToolCall | ModelCall | Exec | Spawn
    | Unknown(name: string)

  datatype Status = Succeeded | Failed | Cancelled | Unlisted(text: string)

  /** The link a spawned run's events carry: its parent ("" for a root) and its depth. */
  datatype Binding = Binding(parentRunID: string, depth: int)

  datatype Event = Event(
    kind: Kind,
    step: string,
    status: Status,
    doorCalls: Option<int>,
    doorAccounting: string,
    childRunID: string,
    depth: int,
    binding: Binding)

  /** NotJudged is the empty verdict of a ledger whose integrity failed. */
  datatype Verdict = NotJudged | Complete | Gap | Unterminated | NoClaim

  datatype Report = Report(verdict: Verdict, doorCalls: nat)

  predicate IsDoor(e: Event) {
    e.kind == ToolCall || e.kind == ModelCall || e.kind == Exec || e.kind == Spawn
  }

  predicate IsTerminal(e: Event) {
    e.kind == StepSucceeded || e.kind == StepFailed
  }

  predicate TerminalConsistent(status: Status, prev: Kind) {
    match status
    case Succeeded => prev == StepSucceeded
    case Failed => prev == StepFailed
    case Cancelled => prev == WorkflowStarted || prev == StepSucceeded || prev == StepFailed || prev == BouncedBack
    case Unlisted(_) => false
  }

  // ---------------------------------------------------------------- the checker as a fold

  /** A step window that has started and has no terminal yet. */
  datatype Window = Window(step: string, doors: nat)

  /** The checker's variables: the open window, the last lifecycle kind, the doors seen. */
  datatype Scan = Scan(open: Option<Window>, prev: Kind, total: nat)

  /** One loop iteration; None is a violation. */
  function Step(s: Scan, e: Event, last: bool): Option<Scan> {
    if IsDoor(e) then
      if s.open.None? then None
      else Some(s.(open := Some(s.open.value.(doors := s.open.value.doors + 1)), total := s.total + 1))
    else match e.kind
      case StepStarted =>
        if s.open.Some? then None else Some(s.(open := Some(Window(e.step, 0)), prev := e.kind))
      case StepSucceeded =>
        if Closes(s, e) then Some(s.(open := None, prev := e.kind)) else None
      case StepFailed =>
        if Closes(s, e) then Some(s.(open := None, prev := e.kind)) else None
      case BouncedBack =>
        if s.open.None? && s.prev == StepFailed then Some(s.(prev := e.kind)) else None
      case WorkflowFinished =>
        if last && s.open.None? && TerminalConsistent(e.status, s.prev) then Some(s.(prev := e.kind)) else None
      case _ => None
  }

  predicate Closes(s: Scan, e: Event) {
    && s.open.Some?
    && s.open.value.step == e.step
    && e.doorCalls == Some(s.open.value.doors)
  }

  /** The rest of the pass from state s: the door total, or None at the first violation. */
  function Walk(s: Scan, es: seq<Event>): Option<nat>
    decreases |es|
  {
    if es == [] then Some(s.total)
    else
      match Step(s, es[0], |es| == 1)
      case None => None
      case Some(s') => Walk(s', es[1..])
  }

  const INITIAL := Scan(None, WorkflowStarted, 0)

  predicate DeclaresDoors(e: Event) {
    IsTerminal(e) && e.doorCalls.Some?
  }

  function Judge(es: seq<Event>): Report {
    if es == [] then Report(Unterminated, 0)
    else if es[0].kind == RunRefused then Report(if |es| == 1 then Complete else Gap, 0)
    else if es[0].kind != WorkflowStarted then Report(Gap, 0)
    else if es[|es| - 1].kind != WorkflowFinished then Report(Unterminated, 0)
    else if es[0].doorAccounting == "" then
      Report(if exists i :: 0 <= i < |es| && DeclaresDoors(es[i]) then Gap else NoClaim, 0)
    else
      match Walk(INITIAL, es[1..])
      case None => Report(Gap, 0)
      case Some(total) => Report(Complete, total)
  }

  /** The marker scan: does any terminal of an unmarked ledger carry door_calls? */
  method AnyDeclares(events: seq<Event>) returns (found: bool)
    ensures found <==> exists i :: 0 <= i < |events| && DeclaresDoors(events[i])
  {
    for i := 0 to |events|
      invariant forall j :: 0 <= j < i ==> !DeclaresDoors(events[j])
    {
      if DeclaresDoors(events[i]) {
        return true;
      }
    }
    return false;
  }

  /** One iteration of the loop: ok is false at a violation. */
  method Advance(s: Scan, e: Event, last: bool) returns (ok: bool, s': Scan)
    ensures (if ok then Some(s') else None) == Step(s, e, last)
  {
    ok, s' := false, s;
    if IsDoor(e) {
      if s.open.None? { return; }
      return true, s.(open := Some(s.open.value.(doors := s.open.value.doors + 1)), total := s.total + 1);
    } else if e.kind == StepStarted {
      if s.open.Some? { return; }
      s' := s.(open := Some(Window(e.step, 0)));
    } else if IsTerminal(e) {
      if s.open.None? || s.open.value.step != e.step { return; }
      if e.doorCalls.None? { return; }
      if e.doorCalls.value != s.open.value.doors { return; }
      s' := s.(open := None);
    } else if e.kind == BouncedBack {
      if s.open.Some? { return; }
      if s.prev != StepFailed { return; }
    } else if e.kind == WorkflowFinished {
      if !last { return; }
      if s.open.Some? { return; }
      if !TerminalConsistent(e.status, s.prev) { return; }
    } else {
      return;
    }
    ok, s' := true, s'.(prev := e.kind);
  }

  /** The pass over an accounted ledger's events after the first. */
  method Pass(events: seq<Event>) returns (r: Option<nat>)
    ensures r == Walk(INITIAL, events)
  {
    var s := INITIAL;
    for i := 0 to |events|
      invariant Walk(INITIAL, events) == Walk(s, events[i..])
    {
      assert events[i..][1..] == events[i + 1..];
      var ok;
      ok, s := Advance(s, events[i], i == |events| - 1);
      if !ok {
        return None;
      }
    }
    return Some(s.total);
  }

  method Check(events: seq<Event>) returns (r: Report)
    ensures r == Judge(events)
    ensures r.verdict == Complete <==> Grammatical(events)
    ensures r.verdict == Complete ==> r.doorCalls == CountDoors(events) == SumDeclared(events)
    ensures r.verdict == NoClaim <==> ClaimsNothing(events)
    ensures r.verdict == Unterminated <==> Unfinished(events)
    ensures r.verdict == Gap <==> !Grammatical(events) && !ClaimsNothing(events) && !Unfinished(events)
    ensures r.verdict != Complete ==> r.doorCalls == 0
  {
    JudgeIsTheGrammar(events);
    VerdictsExactly(events);
    if |events| == 0 {
      return Report(Unterminated, 0);
    }
    var first := events[0];
    if first.kind == RunRefused {
      return Report(if |events| == 1 then Complete else Gap, 0);
    }
    if first.kind != WorkflowStarted {
      return Report(Gap, 0);
    }
    if events[|events| - 1].kind != WorkflowFinished {
      return Report(Unterminated, 0);
    }
    if first.doorAccounting == "" {
      var declared := AnyDeclares(events);
      return Report(if declared then Gap else NoClaim, 0);
    }
    var total := Pass(events[1..]);
    return if total.None? then Report(Gap, 0) else Report(Complete, total.value);
  }

  // ---------------------------------------------------------------- the declarative grammar

  /** What a run did between its start and its finish, one entry per attempt or bounce. */
  datatype Item =
    | Attempt(start: Event, doors: seq<Event>, end: Event)
    | Bounce(e: Event)

  function Events(it: Item): seq<Event> {
    match it
    case Attempt(start, doors, end) => [start] + doors + [end]
    case Bounce(e) => [e]
  }

  function Flatten(items: seq<Item>): seq<Event> {
    if items == [] then [] else Events(items[0]) + Flatten(items[1..])
  }

  /** A window opens and closes on one step, holds only door events, and declares their number. */
  predicate WellFormed(it: Item) {
    match it
    case Attempt(start, doors, end) =>
      && start.kind == StepStarted && IsTerminal(end) && start.step == end.step
      && (forall i :: 0 <= i < |doors| ==> IsDoor(doors[i]))
      && end.doorCalls == Some(|doors|)
    case Bounce(e) => e.kind == BouncedBack
  }

  function Closing(it: Item): Kind {
    if it.Attempt? then it.end.kind else it.e.kind
  }

  /** The lifecycle kind just before items[i], where `before` precedes the whole sequence. */
  function KindBefore(before: Kind, items: seq<Item>, i: nat): Kind
    requires i <= |items|
  {
    if i == 0 then before else Closing(items[i - 1])
  }

  /** A bounce only right after a failed attempt. */
  predicate ItemOk(before: Kind, items: seq<Item>, i: nat)
    requires i < |items|
  {
    WellFormed(items[i]) && (items[i].Bounce? ==> KindBefore(before, items, i) == StepFailed)
  }

  predicate Body(before: Kind, items: seq<Item>) {
    forall i :: 0 <= i < |items| ==> ItemOk(before, items, i)
  }

  /** An accounted run: a marked start, attempts and bounces, and a finish that agrees with the last of them. */
  ghost predicate Accounted(es: seq<Event>, items: seq<Item>) {
    && |es| >= 2
    && es[0].kind == WorkflowStarted && es[0].doorAccounting != ""
    && es[1..] == Flatten(items) + [es[|es| - 1]]
    && Body(WorkflowStarted, items)
    && es[|es| - 1].kind == WorkflowFinished
    && TerminalConsistent(es[|es| - 1].status, KindBefore(WorkflowStarted, items, |items|))
  }

  predicate EndsAs(it: Item, kind: Kind) { it.Attempt? && it.end.kind == kind }

  /**
    The finish a body may have: succeeded after an attempt that succeeded, failed after one that failed,
    cancelled after anything, and no other word.
   */
  lemma FinishExactly(items: seq<Item>, status: Status)
    requires Body(WorkflowStarted, items)
    ensures TerminalConsistent(status, KindBefore(WorkflowStarted, items, |items|)) <==>
              match status
              case Succeeded => items != [] && EndsAs(items[|items| - 1], StepSucceeded)
              case Failed => items != [] && EndsAs(items[|items| - 1], StepFailed)
              case Cancelled => true
              case Unlisted(_) => false
  {
    if items != [] { assert ItemOk(WorkflowStarted, items, |items| - 1); }
  }

  ghost predicate Grammatical(es: seq<Event>) {
    (|es| == 1 && es[0].kind == RunRefused) || exists items :: Accounted(es, items)
  }

  /** A tail of the ledger, from a point between two items, that the grammar accepts. */
  ghost predicate Tail(before: Kind, es: seq<Event>, items: seq<Item>) {
    && es != [] && Body(before, items)
    && es == Flatten(items) + [es[|es| - 1]]
    && es[|es| - 1].kind == WorkflowFinished
    && TerminalConsistent(es[|es| - 1].status, KindBefore(before, items, |items|))
  }

  lemma BodyExtends(before: Kind, it: Item, items: seq<Item>)
    requires WellFormed(it) && (it.Bounce? ==> before == StepFailed) && Body(Closing(it), items)
    ensures Body(before, [it] + items)
    ensures KindBefore(before, [it] + items, |items| + 1) == KindBefore(Closing(it), items, |items|)
  {
    var all := [it] + items;
    forall i | 0 <= i < |all| ensures ItemOk(before, all, i) {
      if i > 0 { assert ItemOk(Closing(it), items, i - 1); }
    }
  }

  /** Prepending an item to a tail. */
  lemma TailExtends(before: Kind, it: Item, es: seq<Event>, items: seq<Item>)
    requires WellFormed(it) && (it.Bounce? ==> before == StepFailed)
    requires Tail(Closing(it), es, items)
    ensures Tail(before, Events(it) + es, [it] + items)
  {
    BodyExtends(before, it, items);
    assert ([it] + items)[1..] == items;
    assert Events(it) + es == Events(it) + Flatten(items) + [es[|es| - 1]];
  }

  /** The pass over a window: the door events advance the count, the terminal closes it. */
  lemma {:induction false} WalkDoors(s: Scan, doors: seq<Event>, rest: seq<Event>)
    requires s.open.Some? && rest != []
    requires forall i :: 0 <= i < |doors| ==> IsDoor(doors[i])
    ensures Walk(s, doors + rest) ==
            Walk(s.(open := Some(s.open.value.(doors := s.open.value.doors + |doors|)), total := s.total + |doors|),
                 rest)
    decreases |doors|
  {
    if doors == [] {
      assert doors + rest == rest;
    } else {
      var s' := Step(s, doors[0], false).value;
      assert (doors + rest)[1..] == doors[1..] + rest;
      WalkDoors(s', doors[1..], rest);
    }
  }

  lemma WalkCons(s: Scan, e: Event, rest: seq<Event>)
    ensures Walk(s, [e] + rest) ==
            match Step(s, e, rest == []) case None => None case Some(s') => Walk(s', rest)
  {
    assert ([e] + rest)[1..] == rest;
  }

  lemma WalkEnd(s: Scan, end: Event, rest: seq<Event>)
    requires rest != [] && IsTerminal(end) && Closes(s, end)
    ensures Walk(s, [end] + rest) == Walk(Scan(None, end.kind, s.total), rest)
  {
    WalkCons(s, end, rest);
  }

  lemma WalkStart(s: Scan, start: Event, doors: seq<Event>, tail: seq<Event>)
    requires s.open.None? && start.kind == StepStarted && tail != []
    requires forall i :: 0 <= i < |doors| ==> IsDoor(doors[i])
    ensures Walk(s, [start] + (doors + tail)) ==
            Walk(Scan(Some(Window(start.step, |doors|)), StepStarted, s.total + |doors|), tail)
  {
    WalkCons(s, start, doors + tail);
    WalkDoors(Scan(Some(Window(start.step, 0)), StepStarted, s.total), doors, tail);
  }

  lemma Regroup(start: Event, doors: seq<Event>, end: Event, rest: seq<Event>)
    ensures [start] + doors + [end] + rest == [start] + (doors + ([end] + rest))
  {
  }

  lemma WalkAttempt(s: Scan, start: Event, doors: seq<Event>, end: Event, rest: seq<Event>)
    requires s.open.None? && WellFormed(Attempt(start, doors, end)) && rest != []
    ensures Walk(s, [start] + (doors + ([end] + rest))) == Walk(Scan(None, end.kind, s.total + |doors|), rest)
  {
    WalkStart(s, start, doors, [end] + rest);
    WalkEnd(Scan(Some(Window(start.step, |doors|)), StepStarted, s.total + |doors|), end, rest);
  }

  /** The pass over one item of a tail. */
  lemma WalkItem(s: Scan, it: Item, rest: seq<Event>)
    requires s.open.None? && WellFormed(it) && (it.Bounce? ==> s.prev == StepFailed) && rest != []
    ensures Walk(s, Events(it) + rest) ==
            Walk(Scan(None, Closing(it), if it.Attempt? then s.total + |it.doors| else s.total), rest)
  {
    match it
    case Attempt(start, doors, end) =>
      Regroup(start, doors, end, rest);
      WalkAttempt(s, start, doors, end, rest);
    case Bounce(e) =>
      WalkCons(s, e, rest);
  }

  lemma BodySplits(before: Kind, items: seq<Item>)
    requires items != [] && Body(before, items)
    ensures WellFormed(items[0]) && (items[0].Bounce? ==> before == StepFailed) && Body(Closing(items[0]), items[1..])
    ensures KindBefore(Closing(items[0]), items[1..], |items| - 1) == KindBefore(before, items, |items|)
  {
    assert ItemOk(before, items, 0);
    forall i | 0 <= i < |items[1..]| ensures ItemOk(Closing(items[0]), items[1..], i) {
      assert ItemOk(before, items, i + 1);
    }
  }

  /** A non-empty tail is an item and a shorter tail. */
  lemma TailSplits(before: Kind, es: seq<Event>, items: seq<Item>) returns (rest: seq<Event>)
    requires items != [] && Tail(before, es, items)
    ensures WellFormed(items[0]) && (items[0].Bounce? ==> before == StepFailed)
    ensures es == Events(items[0]) + rest && Tail(Closing(items[0]), rest, items[1..])
  {
    BodySplits(before, items);
    rest := Flatten(items[1..]) + [es[|es| - 1]];
    assert Events(items[0]) + Flatten(items[1..]) + [es[|es| - 1]] == Events(items[0]) + rest;
  }

  /** Every ledger of the grammar passes. */
  lemma {:induction false} WalkAccepts(s: Scan, es: seq<Event>, items: seq<Item>)
    requires s.open.None? && Tail(s.prev, es, items)
    ensures Walk(s, es).Some?
    decreases |items|
  {
    if items == [] {
      assert es == [es[0]] && es[1..] == [];
    } else {
      var rest := TailSplits(s.prev, es, items);
      WalkItem(s, items[0], rest);
      WalkAccepts(Scan(None, Closing(items[0]), if items[0].Attempt? then s.total + |items[0].doors| else s.total),
                  rest, items[1..]);
    }
  }

  /** The events are a window's door events, its terminal, and a pass that ends well. */
  ghost predicate HoldsWindow(s: Scan, es: seq<Event>, doors: seq<Event>, end: Event, rest: seq<Event>)
    requires s.open.Some?
  {
    && es == doors + [end] + rest && rest != []
    && (forall i :: 0 <= i < |doors| ==> IsDoor(doors[i]))
    && IsTerminal(end) && end.step == s.open.value.step && end.doorCalls == Some(s.open.value.doors + |doors|)
    && Walk(Scan(None, end.kind, s.total + |doors|), rest).Some?
  }

  lemma WindowGrows(s: Scan, e: Event, es: seq<Event>, doors: seq<Event>, end: Event, rest: seq<Event>)
    requires s.open.Some? && IsDoor(e) && HoldsWindow(Step(s, e, false).value, es, doors, end, rest)
    ensures HoldsWindow(s, [e] + es, [e] + doors, end, rest)
  {
    assert [e] + (doors + [end] + rest) == [e] + doors + [end] + rest;
  }

  /** A pass that ends well from inside a window saw door events and then the window's terminal. */
  lemma {:induction false} WalkWindow(s: Scan, es: seq<Event>) returns (doors: seq<Event>, end: Event, rest: seq<Event>)
    requires s.open.Some? && es != [] && es[|es| - 1].kind == WorkflowFinished && Walk(s, es).Some?
    ensures HoldsWindow(s, es, doors, end, rest)
    decreases |es|
  {
    var e, tail := es[0], es[1..];
    assert es == [e] + tail;
    if IsDoor(e) {
      doors, end, rest := WalkWindow(Step(s, e, false).value, tail);
      WindowGrows(s, e, tail, doors, end, rest);
      doors := [e] + doors;
    } else {
      doors, end, rest := [], e, tail;
    }
  }

  /** The first item of a pass that ends well, and the pass after it. */
  lemma FirstItem(s: Scan, es: seq<Event>) returns (it: Item, s': Scan, rest: seq<Event>)
    requires s.open.None? && |es| > 1 && es[|es| - 1].kind == WorkflowFinished && Walk(s, es).Some?
    ensures WellFormed(it) && (it.Bounce? ==> s.prev == StepFailed)
    ensures es == Events(it) + rest && rest != [] && rest[|rest| - 1] == es[|es| - 1] && |rest| < |es|
    ensures s'.open.None? && s'.prev == Closing(it) && Walk(s', rest).Some?
  {
    var e, tail := es[0], es[1..];
    assert es == [e] + tail;
    s' := Step(s, e, false).value;
    it, rest := Bounce(e), tail;
    if e.kind == StepStarted {
      var doors, end;
      doors, end, rest := WalkWindow(s', tail);
      it := Attempt(e, doors, end);
      s' := Scan(None, end.kind, s'.total + |doors|);
      assert es == [e] + doors + [end] + rest;
      assert rest[|rest| - 1] == es[|es| - 1];
    }
  }

  /** Every ledger that passes is of the grammar. */
  lemma {:induction false} WalkSound(s: Scan, es: seq<Event>) returns (items: seq<Item>)
    requires s.open.None? && es != [] && es[|es| - 1].kind == WorkflowFinished && Walk(s, es).Some?
    ensures Tail(s.prev, es, items)
    decreases |es|
  {
    if |es| == 1 {
      items := [];
      assert es == Flatten(items) + [es[0]];
    } else {
      var it, s', rest := FirstItem(s, es);
      items := WalkSound(s', rest);
      TailExtends(s.prev, it, rest, items);
      items := [it] + items;
    }
  }

  // ---------------------------------------------------------------- the counts

  function CountDoors(es: seq<Event>): nat {
    if es == [] then 0 else (if IsDoor(es[0]) then 1 else 0) + CountDoors(es[1..])
  }

  /** The sum of door_calls over the terminals that carry it. */
  function SumDeclared(es: seq<Event>): int {
    if es == [] then 0 else (if DeclaresDoors(es[0]) then es[0].doorCalls.value else 0) + SumDeclared(es[1..])
  }

  /** Starts minus terminals. */
  function OpenBalance(es: seq<Event>): int {
    if es == [] then 0
    else (if es[0].kind == StepStarted then 1 else if IsTerminal(es[0]) then -1 else 0) + OpenBalance(es[1..])
  }

  function OpenDoors(s: Scan): nat { if s.open.Some? then s.open.value.doors else 0 }

  lemma {:induction false} WalkCounts(s: Scan, es: seq<Event>)
    requires es != [] && es[|es| - 1].kind == WorkflowFinished && Walk(s, es).Some?
    ensures Walk(s, es).value == s.total + CountDoors(es)
    ensures Walk(s, es).value == s.total - OpenDoors(s) + SumDeclared(es)
    ensures OpenBalance(es) == if s.open.Some? then -1 else 0
    ensures forall i :: 0 <= i < |es| - 1 ==>
              es[i].kind != WorkflowFinished && es[i].kind != WorkflowStarted && es[i].kind != RunRefused
    decreases |es|
  {
    var s' := Step(s, es[0], |es| == 1).value;
    if |es| == 1 {
      assert es[1..] == [];
    } else {
      WalkCounts(s', es[1..]);
      forall i | 0 <= i < |es| - 1
        ensures es[i].kind != WorkflowFinished && es[i].kind != WorkflowStarted && es[i].kind != RunRefused
      {
        if i > 0 { assert es[i] == es[1..][i - 1]; }
      }
    }
  }

  lemma GrammarIsComplete(es: seq<Event>, items: seq<Item>)
    requires Accounted(es, items)
    ensures Judge(es).verdict == Complete
  {
    assert Tail(WorkflowStarted, es[1..], items);
    WalkAccepts(INITIAL, es[1..], items);
  }

  lemma CompleteIsAccounted(es: seq<Event>) returns (items: seq<Item>)
    requires Judge(es).verdict == Complete && |es| > 1
    ensures Accounted(es, items)
  {
    assert es[1..][|es| - 2] == es[|es| - 1];
    items := WalkSound(INITIAL, es[1..]);
  }

  lemma CompleteCounts(es: seq<Event>)
    requires Judge(es).verdict == Complete
    ensures Judge(es).doorCalls == CountDoors(es) == SumDeclared(es)
  {
    if |es| == 1 {
      assert es[1..] == [];
    } else {
      assert es[1..][|es| - 2] == es[|es| - 1];
      WalkCounts(INITIAL, es[1..]);
    }
  }

  /** Complete is exactly the grammar, and its count is both the doors recorded and the doors declared. */
  lemma JudgeIsTheGrammar(es: seq<Event>)
    ensures Judge(es).verdict == Complete <==> Grammatical(es)
    ensures Judge(es).verdict == Complete ==> Judge(es).doorCalls == CountDoors(es) == SumDeclared(es)
  {
    if items :| Accounted(es, items) {
      GrammarIsComplete(es, items);
    }
    if Judge(es).verdict == Complete {
      CompleteCounts(es);
      if |es| > 1 {
        var items := CompleteIsAccounted(es);
        assert Accounted(es, items);
      }
    }
  }

  // ---------------------------------------------------------------- the other verdicts

  /** Started and finished, without the accounting marker and without one door count on any terminal. */
  predicate ClaimsNothing(es: seq<Event>) {
    && es != [] && es[0].kind == WorkflowStarted && es[|es| - 1].kind == WorkflowFinished && es[0].doorAccounting == ""
    && forall i :: 0 <= i < |es| && (es[i].kind == StepSucceeded || es[i].kind == StepFailed) ==> es[i].doorCalls.None?
  }

  /** Nothing yet, or started and not finished. */
  predicate Unfinished(es: seq<Event>) {
    es == [] || (es[0].kind == WorkflowStarted && es[|es| - 1].kind != WorkflowFinished)
  }

  /** A grammatical ledger is complete; of the others, each is without a claim, unfinished or a gap, exactly when. */
  lemma VerdictsExactly(es: seq<Event>)
    ensures Judge(es).verdict == NoClaim <==> ClaimsNothing(es)
    ensures Judge(es).verdict == Unterminated <==> Unfinished(es)
    ensures Judge(es).verdict == Gap <==> !Grammatical(es) && !ClaimsNothing(es) && !Unfinished(es)
    ensures Judge(es).verdict != Complete ==> Judge(es).doorCalls == 0
  {
    JudgeIsTheGrammar(es);
    if es != [] && es[0].kind == WorkflowStarted && es[|es| - 1].kind == WorkflowFinished &&
       es[0].doorAccounting == "" {
      if ClaimsNothing(es) {
        forall i | 0 <= i < |es| ensures !DeclaresDoors(es[i]) { }
      } else {
        var i :| 0 <= i < |es| && (es[i].kind == StepSucceeded || es[i].kind == StepFailed) && es[i].doorCalls.Some?;
        assert DeclaresDoors(es[i]);
      }
    }
  }

  // ---------------------------------------------------------------- loss is detected

  /** The events whose flag is set, in order. */
  function Keep(es: seq<Event>, flags: seq<bool>): seq<Event>
    requires |es| == |flags|
  {
    if es == [] then [] else (if flags[0] then [es[0]] else []) + Keep(es[1..], flags[1..])
  }

  lemma {:induction false} KeepDropsOnlyDoors(es: seq<Event>, flags: seq<bool>)
    requires |es| == |flags| && forall i :: 0 <= i < |es| ==> flags[i] || IsDoor(es[i])
    ensures SumDeclared(Keep(es, flags)) == SumDeclared(es)
    ensures CountDoors(Keep(es, flags)) <= CountDoors(es)
    ensures false in flags ==> CountDoors(Keep(es, flags)) < CountDoors(es)
  {
    if es != [] {
      var rest := Keep(es[1..], flags[1..]);
      assert flags == [flags[0]] + flags[1..];
      KeepDropsOnlyDoors(es[1..], flags[1..]);
      if flags[0] {
        assert Keep(es, flags)[0] == es[0] && Keep(es, flags)[1..] == rest;
      } else {
        assert Keep(es, flags) == rest;
      }
    }
  }

  lemma {:induction false} KeepEndsAlike(es: seq<Event>, flags: seq<bool>)
    requires |es| == |flags| && es != [] && flags[|es| - 1]
    ensures Keep(es, flags) != [] && Keep(es, flags)[|Keep(es, flags)| - 1] == es[|es| - 1]
  {
    if |es| > 1 {
      KeepEndsAlike(es[1..], flags[1..]);
    }
  }

  /** Dropping any non-empty set of door events from a complete ledger is a gap. */
  lemma LostDoorsAreAGap(es: seq<Event>, flags: seq<bool>)
    requires Judge(es).verdict == Complete
    requires |es| == |flags| && false in flags && forall i :: 0 <= i < |es| ==> flags[i] || IsDoor(es[i])
    ensures Judge(Keep(es, flags)).verdict == Gap
  {
    JudgeIsTheGrammar(es);
    JudgeIsTheGrammar(Keep(es, flags));
    KeepDropsOnlyDoors(es, flags);
    KeepEndsAlike(es, flags);
    assert flags[0] && Keep(es, flags)[0] == es[0];
  }

  lemma {:induction false} CountsOfDrop(es: seq<Event>, i: nat)
    requires i < |es|
    ensures OpenBalance(es[..i] + es[i + 1..]) == OpenBalance(es) - OpenBalance([es[i]])
  {
    if i == 0 {
      assert es[..0] + es[1..] == es[1..] && [es[0]][1..] == [];
    } else {
      CountsOfDrop(es[1..], i - 1);
      assert (es[..i] + es[i + 1..])[1..] == es[1..][..i - 1] + es[1..][i..];
    }
  }

  /** Between the start and the finish, a lifecycle event opens or closes a window. */
  lemma {:induction false} MiddleKinds(s: Scan, es: seq<Event>, i: nat)
    requires i < |es| - 1 && Walk(s, es).Some?
    ensures IsDoor(es[i]) || es[i].kind == BouncedBack || OpenBalance([es[i]]) != 0
    decreases |es|
  {
    var s' := Step(s, es[0], false).value;
    assert |[es[i]][1..]| == 0;
    if i > 0 {
      MiddleKinds(s', es[1..], i - 1);
    }
  }

  /** Dropping one lifecycle event other than a bounce from a complete ledger never leaves it complete. */
  lemma LostLifecycleEventIsSeen(es: seq<Event>, i: nat)
    requires Judge(es).verdict == Complete && i < |es|
    requires !IsDoor(es[i]) && es[i].kind != BouncedBack
    ensures Judge(es[..i] + es[i + 1..]).verdict != Complete
  {
    var lost, body := es[..i] + es[i + 1..], es[1..];
    if |es| > 1 {
      WalkCounts(INITIAL, body);
      if i == 0 {
        assert lost[0] == body[0];
      } else if i == |es| - 1 {
        assert |lost| > 1 ==> lost[|lost| - 1] == body[|es| - 3];
      } else {
        LostFromTheMiddle(es, i);
      }
    }
  }

  /** A complete ledger of more than one event opens and closes every window. */
  lemma CompleteIsBalanced(es: seq<Event>)
    requires Judge(es).verdict == Complete && |es| > 1
    ensures Walk(INITIAL, es[1..]).Some? && OpenBalance(es[1..]) == 0
  {
    assert es[1..][|es| - 2] == es[|es| - 1];
    WalkCounts(INITIAL, es[1..]);
  }

  lemma DropAfterFirst(es: seq<Event>, i: nat)
    requires 0 < i < |es|
    ensures (es[..i] + es[i + 1..])[1..] == es[1..][..i - 1] + es[1..][i..] && es[1..][i - 1] == es[i]
  {
  }

  lemma BalanceBreaks(body: seq<Event>, j: nat)
    requires Walk(INITIAL, body).Some? && j < |body| - 1 && !IsDoor(body[j]) && body[j].kind != BouncedBack
    ensures OpenBalance(body[..j] + body[j + 1..]) != OpenBalance(body)
  {
    MiddleKinds(INITIAL, body, j);
    CountsOfDrop(body, j);
  }

  lemma LostFromTheMiddle(es: seq<Event>, i: nat)
    requires Judge(es).verdict == Complete && 0 < i < |es| - 1
    requires !IsDoor(es[i]) && es[i].kind != BouncedBack
    ensures Judge(es[..i] + es[i + 1..]).verdict != Complete
  {
    CompleteIsBalanced(es);
    DropAfterFirst(es, i);
    BalanceBreaks(es[1..], i - 1);
    if Judge(es[..i] + es[i + 1..]).verdict == Complete {
      CompleteIsBalanced(es[..i] + es[i + 1..]);
    }
  }

  /** A bounce leaves the checker where it was, except that it forgets the failure it followed. */
  lemma {:induction false} WalkWithoutBounce(s: Scan, es: seq<Event>)
    requires s.prev == BouncedBack && s.open.None? && Walk(s, es).Some?
    ensures Walk(s.(prev := StepFailed), es) == Walk(s, es)
  {
    if es != [] {
      assert !IsDoor(es[0]);
      var a, b := Step(s, es[0], |es| == 1), Step(s.(prev := StepFailed), es[0], |es| == 1);
      assert b == a;
    }
  }

  lemma {:induction false} WalkDropBounce(s: Scan, es: seq<Event>, i: nat)
    requires i < |es| - 1 && es[i].kind == BouncedBack && Walk(s, es).Some?
    ensures Walk(s, es[..i] + es[i + 1..]) == Walk(s, es)
    decreases i
  {
    var s' := Step(s, es[0], |es| == 1).value;
    var lost := es[..i] + es[i + 1..];
    if i == 0 {
      assert lost == es[1..];
      WalkWithoutBounce(s', es[1..]);
      assert s'.(prev := StepFailed) == s;
    } else {
      WalkDropBounce(s', es[1..], i - 1);
      assert lost[1..] == es[1..][..i - 1] + es[1..][i..];
      if Step(s, es[0], false) != Step(s, es[0], |es| == 1) {
        assert false;
      }
    }
  }

  /** The one loss the checker cannot see: a dropped bounce leaves the report unchanged. */
  lemma LostBounceIsNotSeen(es: seq<Event>, i: nat)
    requires Judge(es).verdict == Complete && i < |es| && es[i].kind == BouncedBack
    ensures Judge(es[..i] + es[i + 1..]) == Judge(es)
  {
    var lost := es[..i] + es[i + 1..];
    assert 0 < i < |es| - 1;
    DropAfterFirst(es, i);
    WalkDropBounce(INITIAL, es[1..], i - 1);
  }

  /** Every proper prefix of a complete ledger is unterminated. */
  lemma LostTailIsUnterminated(es: seq<Event>, n: nat)
    requires Judge(es).verdict == Complete && n < |es|
    ensures Judge(es[..n]).verdict == Unterminated
  {
    if n > 0 {
      WalkCounts(INITIAL, es[1..]);
      if n > 1 { assert es[..n][n - 1] == es[1..][n - 2]; }
    }
  }

  /** Every terminal of a pass that ends well declares its doors. */
  lemma {:induction false} TerminalsDeclare(s: Scan, es: seq<Event>, i: nat)
    requires i < |es| && IsTerminal(es[i]) && Walk(s, es).Some?
    ensures es[i].doorCalls.Some?
    decreases |es|
  {
    if i > 0 { TerminalsDeclare(Step(s, es[0], |es| == 1).value, es[1..], i - 1); }
  }

  function WithoutMarker(es: seq<Event>): seq<Event>
    requires es != []
  {
    es[0 := es[0].(doorAccounting := "")]
  }

  /** A stripped marker hides nothing: a complete ledger with a step window becomes a gap, without one a non-claim. */
  lemma LostMarkerIsSeen(es: seq<Event>)
    requires Judge(es).verdict == Complete && es[0].kind == WorkflowStarted
    ensures Judge(WithoutMarker(es)).verdict ==
              if exists i :: 0 <= i < |es| && IsTerminal(es[i]) then Gap else NoClaim
  {
    var bare := WithoutMarker(es);
    VerdictsExactly(bare);
    if i :| 0 <= i < |es| && IsTerminal(es[i]) {
      assert es[1..][i - 1] == es[i] == bare[i];
      TerminalsDeclare(INITIAL, es[1..], i - 1);
      assert DeclaresDoors(bare[i]);
    } else {
      forall i | 0 <= i < |bare| ensures !IsTerminal(bare[i]) {
        assert i > 0 ==> bare[i] == es[i];
      }
    }
  }
}
