/**
  The tool bridge's session table (deploy/refbridge/bridge.go): the cap, one child a session, teardown
  once, shutdown, and the attestation of which child answered.

  The session's mutex is part of its state (`lock`): while a spawn, a mirror or a replacement is under
  way no other operation on that session starts, but every other session's steps interleave freely.
 */
module Bridge {
  import opened Prelude

  /** What a spawned child was: handles index the history of spawns, so a reused pid is not a reused child. */
  datatype Spawn = Spawn(session: nat, pid: int, bearer: string, generation: nat)

  datatype Lock = Free | Spawning(bearer: string, call: bool) | Mirroring | Replacing(former: nat, next: string)

  /** A session's own fields. */
  datatype Local = Local(
    ended: bool, bearer: string, child: Option<nat>, pid: int, generation: nat, mirrored: bool, lock: Lock)

  const FRESH := Local(false, "", None, 0, 0, false, Free)

  // ---------------------------------------------------------------- one session's steps

  predicate CanEnsure(l: Local, bearer: string) { bearer != "" && l.lock == Free && !l.ended && l.child.None? }

  function BeginEnsure(l: Local, bearer: string): Local { l.(lock := Spawning(bearer, false)) }

  /** The child is in place; an ensure goes on to mirror its tools if none were. */
  function Spawned(l: Local, child: nat, pid: int): Local
    requires l.lock.Spawning?
  {
    l.(child := Some(child), bearer := l.lock.bearer, pid := pid, generation := l.generation + 1,
       lock := if l.lock.call || l.mirrored then Free else Mirroring)
  }

  function SpawnFailed(l: Local): Local { l.(lock := Free) }

  function MirrorDone(l: Local, ok: bool): Local {
    if ok then l.(mirrored := true, lock := Free) else l.(child := None, lock := Free)
  }

  predicate CanCall(l: Local, bearer: string) { bearer != "" && l.lock == Free && !l.ended && l.child.Some? }

  predicate Rotates(rotation: bool, l: Local, bearer: string) { bearer != l.bearer && rotation }

  function BeginReplace(l: Local, bearer: string): Local
    requires l.child.Some?
  {
    l.(child := None, lock := Replacing(l.child.value, bearer))
  }

  function FormerClosed(l: Local): Local
    requires l.lock.Replacing?
  {
    l.(lock := Spawning(l.lock.next, true))
  }

  predicate CanEnd(l: Local) { l.lock == Free && !l.ended }

  function Ended(l: Local): Local { l.(ended := true, child := None) }

  /** What the bridge says of a call: the child that answers, its pid and its place among the session's spawns. */
  datatype Answer = Answer(session: nat, child: nat, pid: int, generation: nat, bearer: string)

  // ---------------------------------------------------------------- the session's methods

  class Session {
    var ended: bool
    var bearer: string
    var child: Option<nat>
    var pid: int
    var generation: nat
    var mirrored: bool

    function Now(): Local reads this { Local(ended, bearer, child, pid, generation, mirrored, Free) }

    constructor ()
      ensures Now() == FRESH
    {
      ended, bearer, child, pid, generation, mirrored := false, "", None, 0, 0, false;
    }

    /** Spawns the child if there is none and mirrors its tools once: begin, spawn, mirror, in that order. */
    method Ensure(b: string, spawn: Option<(nat, int)>, mirrors: bool) returns (ok: bool)
      requires b != ""
      modifies this
      ensures !CanEnsure(old(Now()), b) ==> Now() == old(Now()) && ok == !old(ended)
      ensures CanEnsure(old(Now()), b) ==>
                var begun := BeginEnsure(old(Now()), b);
                if spawn.None? then Now() == SpawnFailed(begun) && !ok
                else var placed := Spawned(begun, spawn.value.0, spawn.value.1);
                     if placed.lock == Free then Now() == placed && ok
                     else Now() == MirrorDone(placed, mirrors) && ok == mirrors
      ensures !old(ended) && old(child).None? && spawn.Some? ==>
                && bearer == b && pid == spawn.value.1 && generation == old(generation) + 1 && !ended
                && (ok <==> old(mirrored) || mirrors) && (mirrored <==> old(mirrored) || mirrors)
                && child == if ok then Some(spawn.value.0) else None
      ensures !old(ended) && old(child).None? && spawn.None? ==> !ok && Now() == old(Now())
      ensures !old(ended) && old(child).Some? ==> ok && Now() == old(Now())
      ensures old(ended) ==> !ok && Now() == old(Now())
    {
      if ended {
        return false;
      }
      if child.Some? {
        return true;
      }
      if spawn.None? {
        return false;
      }
      child, bearer, pid := Some(spawn.value.0), b, spawn.value.1;
      generation := generation + 1;
      if mirrored {
        return true;
      }
      if !mirrors {
        child := None;
        return false;
      }
      mirrored := true;
      return true;
    }

    /** The child to forward to and the account of it, taken together; a rotated bearer replaces the child first. */
    method ChildFor(id: nat, b: string, rotation: bool, spawn: Option<(nat, int)>) returns (r: Result<Answer>)
      requires b != ""
      modifies this
      ensures !CanCall(old(Now()), b) ==> r.Err? && Now() == old(Now())
      ensures CanCall(old(Now()), b) && !Rotates(rotation, old(Now()), b) ==>
                Now() == old(Now()) && r == Ok(AnswerOf(id, Now(), b))
      ensures CanCall(old(Now()), b) && Rotates(rotation, old(Now()), b) ==>
                var closed := FormerClosed(BeginReplace(old(Now()), b));
                if spawn.None? then Now() == SpawnFailed(closed) && r.Err?
                else Now() == Spawned(closed, spawn.value.0, spawn.value.1) && r == Ok(AnswerOf(id, Now(), b))
      ensures r.Ok? <==> !old(ended) && old(child).Some? && (b != old(bearer) && rotation ==> spawn.Some?)
      ensures r.Ok? ==> r.value == Answer(id, child.value, pid, generation, b) && (rotation ==> bearer == b)
      ensures r.Ok? && b != old(bearer) && rotation ==>
                child == Some(spawn.value.0) && pid == spawn.value.1 && generation == old(generation) + 1
      ensures r.Ok? && !(b != old(bearer) && rotation) ==> Now() == old(Now())
      ensures r.Err? && !old(ended) && old(child).Some? ==> child == None && generation == old(generation)
    {
      if ended || child.None? {
        return Err;
      }
      if b != bearer && rotation {
        child := None;
        if spawn.None? {
          return Err;
        }
        child, bearer, pid := Some(spawn.value.0), b, spawn.value.1;
        generation := generation + 1;
      }
      return Ok(Answer(id, child.value, pid, generation, b));
    }

    /** The locked part of teardown: the child to close, the first time; nothing after. */
    method End() returns (taken: Option<nat>)
      modifies this
      ensures taken == if old(ended) then None else old(child)
      ensures Now() == if old(ended) then old(Now()) else Ended(old(Now()))
    {
      if ended {
        return None;
      }
      ended := true;
      taken := child;
      child := None;
    }
  }

  function AnswerOf(id: nat, l: Local, bearer: string): Answer
    requires l.child.Some?
  {
    Answer(id, l.child.value, l.pid, l.generation, bearer)
  }

  // ---------------------------------------------------------------- the whole bridge

  /** How far a session's teardown has come. */
  datatype Tear = Running | Closing(child: Option<nat>) | Deleting | Finishing | Gone

  datatype Object = Object(ss: nat, l: Local, tear: Tear)

  datatype Config = Config(cap: nat, rotation: bool)

  /** `sessions` maps a connection to the session admitted for it; `running` is the processes there are. */
  datatype State = State(
    closing: bool, sessions: map<nat, nat>, objects: seq<Object>, wg: int,
    spawned: seq<Spawn>, running: set<nat>, answers: seq<Answer>)

  const INIT := State(false, map[], [], 0, [], {}, [])

  datatype AdmitVerdict = NewSession | Already | Refused

  function JudgeAdmit(closing: bool, sessions: map<nat, nat>, cap: nat, ss: nat): AdmitVerdict {
    if closing then Refused else if ss in sessions then Already else if |sessions| >= cap then Refused else NewSession
  }

  class Table {
    const cap: nat
    var closing: bool
    var sessions: map<nat, nat>
    var wg: int

    constructor (cap: nat)
      ensures this.cap == cap && !closing && sessions == map[] && wg == 0
    {
      this.cap, closing, sessions, wg := cap, false, map[], 0;
    }

    /** Registers a connection under the cap; a closing bridge admits nothing. */
    method Admit(ss: nat, admitted: nat) returns (v: AdmitVerdict)
      modifies this
      ensures v == JudgeAdmit(old(closing), old(sessions), cap, ss) && closing == old(closing)
      ensures v == NewSession <==> !old(closing) && ss !in old(sessions) && |old(sessions)| < cap
      ensures v == Already <==> !old(closing) && ss in old(sessions)
      ensures v == NewSession ==> sessions == old(sessions)[ss := admitted] && wg == old(wg) + 1
      ensures v != NewSession ==> sessions == old(sessions) && wg == old(wg)
    {
      if closing {
        return Refused;
      }
      if ss in sessions {
        return Already;
      }
      if |sessions| >= cap {
        return Refused;
      }
      sessions, wg := sessions[ss := admitted], wg + 1;
      return NewSession;
    }
  }

  datatype Step =
    | Admit(ss: nat)
    | Close
    | EnsureStart(o: nat, bearer: string)
    | SpawnOk(o: nat, pid: int)
    | SpawnFail(o: nat)
    | Mirror(o: nat, ok: bool)
    | Call(o: nat, bearer: string)
    | CloseFormer(o: nat)
    | End(o: nat)
    | CloseChild(o: nat)
    | Delete(o: nat)
    | Done(o: nat)
    | Dies(child: nat)

  predicate OfSession(step: Step) { !step.Admit? && !step.Close? && !step.Dies? }

  predicate Enabled(cfg: Config, s: State, step: Step) {
    && (step.Admit? ==> JudgeAdmit(s.closing, s.sessions, cfg.cap, step.ss) == NewSession)
    && (step.Dies? ==> step.child in s.running)
    && (OfSession(step) ==> step.o < |s.objects| && Next(s.objects[step.o], step))
  }

  predicate Next(x: Object, step: Step)
    requires OfSession(step)
  {
    match step
    case EnsureStart(_, bearer) => CanEnsure(x.l, bearer)
    case SpawnOk(_, _) => x.l.lock.Spawning?
    case SpawnFail(_) => x.l.lock.Spawning?
    case Mirror(_, _) => x.l.lock.Mirroring? && x.l.child.Some?
    case Call(_, bearer) => CanCall(x.l, bearer)
    case CloseFormer(_) => x.l.lock.Replacing?
    case End(_) => CanEnd(x.l)
    case CloseChild(_) => x.tear.Closing?
    case Delete(_) => x.tear.Deleting?
    case Done(_) => x.tear.Finishing?
  }

  /** What the step makes of its own session. */
  function After(cfg: Config, x: Object, child: nat, step: Step): Object
    requires OfSession(step) && Next(x, step)
  {
    match step
    case EnsureStart(_, bearer) => x.(l := BeginEnsure(x.l, bearer))
    case SpawnOk(_, pid) => x.(l := Spawned(x.l, child, pid))
    case SpawnFail(_) => x.(l := SpawnFailed(x.l))
    case Mirror(_, ok) => x.(l := MirrorDone(x.l, ok))
    case Call(_, bearer) => if Rotates(cfg.rotation, x.l, bearer) then x.(l := BeginReplace(x.l, bearer)) else x
    case CloseFormer(_) => x.(l := FormerClosed(x.l))
    case End(_) => x.(l := Ended(x.l), tear := Closing(x.l.child))
    case CloseChild(_) => x.(tear := Deleting)
    case Delete(_) => x.(tear := Finishing)
    case Done(_) => x.(tear := Gone)
  }

  /** The process the step ends, if any. */
  function Closes(x: Object, step: Step): Option<nat>
    requires OfSession(step) && Next(x, step)
  {
    match step
    case Mirror(_, ok) => if ok then None else x.l.child
    case CloseFormer(_) => Some(x.l.lock.former)
    case CloseChild(_) => x.tear.child
    case _ => None
  }

  /** The answer the step lets go, if any: a call served as it is, or after its spawn. */
  function Answers(cfg: Config, x: Object, child: nat, step: Step): seq<Answer>
    requires OfSession(step) && Next(x, step)
  {
    match step
    case Call(o, bearer) => if Rotates(cfg.rotation, x.l, bearer) then [] else [AnswerOf(o, x.l, bearer)]
    case SpawnOk(o, pid) => if x.l.lock.call then [AnswerOf(o, Spawned(x.l, child, pid), x.l.lock.bearer)] else []
    case _ => []
  }

  function Without(running: set<nat>, h: Option<nat>): set<nat> { if h.Some? then running - {h.value} else running }

  function Effect(cfg: Config, s: State, step: Step): State
    requires Enabled(cfg, s, step)
  {
    if step.Admit? then
      s.(sessions := s.sessions[step.ss := |s.objects|], objects := s.objects + [Object(step.ss, FRESH, Running)],
         wg := s.wg + 1)
    else if step.Close? then s.(closing := true)
    else if step.Dies? then s.(running := s.running - {step.child})
    else SessionEffect(cfg, s, step)
  }

  function SessionEffect(cfg: Config, s: State, step: Step): State
    requires OfSession(step) && Enabled(cfg, s, step)
  {
    var x, h := s.objects[step.o], |s.spawned|;
    s.(objects := s.objects[step.o := After(cfg, x, h, step)],
       answers := s.answers + Answers(cfg, x, h, step),
       spawned := if step.SpawnOk? then s.spawned + [Spawn(step.o, step.pid, x.l.lock.bearer, x.l.generation + 1)]
                  else s.spawned,
       running := if step.SpawnOk? then s.running + {h} else Without(s.running, Closes(x, step)),
       sessions := if step.Delete? then s.sessions - {x.ss} else s.sessions,
       wg := if step.Done? then s.wg - 1 else s.wg)
  }

  // ---------------------------------------------------------------- the invariant

  /** The child a session has or is about to close. */
  function Current(x: Object): Option<nat> {
    if x.l.child.Some? then x.l.child
    else if x.l.lock.Replacing? then Some(x.l.lock.former)
    else if x.tear.Closing? then x.tear.child
    else None
  }

  /** A session's fields describe its child: it was spawned for this session with this pid, bearer and number. */
  ghost predicate ObjectOk(spawned: seq<Spawn>, o: nat, x: Object) {
    && (x.l.child.Some? ==> x.l.child.value < |spawned|)
    && (x.l.child.Some? ==> spawned[x.l.child.value] == Spawn(o, x.l.pid, x.l.bearer, x.l.generation))
    && (x.l.ended <==> !x.tear.Running?)
    && (x.l.ended ==> x.l.lock == Free && x.l.child.None?)
    && (x.l.lock.Spawning? ==> x.l.lock.bearer != "" && x.l.child.None?)
    && (x.l.lock.Replacing? ==> x.l.lock.next != "" && x.l.child.None?)
    && x.l.generation == SpawnsOf(spawned, o)
  }

  /** How many children a session has spawned. */
  function SpawnsOf(spawned: seq<Spawn>, o: nat): nat {
    if spawned == [] then 0
    else SpawnsOf(spawned[..|spawned| - 1], o) + if spawned[|spawned| - 1].session == o then 1 else 0
  }

  /** Spawns are numbered within their session, and each had a bearer. */
  ghost predicate SpawnOkAt(s: State, h: nat)
    requires h < |s.spawned|
  {
    && s.spawned[h].session < |s.objects| && s.spawned[h].bearer != ""
    && s.spawned[h].generation == SpawnsOf(s.spawned[..h], s.spawned[h].session) + 1
  }

  ghost predicate ProcessOk(s: State, h: nat) {
    && h < |s.spawned| && s.spawned[h].session < |s.objects|
    && Current(s.objects[s.spawned[h].session]) == Some(h)
  }

  ghost predicate AnswerOk(cfg: Config, spawned: seq<Spawn>, a: Answer) {
    && a.child < |spawned|
    && spawned[a.child].session == a.session && spawned[a.child].pid == a.pid
    && spawned[a.child].generation == a.generation
    && (cfg.rotation ==> spawned[a.child].bearer == a.bearer)
  }

  /** The attestation's session and generation are this child's. */
  predicate Named(child: Spawn, a: Answer) { child.session == a.session && child.generation == a.generation }

  predicate Listed(tear: Tear) { tear.Running? || tear.Closing? || tear.Deleting? }

  ghost predicate EntryOk(s: State, ss: nat)
    requires ss in s.sessions
  {
    var o := s.sessions[ss];
    o < |s.objects| && s.objects[o].ss == ss && Listed(s.objects[o].tear)
  }

  ghost predicate InMap(s: State, o: nat)
    requires o < |s.objects|
  {
    Listed(s.objects[o].tear) ==> s.objects[o].ss in s.sessions && s.sessions[s.objects[o].ss] == o
  }

  /** The map holds exactly the sessions whose teardown has not removed them. */
  ghost predicate MapOk(s: State) {
    && (forall ss :: ss in s.sessions ==> EntryOk(s, ss))
    && (forall o :: 0 <= o < |s.objects| ==> InMap(s, o))
  }

  /** The sessions admitted and not yet torn down. */
  function Waiting(objects: seq<Object>): set<nat> { set o | 0 <= o < |objects| && !objects[o].tear.Gone? }

  ghost predicate Inv(cfg: Config, s: State) {
    && ObjectsOk(s) && SpawnsOk(s) && ProcessesOk(s) && AnswersOk(cfg, s)
    && MapOk(s) && |s.sessions| <= cfg.cap
    && s.wg == |Waiting(s.objects)|
  }

  // ---------------------------------------------------------------- one step

  lemma SpawnsOfAppend(spawned: seq<Spawn>, x: Spawn, o: nat)
    ensures SpawnsOf(spawned + [x], o) == SpawnsOf(spawned, o) + if x.session == o then 1 else 0
  {
    assert (spawned + [x])[..|spawned|] == spawned;
  }

  /** No child of a session that has not begun. */
  lemma {:induction false} NoSpawnsYet(spawned: seq<Spawn>, o: nat)
    requires forall h :: 0 <= h < |spawned| ==> spawned[h].session < o
    ensures SpawnsOf(spawned, o) == 0
  {
    if spawned != [] { NoSpawnsYet(spawned[..|spawned| - 1], o); }
  }

  ghost predicate ObjectsOk(s: State) { forall o :: 0 <= o < |s.objects| ==> ObjectOk(s.spawned, o, s.objects[o]) }

  ghost predicate SpawnsOk(s: State) { forall h :: 0 <= h < |s.spawned| ==> SpawnOkAt(s, h) }

  ghost predicate ProcessesOk(s: State) { forall h :: h in s.running ==> ProcessOk(s, h) }

  ghost predicate AnswersOk(cfg: Config, s: State) {
    forall i :: 0 <= i < |s.answers| ==> AnswerOk(cfg, s.spawned, s.answers[i])
  }

  lemma ObjectStays(spawned: seq<Spawn>, x: Spawn, o: nat, y: Object)
    requires ObjectOk(spawned, o, y) && x.session != o
    ensures ObjectOk(spawned + [x], o, y)
  {
    SpawnsOfAppend(spawned, x, o);
  }

  lemma OwnObject(cfg: Config, s: State, step: Step)
    requires OfSession(step) && Enabled(cfg, s, step) && ObjectOk(s.spawned, step.o, s.objects[step.o])
    ensures ObjectOk(Effect(cfg, s, step).spawned, step.o, Effect(cfg, s, step).objects[step.o])
  {
    if step.SpawnOk? {
      var x := s.objects[step.o];
      SpawnsOfAppend(s.spawned, Spawn(step.o, step.pid, x.l.lock.bearer, x.l.generation + 1), step.o);
    }
  }

  lemma StepKeepsObjects(cfg: Config, s: State, step: Step)
    requires ObjectsOk(s) && SpawnsOk(s) && Enabled(cfg, s, step)
    ensures ObjectsOk(Effect(cfg, s, step))
  {
    var s' := Effect(cfg, s, step);
    forall o | 0 <= o < |s'.objects| ensures ObjectOk(s'.spawned, o, s'.objects[o]) {
      if o == |s.objects| {
        forall h | 0 <= h < |s.spawned| ensures s.spawned[h].session < o { assert SpawnOkAt(s, h); }
        NoSpawnsYet(s.spawned, o);
      } else if OfSession(step) && o == step.o {
        OwnObject(cfg, s, step);
      } else {
        assert ObjectOk(s.spawned, o, s.objects[o]);
        if step.SpawnOk? { ObjectStays(s.spawned, s'.spawned[|s.spawned|], o, s.objects[o]); }
      }
    }
  }

  lemma StepKeepsSpawns(cfg: Config, s: State, step: Step)
    requires ObjectsOk(s) && SpawnsOk(s) && Enabled(cfg, s, step)
    ensures SpawnsOk(Effect(cfg, s, step))
  {
    var s' := Effect(cfg, s, step);
    forall h | 0 <= h < |s'.spawned| ensures SpawnOkAt(s', h) {
      assert s'.spawned[..h] == s.spawned[..h];
      if h < |s.spawned| {
        assert SpawnOkAt(s, h);
      } else {
        assert s.spawned[..h] == s.spawned && ObjectOk(s.spawned, step.o, s.objects[step.o]);
      }
    }
  }

  /** A step leaves its session's child current, or closes it. */
  lemma CurrentStays(cfg: Config, s: State, step: Step, h: nat)
    requires OfSession(step) && Enabled(cfg, s, step) && ObjectOk(s.spawned, step.o, s.objects[step.o])
    requires Current(s.objects[step.o]) == Some(h)
    ensures || Current(Effect(cfg, s, step).objects[step.o]) == Some(h)
            || Closes(s.objects[step.o], step) == Some(h)
  {
  }

  lemma StepKeepsProcesses(cfg: Config, s: State, step: Step)
    requires ObjectsOk(s) && ProcessesOk(s) && Enabled(cfg, s, step)
    ensures ProcessesOk(Effect(cfg, s, step))
  {
    var s' := Effect(cfg, s, step);
    forall h | h in s'.running ensures ProcessOk(s', h) {
      if h in s.running {
        assert ProcessOk(s, h);
        if OfSession(step) && s.spawned[h].session == step.o {
          assert ObjectOk(s.spawned, step.o, s.objects[step.o]);
          CurrentStays(cfg, s, step, h);
        }
      }
    }
  }

  lemma StepKeepsAnswers(cfg: Config, s: State, step: Step)
    requires ObjectsOk(s) && AnswersOk(cfg, s) && Enabled(cfg, s, step)
    ensures AnswersOk(cfg, Effect(cfg, s, step))
  {
    var s' := Effect(cfg, s, step);
    forall i | 0 <= i < |s'.answers| ensures AnswerOk(cfg, s'.spawned, s'.answers[i]) {
      if i < |s.answers| {
        assert AnswerOk(cfg, s.spawned, s.answers[i]);
      } else {
        assert ObjectOk(s.spawned, step.o, s.objects[step.o]);
      }
    }
  }

  /** What a step does to where its session stands. */
  lemma Standing(cfg: Config, spawned: seq<Spawn>, x: Object, h: nat, step: Step)
    requires OfSession(step) && Next(x, step) && ObjectOk(spawned, step.o, x)
    ensures After(cfg, x, h, step).ss == x.ss
    ensures Listed(After(cfg, x, h, step).tear) <==> Listed(x.tear) && !step.Delete?
    ensures After(cfg, x, h, step).tear.Gone? <==> x.tear.Gone? || step.Done?
    ensures (step.Delete? ==> Listed(x.tear)) && (step.Done? ==> !x.tear.Gone?)
  {
  }

  lemma AdmitKeepsMap(cfg: Config, s: State, ss: nat)
    requires MapOk(s) && |s.sessions| <= cfg.cap && Enabled(cfg, s, Admit(ss))
    ensures MapOk(Effect(cfg, s, Admit(ss))) && |Effect(cfg, s, Admit(ss)).sessions| <= cfg.cap
  {
    var s' := Effect(cfg, s, Admit(ss));
    assert s'.sessions.Keys == s.sessions.Keys + {ss};
    forall t | t in s'.sessions ensures EntryOk(s', t) { if t != ss { assert EntryOk(s, t); } }
    forall o | 0 <= o < |s'.objects| ensures InMap(s', o) { if o < |s.objects| { assert InMap(s, o); } }
  }

  lemma SessionKeepsMap(cfg: Config, s: State, step: Step)
    requires MapOk(s) && |s.sessions| <= cfg.cap && OfSession(step) && Enabled(cfg, s, step)
    requires ObjectOk(s.spawned, step.o, s.objects[step.o])
    ensures MapOk(Effect(cfg, s, step)) && |Effect(cfg, s, step).sessions| <= cfg.cap
  {
    var s' := Effect(cfg, s, step);
    var x := s.objects[step.o];
    Standing(cfg, s.spawned, x, |s.spawned|, step);
    assert InMap(s, step.o);
    SmallerMap(s.sessions, x.ss);
    forall t | t in s'.sessions ensures EntryOk(s', t) { assert EntryOk(s, t); }
    forall o | 0 <= o < |s'.objects| ensures InMap(s', o) { assert InMap(s, o); }
  }

  lemma SmallerMap(m: map<nat, nat>, k: nat)
    ensures |m - {k}| <= |m|
  {
    assert (m - {k}).Keys == m.Keys - {k};
    assert |m.Keys - {k}| <= |m.Keys|;
  }

  lemma StepKeepsMap(cfg: Config, s: State, step: Step)
    requires ObjectsOk(s) && MapOk(s) && |s.sessions| <= cfg.cap && Enabled(cfg, s, step)
    ensures MapOk(Effect(cfg, s, step)) && |Effect(cfg, s, step).sessions| <= cfg.cap
  {
    if step.Admit? {
      AdmitKeepsMap(cfg, s, step.ss);
    } else if OfSession(step) {
      assert ObjectOk(s.spawned, step.o, s.objects[step.o]);
      SessionKeepsMap(cfg, s, step);
    } else {
      var s' := Effect(cfg, s, step);
      forall t | t in s'.sessions ensures EntryOk(s', t) { assert EntryOk(s, t); }
      forall o | 0 <= o < |s'.objects| ensures InMap(s', o) { assert InMap(s, o); }
    }
  }

  lemma WaitingOfAdmit(objects: seq<Object>, x: Object)
    requires !x.tear.Gone?
    ensures |Waiting(objects + [x])| == |Waiting(objects)| + 1
  {
    var was, now := Waiting(objects), Waiting(objects + [x]);
    forall o ensures o in now <==> o in was || o == |objects| {
      if 0 <= o < |objects| { assert (objects + [x])[o] == objects[o]; }
    }
    assert now == was + {|objects|};
  }

  lemma WaitingOfUpdate(objects: seq<Object>, o: nat, x: Object)
    requires o < |objects| && (objects[o].tear.Gone? ==> x.tear.Gone?)
    ensures |Waiting(objects[o := x])| == |Waiting(objects)| - if x.tear.Gone? && !objects[o].tear.Gone? then 1 else 0
  {
    if x.tear.Gone? && !objects[o].tear.Gone? {
      assert Waiting(objects[o := x]) == Waiting(objects) - {o} && o in Waiting(objects);
    } else {
      assert Waiting(objects[o := x]) == Waiting(objects);
    }
  }

  lemma StepKeepsCount(cfg: Config, s: State, step: Step)
    requires ObjectsOk(s) && s.wg == |Waiting(s.objects)| && Enabled(cfg, s, step)
    ensures Effect(cfg, s, step).wg == |Waiting(Effect(cfg, s, step).objects)|
  {
    if step.Admit? {
      WaitingOfAdmit(s.objects, Object(step.ss, FRESH, Running));
    } else if OfSession(step) {
      var x, h := s.objects[step.o], |s.spawned|;
      assert ObjectOk(s.spawned, step.o, x);
      Standing(cfg, s.spawned, x, h, step);
      WaitingOfUpdate(s.objects, step.o, After(cfg, x, h, step));
    }
  }

  lemma StepKeepsInv(cfg: Config, s: State, step: Step)
    requires Inv(cfg, s) && Enabled(cfg, s, step)
    ensures Inv(cfg, Effect(cfg, s, step))
  {
    StepKeepsObjects(cfg, s, step);
    StepKeepsSpawns(cfg, s, step);
    StepKeepsProcesses(cfg, s, step);
    StepKeepsAnswers(cfg, s, step);
    StepKeepsMap(cfg, s, step);
    StepKeepsCount(cfg, s, step);
  }

  // ---------------------------------------------------------------- every run

  ghost predicate CanRun(cfg: Config, s: State, steps: seq<Step>)
    decreases |steps|
  {
    steps == [] || (Enabled(cfg, s, steps[0]) && CanRun(cfg, Effect(cfg, s, steps[0]), steps[1..]))
  }

  ghost function Run(cfg: Config, s: State, steps: seq<Step>): State
    requires CanRun(cfg, s, steps)
    decreases |steps|
  {
    if steps == [] then s else Run(cfg, Effect(cfg, s, steps[0]), steps[1..])
  }

  lemma {:induction false} RunKeepsInv(cfg: Config, s: State, steps: seq<Step>)
    requires Inv(cfg, s) && CanRun(cfg, s, steps)
    ensures Inv(cfg, Run(cfg, s, steps))
    decreases |steps|
  {
    if steps != [] {
      StepKeepsInv(cfg, s, steps[0]);
      RunKeepsInv(cfg, Effect(cfg, s, steps[0]), steps[1..]);
    }
  }

  lemma InitIsOk(cfg: Config)
    ensures Inv(cfg, INIT)
  {
    assert Waiting(INIT.objects) == {};
  }

  /** A session never has two live children, whatever is being replaced, mirrored or torn down. */
  lemma OneChildPerSession(cfg: Config, steps: seq<Step>, h: nat, k: nat)
    requires CanRun(cfg, INIT, steps)
    requires h in Run(cfg, INIT, steps).running && k in Run(cfg, INIT, steps).running
    ensures h < |Run(cfg, INIT, steps).spawned| && k < |Run(cfg, INIT, steps).spawned|
    ensures Run(cfg, INIT, steps).spawned[h].session == Run(cfg, INIT, steps).spawned[k].session ==> h == k
  {
    InitIsOk(cfg);
    RunKeepsInv(cfg, INIT, steps);
    var s := Run(cfg, INIT, steps);
    assert ProcessOk(s, h) && ProcessOk(s, k);
  }

  lemma {:induction false} InjectionSize(xs: set<nat>, ys: set<nat>, f: map<nat, nat>)
    requires forall x :: x in xs ==> x in f && f[x] in ys
    requires forall x, y :: x in xs && y in xs && f[x] == f[y] ==> x == y
    ensures |xs| <= |ys|
    decreases |xs|
  {
    if x :| x in xs {
      InjectionSize(xs - {x}, ys - {f[x]}, f);
    }
  }

  /** The session a running child belongs to is still in the map. */
  lemma RunningIsListed(cfg: Config, s: State, h: nat)
    requires Inv(cfg, s) && h in s.running
    ensures ProcessOk(s, h)
    ensures var x := s.objects[s.spawned[h].session]; x.ss in s.sessions && s.sessions[x.ss] == s.spawned[h].session
  {
    assert ProcessOk(s, h);
    var o := s.spawned[h].session;
    assert ObjectOk(s.spawned, o, s.objects[o]) && InMap(s, o);
  }

  /** Processes never outnumber sessions, nor sessions the cap. */
  lemma ChildrenWithinCap(cfg: Config, steps: seq<Step>)
    requires CanRun(cfg, INIT, steps)
    ensures |Run(cfg, INIT, steps).running| <= |Run(cfg, INIT, steps).sessions| <= cfg.cap
  {
    InitIsOk(cfg);
    RunKeepsInv(cfg, INIT, steps);
    var s := Run(cfg, INIT, steps);
    forall h | h in s.running ensures ProcessOk(s, h) { RunningIsListed(cfg, s, h); }
    var f := map h | h in s.running :: s.objects[s.spawned[h].session].ss;
    forall h | h in s.running ensures f[h] in s.sessions.Keys { RunningIsListed(cfg, s, h); }
    forall h, k | h in s.running && k in s.running && f[h] == f[k] ensures h == k {
      RunningIsListed(cfg, s, h);
      RunningIsListed(cfg, s, k);
    }
    InjectionSize(s.running, s.sessions.Keys, f);
  }

  lemma EndedStep(cfg: Config, s: State, step: Step, o: nat)
    requires Inv(cfg, s) && Enabled(cfg, s, step) && o < |s.objects| && s.objects[o].l.ended
    ensures o < |Effect(cfg, s, step).objects| && Effect(cfg, s, step).objects[o].l.ended
    ensures SpawnsOf(Effect(cfg, s, step).spawned, o) == SpawnsOf(s.spawned, o)
  {
    assert ObjectOk(s.spawned, o, s.objects[o]);
    if step.SpawnOk? {
      var x := s.objects[step.o];
      SpawnsOfAppend(s.spawned, Spawn(step.o, step.pid, x.l.lock.bearer, x.l.generation + 1), o);
    }
  }

  /** Teardown is final: a session that has ended spawns nothing in any run from there. */
  lemma {:induction false} NothingSpawnsAfterTeardown(cfg: Config, s: State, steps: seq<Step>, o: nat)
    requires Inv(cfg, s) && CanRun(cfg, s, steps) && o < |s.objects| && s.objects[o].l.ended
    ensures o < |Run(cfg, s, steps).objects| && Run(cfg, s, steps).objects[o].l.ended
    ensures SpawnsOf(Run(cfg, s, steps).spawned, o) == SpawnsOf(s.spawned, o)
    decreases |steps|
  {
    if steps != [] {
      EndedStep(cfg, s, steps[0], o);
      StepKeepsInv(cfg, s, steps[0]);
      NothingSpawnsAfterTeardown(cfg, Effect(cfg, s, steps[0]), steps[1..], o);
    }
  }

  /** In every interleaving, each child ever spawned had a bearer, and belonged to an admitted session. */
  lemma NothingSpawnsWithoutABearer(cfg: Config, steps: seq<Step>, h: nat)
    requires CanRun(cfg, INIT, steps) && h < |Run(cfg, INIT, steps).spawned|
    ensures Run(cfg, INIT, steps).spawned[h].bearer != ""
    ensures Run(cfg, INIT, steps).spawned[h].session < |Run(cfg, INIT, steps).objects|
  {
    InitIsOk(cfg);
    RunKeepsInv(cfg, INIT, steps);
    assert SpawnOkAt(Run(cfg, INIT, steps), h);
  }

  /** The wait count is the sessions not torn down; at zero no session is listed and no child runs. */
  lemma ZeroMeansNone(cfg: Config, s: State)
    requires Inv(cfg, s) && s.wg == 0
    ensures s.sessions == map[] && s.running == {}
    ensures forall o :: 0 <= o < |s.objects| ==> s.objects[o].tear.Gone?
  {
    assert Waiting(s.objects) == {};
    forall o | 0 <= o < |s.objects| ensures s.objects[o].tear.Gone? { assert o !in Waiting(s.objects); }
    assert forall ss :: ss !in s.sessions;
    forall h | h in s.running ensures false { RunningIsListed(cfg, s, h); }
  }

  /** A closing bridge admits nothing, so its count only falls. */
  lemma ClosedStaysAtZero(cfg: Config, s: State, step: Step)
    requires Inv(cfg, s) && s.closing && s.wg == 0 && Enabled(cfg, s, step)
    ensures Inv(cfg, Effect(cfg, s, step)) && Effect(cfg, s, step).closing && Effect(cfg, s, step).wg == 0
  {
    StepKeepsInv(cfg, s, step);
    assert Effect(cfg, s, step).wg <= s.wg;
  }

  /** Once close has waited, nothing comes back: no session and no child in any run after it. */
  lemma {:induction false} NoneSurvivesClose(cfg: Config, s: State, steps: seq<Step>)
    requires Inv(cfg, s) && s.closing && s.wg == 0 && CanRun(cfg, s, steps)
    ensures Run(cfg, s, steps).wg == 0 && Run(cfg, s, steps).sessions == map[] && Run(cfg, s, steps).running == {}
    decreases |steps|
  {
    ZeroMeansNone(cfg, s);
    if steps != [] {
      ClosedStaysAtZero(cfg, s, steps[0]);
      NoneSurvivesClose(cfg, Effect(cfg, s, steps[0]), steps[1..]);
    }
  }

  lemma {:induction false} SpawnsOfGrows(spawned: seq<Spawn>, o: nat, h: nat, k: nat)
    requires h < k <= |spawned|
    ensures SpawnsOf(spawned[..k], o) >= SpawnsOf(spawned[..h], o) + if spawned[h].session == o then 1 else 0
    decreases k
  {
    assert spawned[..k][..k - 1] == spawned[..k - 1];
    if h < k - 1 { SpawnsOfGrows(spawned, o, h, k - 1); }
  }

  /** A session and a generation name one child of the whole history, whatever pids are reused. */
  lemma GenerationNamesChild(s: State, h: nat, k: nat)
    requires SpawnsOk(s) && h < |s.spawned| && k < |s.spawned|
    requires s.spawned[h].session == s.spawned[k].session && s.spawned[h].generation == s.spawned[k].generation
    ensures h == k
  {
    assert SpawnOkAt(s, h) && SpawnOkAt(s, k);
    if h < k {
      SpawnsOfGrows(s.spawned, s.spawned[h].session, h, k);
    } else if k < h {
      SpawnsOfGrows(s.spawned, s.spawned[h].session, k, h);
    }
  }

  /**
    Every attestation names the pid and generation of the child that answers, that child had a bearer,
    and under respawn-on-rotation it was spawned with the very bearer of the call.
   */
  lemma AttestationsAreTrue(cfg: Config, steps: seq<Step>, i: nat)
    requires CanRun(cfg, INIT, steps) && i < |Run(cfg, INIT, steps).answers|
    ensures var s := Run(cfg, INIT, steps); var a := s.answers[i];
            && a.child < |s.spawned|
            && var child := s.spawned[a.child];
               && child.session == a.session && child.pid == a.pid && child.generation == a.generation
               && child.bearer != "" && (cfg.rotation ==> child.bearer == a.bearer)
               && forall h :: 0 <= h < |s.spawned| && Named(s.spawned[h], a) ==> h == a.child
  {
    InitIsOk(cfg);
    RunKeepsInv(cfg, INIT, steps);
    var s := Run(cfg, INIT, steps);
    var a := s.answers[i];
    assert AnswerOk(cfg, s.spawned, a) && SpawnOkAt(s, a.child);
    forall h | 0 <= h < |s.spawned| && Named(s.spawned[h], a) ensures h == a.child {
      GenerationNamesChild(s, h, a.child);
    }
  }
}
