/**
  The install protocol and the staleness floor together: pinned execution reads, under the shared lock,
  verify the install the root holds, judge it by the floor and write the floor, while every other command
  runs, and while the whole root may be exchanged for another one whenever nobody holds the lock.

  That a reader's window holds one install is not assumed here: it follows from the install protocol.
 */
module PinnedReads {
  import opened Prelude
  import opened ControlLog
  import ControlRoot
  import Floor = FloorProtocol
  import Install = InstallProtocol

  type Pid = nat

  /** What a pinned read of these records would verify: the ledger and the position of its last install. */
  function LedgerView(rs: seq<Record>): Option<Floor.View> {
    if LastInstalling(rs).None? || GenesisLogID(rs).None? then None
    else Some(Floor.View(GenesisLogID(rs).value, LastInstalling(rs).value.seqNo))
  }

  /** `readers` are the lock's shared holders that have not finished their pinned read. */
  datatype System = System(
    install: Install.System, floor: Floor.Floor, readers: map<Pid, Floor.Reader>, accepted: seq<Floor.View>)

  /** The floor's protocol as this system drives it. */
  function FloorOf(s: System): Floor.System {
    Floor.System(LedgerView(s.install.root.records), s.floor, s.readers, s.accepted)
  }

  /** Do is any step of the install protocol but a pinned execution, which here goes through the floor. */
  datatype Step =
    | Do(step: Install.Step)
    | Verify(pid: Pid, pub: string)
    | Judge(pid: Pid)
    | Look(pid: Pid)
    | WriteFloor(pid: Pid, ok: bool)
    | SpoilFloor
    | RemoveFloor
    | Swap(root: Install.Root)

  function FloorStep(step: Step): Floor.Step
    requires !step.Do? && !step.Swap?
  {
    match step
    case Verify(pid, _) => Floor.Verify(pid)
    case Judge(pid) => Floor.Judge(pid)
    case Look(pid) => Floor.Look(pid)
    case WriteFloor(pid, ok) => Floor.WriteFloor(pid, ok)
    case SpoilFloor => Floor.SpoilFloor
    case RemoveFloor => Floor.RemoveFloor
  }

  predicate IsPinned(step: Install.Step) { step.Execute? && step.pin.Some? }

  predicate Enabled(digest: Digest, s: System, step: Step) {
    && (step.Do? ==> Install.Enabled(digest, s.install, step.step) && !IsPinned(step.step))
    && (step.Swap? ==> s.install.procs == map[] && Chained(digest, step.root.records))
    && (step.Verify? ==> Install.Enabled(digest, s.install, Install.Execute(step.pid, Some(step.pub))))
    && (!step.Do? && !step.Swap? ==> Floor.Enabled(FloorOf(s), FloorStep(step)))
  }

  function ReadersAfter(readers: map<Pid, Floor.Reader>, step: Install.Step): map<Pid, Floor.Reader> {
    if step.EnterReader? then readers[step.pid := Floor.Entered]
    else if step.Leave? || step.Crash? then readers - {step.pid}
    else readers
  }

  function Effect(digest: Digest, s: System, step: Step): System
    requires Enabled(digest, s, step)
  {
    if step.Do? then
      s.(install := Install.Effect(digest, s.install, step.step), readers := ReadersAfter(s.readers, step.step))
    else if step.Swap? then s.(install := ControlRoot.Start(step.root))
    else
      var f := Floor.Effect(FloorOf(s), FloorStep(step));
      s.(floor := f.floor, readers := f.readers, accepted := f.accepted)
  }

  // ---------------------------------------------------------------- one window, one install

  /** While anyone reads, no step of any command changes what a pinned read would verify. */
  lemma WindowHoldsOneInstall(digest: Digest, s: Install.System, reader: Pid, step: Install.Step)
    requires Install.Inv(digest, s) && Install.Holds(s, reader, Install.Reading) && Install.Enabled(digest, s, step)
    ensures LedgerView(Install.Effect(digest, s, step).root.records) == LedgerView(s.root.records)
  {
    if step.Note? {
      LastInstallingOfAppend(s.root.records, NextRecord(digest, s.root.records, step.e, step.time, step.newID));
    } else {
      assert Install.Exclusive(s.procs);
    }
  }

  // ---------------------------------------------------------------- the invariant

  ghost predicate ReadersHold(s: System) {
    forall p :: p in s.readers ==> Install.Holds(s.install, p, Install.Reading)
  }

  ghost predicate Inv(digest: Digest, s: System) {
    Install.Inv(digest, s.install) && Floor.Inv(FloorOf(s)) && ReadersHold(s)
  }

  /** The step is a step of the floor's protocol that exchanges nothing inside a window, or none at all. */
  ghost predicate FloorFollows(f: Floor.System, f': Floor.System, step: Floor.Step) {
    Floor.Enabled(f, step) && (step.Exchange? ==> f.readers == map[]) && f' == Floor.Effect(f, step)
  }

  lemma StepKeepsReaders(digest: Digest, s: System, step: Install.Step)
    requires Install.Inv(digest, s.install) && ReadersHold(s) && Enabled(digest, s, Do(step))
    ensures ReadersHold(Effect(digest, s, Do(step)))
  {
    var s' := Effect(digest, s, Do(step));
    forall p | p in s'.readers ensures Install.Holds(s'.install, p, Install.Reading) {
      assert p in s.readers ==> Install.Holds(s.install, p, Install.Reading);
      assert Install.Exclusive(s.install.procs);
    }
  }

  lemma DoFollows(digest: Digest, s: System, step: Install.Step) returns (fs: Floor.Step)
    requires Install.Inv(digest, s.install) && ReadersHold(s) && Enabled(digest, s, Do(step))
    ensures FloorOf(Effect(digest, s, Do(step))) == FloorOf(s) ||
            FloorFollows(FloorOf(s), FloorOf(Effect(digest, s, Do(step))), fs)
    ensures !fs.RemoveFloor? && !fs.SpoilFloor?
  {
    var s' := Effect(digest, s, Do(step));
    fs := Floor.Exchange(LedgerView(s'.install.root.records));
    if step.EnterReader? {
      assert step.pid in s.readers ==> Install.Holds(s.install, step.pid, Install.Reading);
      fs := Floor.Enter(step.pid);
    } else if step.Leave? || step.Crash? {
      if step.pid in s.readers {
        fs := Floor.Leave(step.pid);
      } else {
        assert s'.readers == s.readers;
      }
    } else if p :| p in s.readers {
      WindowHoldsOneInstall(digest, s.install, p, step);
    }
  }

  lemma StepKeepsInv(digest: Digest, s: System, step: Step)
    requires Inv(digest, s) && Enabled(digest, s, step)
    ensures Inv(digest, Effect(digest, s, step))
    ensures !step.RemoveFloor? && !step.SpoilFloor? ==> Floor.Rises(s.floor, Effect(digest, s, step).floor)
  {
    var s' := Effect(digest, s, step);
    if step.Do? {
      Install.StepKeepsInv(digest, s.install, step.step);
      StepKeepsReaders(digest, s, step.step);
      var fs := DoFollows(digest, s, step.step);
      if FloorOf(s') != FloorOf(s) { Floor.StepKeepsInv(FloorOf(s), fs); }
    } else if step.Swap? {
      NobodyReads(s);
      ControlRoot.StartHolds(digest, step.root);
      Floor.StepKeepsInv(FloorOf(s), Floor.Exchange(LedgerView(step.root.records)));
    } else {
      Floor.StepKeepsInv(FloorOf(s), FloorStep(step));
      assert FloorOf(s') == Floor.Effect(FloorOf(s), FloorStep(step));
      assert forall p :: p in s'.readers ==> p in s.readers;
    }
  }

  lemma NobodyReads(s: System)
    requires ReadersHold(s) && s.install.procs == map[]
    ensures s.readers == map[]
  {
    forall p ensures p !in s.readers { assert p in s.readers ==> Install.Holds(s.install, p, Install.Reading); }
  }

  // ---------------------------------------------------------------- every run

  ghost predicate CanRun(digest: Digest, s: System, steps: seq<Step>)
    decreases |steps|
  {
    steps == [] || (Enabled(digest, s, steps[0]) && CanRun(digest, Effect(digest, s, steps[0]), steps[1..]))
  }

  ghost function Run(digest: Digest, s: System, steps: seq<Step>): System
    requires CanRun(digest, s, steps)
    decreases |steps|
  {
    if steps == [] then s else Run(digest, Effect(digest, s, steps[0]), steps[1..])
  }

  ghost predicate Undisturbed(steps: seq<Step>) {
    forall i :: 0 <= i < |steps| ==> !steps[i].RemoveFloor? && !steps[i].SpoilFloor?
  }

  lemma {:induction false} RunKeepsInv(digest: Digest, s: System, steps: seq<Step>)
    requires Inv(digest, s) && CanRun(digest, s, steps)
    ensures Inv(digest, Run(digest, s, steps))
    ensures Undisturbed(steps) ==> Floor.Rises(s.floor, Run(digest, s, steps).floor)
    decreases |steps|
  {
    if steps != [] {
      StepKeepsInv(digest, s, steps[0]);
      RunKeepsInv(digest, Effect(digest, s, steps[0]), steps[1..]);
    }
  }

  /** A root at rest, with whatever floor there is. */
  function Rest(root: Install.Root, floor: Floor.Floor): System {
    System(ControlRoot.Start(root), floor, map[], [])
  }

  /**
    Over every run of the install protocol, its readers, its crashes, and exchanges of the whole root
    between lock windows: no pinned read accepts an install older than or foreign to one accepted before
    it, until the floor is removed; and while nobody removes or spoils it the floor only rises.
   */
  lemma PinnedReadsNeverGoBack(digest: Digest, root: Install.Root, floor: Floor.Floor, steps: seq<Step>)
    requires Chained(digest, root.records) && CanRun(digest, Rest(root, floor), steps)
    ensures Floor.Monotone(Run(digest, Rest(root, floor), steps).accepted)
    ensures Undisturbed(steps) ==> Floor.Rises(floor, Run(digest, Rest(root, floor), steps).floor)
  {
    ControlRoot.StartHolds(digest, root);
    RunKeepsInv(digest, Rest(root, floor), steps);
  }
}
