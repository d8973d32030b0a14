/**
  Install, record, vouch, sign, execute (cmd/agenthof/apply.go, main.go, config_vouch.go,
  signing.go, verify.go; internal/config/installed.go).

  A control root holds the installed pointer, the content-addressed snapshots, the control
  ledger and the signatures. Processes act on it under installed.lock: pointer writers hold it
  exclusively through commit, record and sign, execution reads hold it shared, and other
  commands append their non-installing records under no lock. Any process may stop anywhere.
 */
module InstallProtocol {
  import opened Prelude
  import opened ControlLog

  // ---------------------------------------------------------------- the root

  /** A parsed installed/<hex>.sig. `signer` is the key whose signature the trailer carries, over these fields. */
  datatype SigFile = SigFile(hash: string, logID: string, version: int, at: int, keyID: string, signer: string)

  /**
    pointer    installed/current
    store      what the bytes under each snapshot's name hash as now
    records    the verified records of the control ledger
    torn       the ledger ends in an unreadable tail: nothing reads or appends until it is repaired
    sigs       installed/<hex>.sig, by hash
    key        the signing key, when one is configured
   */
  datatype Root = Root(
    pointer: Option<string>, store: map<string, string>,
    records: seq<Record>, torn: bool,
    sigs: map<string, SigFile>, key: Option<string>)

  /** The one vouch: the last install the ledger records is this hash. */
  predicate Vouches(rs: seq<Record>, hash: string) {
    LastInstalling(rs).Some? && LastInstalling(rs).value.event.value.configHash == hash
  }

  predicate BytesMatch(root: Root, hash: string) {
    hash in root.store && root.store[hash] == hash
  }

  /** The authorization read: nothing installed, or bytes = pointer = last recorded install. */
  predicate OnRecord(root: Root) {
    root.pointer.None? ||
    (!root.torn && BytesMatch(root, root.pointer.value) && Vouches(root.records, root.pointer.value))
  }

  // ---------------------------------------------------------------- the signature

  datatype SigVerdict = Good | Absent | UnknownKey | Foreign | Newer | Older | Bad

  /** Is the .sig beside the snapshot the signature, by pub, of this install? */
  function VerifySignature(
    sigs: map<string, SigFile>, hash: string, logID: string, version: int, at: int, pub: string): (v: SigVerdict)
    ensures v == Good <==> hash in sigs && sigs[hash] == SigFile(hash, logID, version, at, pub, pub)
    ensures v == Bad <==>
              && hash in sigs && sigs[hash].signer != pub
              && sigs[hash] == SigFile(hash, logID, version, at, pub, sigs[hash].signer)
    ensures v == Absent <==> hash !in sigs
    ensures v == UnknownKey <==> hash in sigs && sigs[hash].keyID != pub
    ensures v == Foreign <==>
              hash in sigs && sigs[hash].keyID == pub && (sigs[hash].hash != hash || sigs[hash].logID != logID)
    ensures v == Newer <==>
              && hash in sigs && sigs[hash].keyID == pub && sigs[hash].hash == hash && sigs[hash].logID == logID
              && sigs[hash].version > version
  {
    if hash !in sigs then Absent
    else
      var f := sigs[hash];
      if f.keyID != pub then UnknownKey
      else if f.hash != hash || f.logID != logID then Foreign
      else if f.version > version then Newer
      else if f.version < version || f.at != at then Older
      else if f.signer != pub then Bad
      else Good
  }

  /** The pinned read: the vouched install, judged against its signature. */
  function SignatureOf(root: Root, pub: string): SigVerdict
    requires root.pointer.Some? && Vouches(root.records, root.pointer.value) && GenesisLogID(root.records).Some?
  {
    var last := LastInstalling(root.records).value;
    VerifySignature(root.sigs, root.pointer.value, GenesisLogID(root.records).value, last.seqNo, last.time, pub)
  }

  /** What signing writes: the ledger's own account of its last install. */
  function SignedNow(root: Root): SigFile
    requires root.pointer.Some? && Vouches(root.records, root.pointer.value)
    requires GenesisLogID(root.records).Some? && root.key.Some?
  {
    var last := LastInstalling(root.records).value;
    SigFile(root.pointer.value, GenesisLogID(root.records).value, last.seqNo, last.time, root.key.value, root.key.value)
  }

  predicate CanSign(root: Root) {
    && root.key.Some? && root.pointer.Some? && !root.torn
    && Vouches(root.records, root.pointer.value) && GenesisLogID(root.records).Some?
  }

  // ---------------------------------------------------------------- processes and steps

  type Pid = nat

  datatype Op = Install(action: Action) | VouchOp | SignOp

  /** Where a lock holder is. Reading is a shared holder; every other stage holds the lock exclusively. */
  datatype Stage =
    | Deciding(op: Op)
    | Approved(op: Op, hash: string)
    | Committed(op: Op, hash: string)
    | Recorded(hash: string)
    | Reading

  /**
    procs      the lock holders
    history    every value a commit has given the pointer, in order
    executed   every hash a read has executed, in order
    gap        a commit of a hash the ledger does not vouch for lost its record, and nothing has vouched since
    lossless   no commit's record was ever lost
   */
  datatype System = System(
    root: Root, procs: map<Pid, Stage>,
    history: seq<string>, executed: seq<string>,
    gap: bool, lossless: bool)

  /** What a failed append leaves: nothing, an unreadable tail, or the whole line unconfirmed. */
  datatype Remains = Nothing | TornTail | WholeLine

  /**
    Shelve is a commit that fails after the snapshot has its name and before the pointer moves: an inert
    snapshot stays. Mend is the repair of a torn tail, which keeps every verified record; the repair that
    also moves records after a seal line aside is not one of these steps.
   */
  datatype Step =
    | EnterWriter(pid: Pid, op: Op)
    | EnterReader(pid: Pid)
    | Approve(pid: Pid, hash: string)
    | Commit(pid: Pid)
    | Shelve(pid: Pid)
    | AppendRecord(pid: Pid, time: int, newID: string)
    | LoseRecord(pid: Pid, remains: Remains, time: int, newID: string)
    | Sign(pid: Pid)
    | Execute(pid: Pid, pin: Option<string>)
    | Leave(pid: Pid)
    | Crash(pid: Pid)
    | Note(e: Event, time: int, newID: string)
    | Tear
    | Mend(fragment: Fragment, time: int)
    | Tamper(hash: string, bytes: string)
    | RemovePointer

  predicate Holds(s: System, pid: Pid, stage: Stage) {
    pid in s.procs && s.procs[pid] == stage
  }

  function InstallEvent(op: Op, hash: string): Event
    requires op != SignOp
  {
    Event(if op.Install? then op.action else Vouch, Success, true, hash, false, None, None)
  }

  const REPAIR := (f: Fragment) => Event(Repairing, Success, true, "", false, None, Some(f))

  predicate IsInstaller(action: Action) { action == Apply || action == Enable || action == Disable }

  predicate OwesRecord(stage: Stage) {
    (stage.Committed? && stage.op.Install?) || (stage.Approved? && stage.op == VouchOp)
  }

  predicate Enabled(digest: Digest, s: System, step: Step) {
    match step
    case EnterWriter(pid, op) => s.procs == map[] && (op.Install? ==> IsInstaller(op.action))
    case EnterReader(pid) => pid !in s.procs && forall p :: p in s.procs ==> s.procs[p] == Reading
    case Approve(pid, hash) =>
      && pid in s.procs && s.procs[pid].Deciding?
      && hash != ""
      && (match s.procs[pid].op
          case Install(action) => OnRecord(s.root) && (action != Apply ==> s.root.pointer.Some?)
          case VouchOp =>
            s.root.pointer == Some(hash) && !s.root.torn && BytesMatch(s.root, hash) && !Vouches(s.root.records, hash)
          case SignOp => false)
    case Commit(pid) =>
      && pid in s.procs && s.procs[pid].Approved? && s.procs[pid].op.Install?
      && (s.procs[pid].hash in s.root.store ==> BytesMatch(s.root, s.procs[pid].hash))
    case Shelve(pid) =>
      && pid in s.procs && s.procs[pid].Approved? && s.procs[pid].op.Install?
      && (s.procs[pid].hash in s.root.store ==> BytesMatch(s.root, s.procs[pid].hash))
    case AppendRecord(pid, _, _) => pid in s.procs && OwesRecord(s.procs[pid]) && !s.root.torn
    case LoseRecord(pid, remains, _, _) =>
      pid in s.procs && OwesRecord(s.procs[pid]) && (s.root.torn ==> remains == Nothing)
    case Sign(pid) =>
      pid in s.procs && (s.procs[pid].Recorded? || s.procs[pid] == Deciding(SignOp)) && CanSign(s.root)
    case Execute(pid, pin) =>
      && Holds(s, pid, Reading) && s.root.pointer.Some? && OnRecord(s.root)
      && (pin.Some? ==> GenesisLogID(s.root.records).Some? && SignatureOf(s.root, pin.value) == Good)
    case Leave(pid) => pid in s.procs && !s.procs[pid].Committed?
    case Crash(pid) => pid in s.procs
    case Note(e, time, newID) => !s.root.torn && !Installing(NextRecord(digest, s.root.records, e, time, newID))
    case Tear => !s.root.torn
    case Mend(_, _) => s.root.torn && s.procs == map[]
    case Tamper(_, _) => true
    case RemovePointer => s.procs == map[]
  }

  function AppendTo(digest: Digest, root: Root, e: Event, time: int, newID: string): Root {
    root.(records := root.records + [NextRecord(digest, root.records, e, time, newID)])
  }

  function Drop(s: System, pid: Pid): System { s.(procs := s.procs - {pid}) }

  /** A process stops; a commit whose record it owed is now unrecorded. */
  function Lose(s: System, pid: Pid): System
    requires pid in s.procs
  {
    if s.procs[pid].Committed? then
      Drop(s, pid).(gap := s.gap || !Vouches(s.root.records, s.procs[pid].hash), lossless := false)
    else Drop(s, pid)
  }

  function Effect(digest: Digest, s: System, step: Step): System
    requires Enabled(digest, s, step)
  {
    match step
    case EnterWriter(pid, op) => s.(procs := s.procs[pid := Deciding(op)])
    case EnterReader(pid) => s.(procs := s.procs[pid := Reading])
    case Approve(pid, hash) => s.(procs := s.procs[pid := Approved(s.procs[pid].op, hash)])
    case Commit(pid) =>
      var h := s.procs[pid].hash;
      s.(root := s.root.(pointer := Some(h), store := s.root.store[h := h]),
         procs := s.procs[pid := Committed(s.procs[pid].op, h)],
         history := s.history + [h])
    case Shelve(pid) =>
      var h := s.procs[pid].hash;
      Drop(s, pid).(root := s.root.(store := s.root.store[h := h]))
    case AppendRecord(pid, time, newID) =>
      var st := s.procs[pid];
      s.(root := AppendTo(digest, s.root, InstallEvent(st.op, st.hash), time, newID),
         procs := s.procs[pid := Recorded(st.hash)],
         gap := s.gap && st.op != VouchOp)
    case LoseRecord(pid, remains, time, newID) =>
      var st := s.procs[pid];
      (match remains
       case Nothing => Lose(s, pid)
       case TornTail => Lose(s, pid).(root := s.root.(torn := true))
       case WholeLine =>
         Drop(s, pid).(root := AppendTo(digest, s.root, InstallEvent(st.op, st.hash), time, newID),
                       gap := s.gap && st.op != VouchOp))
    case Sign(pid) => Drop(s, pid).(root := s.root.(sigs := s.root.sigs[s.root.pointer.value := SignedNow(s.root)]))
    case Execute(pid, pin) => s.(executed := s.executed + [s.root.pointer.value])
    case Leave(pid) => Drop(s, pid)
    case Crash(pid) => Lose(s, pid)
    case Note(e, time, newID) => s.(root := AppendTo(digest, s.root, e, time, newID))
    case Tear => s.(root := s.root.(torn := true))
    case Mend(f, time) => s.(root := AppendTo(digest, s.root.(torn := false), REPAIR(f), time, ""))
    case Tamper(hash, bytes) => s.(root := s.root.(store := s.root.store[hash := bytes]))
    case RemovePointer => s.(root := s.root.(pointer := None), gap := false)
  }

  // ---------------------------------------------------------------- runs

  /** Every step of the run is enabled where it is taken. */
  predicate CanRun(digest: Digest, s: System, steps: seq<Step>)
    decreases |steps|
  {
    steps == [] || (Enabled(digest, s, steps[0]) && CanRun(digest, Effect(digest, s, steps[0]), steps[1..]))
  }

  function Run(digest: Digest, s: System, steps: seq<Step>): System
    requires CanRun(digest, s, steps)
    decreases |steps|
  {
    if steps == [] then s else Run(digest, Effect(digest, s, steps[0]), steps[1..])
  }

  // ---------------------------------------------------------------- the invariant

  /** The hashes the ledger says were installed, in ledger order. */
  function Installs(rs: seq<Record>): seq<string> {
    if rs == [] then []
    else Installs(rs[..|rs| - 1]) +
         if Installing(rs[|rs| - 1]) then [rs[|rs| - 1].event.value.configHash] else []
  }

  lemma InstallsOfAppend(rs: seq<Record>, r: Record)
    ensures Installs(rs + [r]) == Installs(rs) + if Installing(r) then [r.event.value.configHash] else []
  {
    assert (rs + [r])[..|rs|] == rs;
  }

  predicate Exclusive(procs: map<Pid, Stage>) {
    forall p, q :: p in procs && q in procs && p != q ==> procs[p] == Reading && procs[q] == Reading
  }

  /** Does some process owe the record of a commit? */
  predicate MidInstall(s: System) {
    exists p :: p in s.procs && s.procs[p].Committed?
  }

  predicate PointerVouched(root: Root) {
    root.pointer.None? || Vouches(root.records, root.pointer.value)
  }

  predicate StageOk(s: System, stage: Stage) {
    match stage
    case Approved(Install(_), hash) => PointerVouched(s.root) && hash != ""
    case Approved(VouchOp, hash) => s.root.pointer == Some(hash) && !Vouches(s.root.records, hash) && hash != ""
    case Approved(SignOp, _) => false
    case Committed(op, hash) => op.Install? && s.root.pointer == Some(hash) && hash != "" && !s.gap
    case Recorded(hash) => s.root.pointer == Some(hash) && Vouches(s.root.records, hash)
    case _ => true
  }

  predicate OpOk(stage: Stage) {
    (stage.Deciding? || stage.Approved? || stage.Committed?) && stage.op.Install? ==> IsInstaller(stage.op.action)
  }

  /** The history, but for the record a process in mid-install still owes. */
  predicate HistoryKept(s: System) {
    s.lossless ==>
      if MidInstall(s) then s.history != [] && s.history[..|s.history| - 1] == Installs(s.root.records) &&
        Some(s.history[|s.history| - 1]) == s.root.pointer
      else s.history == Installs(s.root.records)
  }

  ghost predicate Inv(digest: Digest, s: System) {
    && Chained(digest, s.root.records)
    && Exclusive(s.procs)
    && (forall p :: p in s.procs ==> StageOk(s, s.procs[p]) && OpOk(s.procs[p]))
    && (!MidInstall(s) ==> (PointerVouched(s.root) <==> !s.gap))
    && (s.lossless ==> !s.gap)
    && HistoryKept(s)
  }

  lemma AppendKeepsChain(digest: Digest, root: Root, e: Event, time: int, newID: string)
    requires Chained(digest, root.records)
    ensures var root' := AppendTo(digest, root, e, time, newID);
            && Chained(digest, root'.records)
            && (forall h :: Vouches(root'.records, h) <==>
                  if Installing(root'.records[|root.records|]) then h == e.configHash else Vouches(root.records, h))
            && Installs(root'.records) ==
                 Installs(root.records) + if Installing(root'.records[|root.records|]) then [e.configHash] else []
  {
    var r := NextRecord(digest, root.records, e, time, newID);
    ChainedExtends(digest, root.records, r);
    LastInstallingOfAppend(root.records, r);
    InstallsOfAppend(root.records, r);
  }

  lemma NotMidInstallAlone(s: System, pid: Pid)
    requires Exclusive(s.procs) && pid in s.procs
    ensures s.procs[pid] != Reading ==> (MidInstall(s) <==> s.procs[pid].Committed?)
    ensures s.procs[pid] == Reading ==> !MidInstall(s)
    ensures s.procs[pid] != Reading ==> s.procs == map[pid := s.procs[pid]]
  {
  }

  lemma EntryKeepsInv(digest: Digest, s: System, step: Step)
    requires Inv(digest, s) && Enabled(digest, s, step)
    requires step.EnterWriter? || step.EnterReader? || step.Approve? || step.Execute? || step.RemovePointer?
    ensures Inv(digest, Effect(digest, s, step))
  {
    var s' := Effect(digest, s, step);
    if step.Approve? || step.Execute? { NotMidInstallAlone(s, step.pid); }
    assert !MidInstall(s) && !MidInstall(s');
  }

  lemma CommitKeepsInv(digest: Digest, s: System, step: Step)
    requires Inv(digest, s) && Enabled(digest, s, step) && step.Commit?
    ensures Inv(digest, Effect(digest, s, step))
  {
    var s' := Effect(digest, s, step);
    NotMidInstallAlone(s, step.pid);
    assert s'.procs[step.pid].Committed?;
    assert s'.history[..|s'.history| - 1] == s.history;
  }

  /** The record a process owes completes the history and vouches for the pointer. */
  lemma RecordCompletes(digest: Digest, s: System, pid: Pid, time: int, newID: string)
    requires Inv(digest, s) && pid in s.procs && OwesRecord(s.procs[pid]) && s.procs[pid] != Reading
    ensures var st := s.procs[pid];
            var root := AppendTo(digest, s.root, InstallEvent(st.op, st.hash), time, newID);
            && Chained(digest, root.records) && root.pointer == Some(st.hash) && Vouches(root.records, st.hash)
            && (s.lossless ==> st.Committed? && s.history == Installs(root.records))
  {
    var st := s.procs[pid];
    NotMidInstallAlone(s, pid);
    assert StageOk(s, st) && OpOk(st);
    AppendKeepsChain(digest, s.root, InstallEvent(st.op, st.hash), time, newID);
    if s.history != [] {
      assert s.history == s.history[..|s.history| - 1] + [s.history[|s.history| - 1]];
    }
  }

  lemma RecordKeepsInv(digest: Digest, s: System, step: Step)
    requires Inv(digest, s) && Enabled(digest, s, step) && step.AppendRecord?
    ensures Inv(digest, Effect(digest, s, step))
  {
    var s', st := Effect(digest, s, step), s.procs[step.pid];
    NotMidInstallAlone(s, step.pid);
    assert StageOk(s, st);
    RecordCompletes(digest, s, step.pid, step.time, step.newID);
    assert s'.procs == map[step.pid := Recorded(st.hash)];
    assert !MidInstall(s');
  }

  lemma LoseRecordKeepsInv(digest: Digest, s: System, step: Step)
    requires Inv(digest, s) && Enabled(digest, s, step) && step.LoseRecord?
    ensures Inv(digest, Effect(digest, s, step))
  {
    var s' := Effect(digest, s, step);
    NotMidInstallAlone(s, step.pid);
    assert s'.procs == map[];
    if step.remains == WholeLine {
      var rec := AppendRecord(step.pid, step.time, step.newID);
      RecordKeepsInv(digest, s, rec);
      var done := Effect(digest, s, rec);
      assert s' == done.(procs := map[]) && !MidInstall(done) && !MidInstall(s');
    } else {
      assert !MidInstall(s');
    }
  }

  lemma ExitKeepsInv(digest: Digest, s: System, step: Step)
    requires Inv(digest, s) && Enabled(digest, s, step) && (step.Shelve? || step.Sign? || step.Leave? || step.Crash?)
    ensures Inv(digest, Effect(digest, s, step))
  {
    NotMidInstallAlone(s, step.pid);
    assert !MidInstall(Effect(digest, s, step));
  }

  lemma OutsideKeepsInv(digest: Digest, s: System, step: Step)
    requires Inv(digest, s) && Enabled(digest, s, step) && (step.Note? || step.Tear? || step.Mend? || step.Tamper?)
    ensures Inv(digest, Effect(digest, s, step))
  {
    var s' := Effect(digest, s, step);
    if step.Note? {
      AppendKeepsChain(digest, s.root, step.e, step.time, step.newID);
    } else if step.Mend? {
      AppendKeepsChain(digest, s.root.(torn := false), REPAIR(step.fragment), step.time, "");
    }
    assert s'.procs == s.procs;
    assert MidInstall(s') <==> MidInstall(s);
    forall p | p in s'.procs ensures StageOk(s', s'.procs[p]) {
      assert StageOk(s, s.procs[p]);
    }
  }

  lemma StepKeepsInv(digest: Digest, s: System, step: Step)
    requires Inv(digest, s) && Enabled(digest, s, step)
    ensures Inv(digest, Effect(digest, s, step))
  {
    match step
    case Commit(_) => CommitKeepsInv(digest, s, step);
    case AppendRecord(_, _, _) => RecordKeepsInv(digest, s, step);
    case LoseRecord(_, _, _, _) => LoseRecordKeepsInv(digest, s, step);
    case Shelve(_) => ExitKeepsInv(digest, s, step);
    case Sign(_) => ExitKeepsInv(digest, s, step);
    case Leave(_) => ExitKeepsInv(digest, s, step);
    case Crash(_) => ExitKeepsInv(digest, s, step);
    case Note(_, _, _) => OutsideKeepsInv(digest, s, step);
    case Tear => OutsideKeepsInv(digest, s, step);
    case Mend(_, _) => OutsideKeepsInv(digest, s, step);
    case Tamper(_, _) => OutsideKeepsInv(digest, s, step);
    case _ => EntryKeepsInv(digest, s, step);
  }

  lemma {:induction false} RunKeepsInv(digest: Digest, s: System, steps: seq<Step>)
    requires Inv(digest, s) && CanRun(digest, s, steps)
    ensures Inv(digest, Run(digest, s, steps))
    decreases |steps|
  {
    if steps != [] {
      StepKeepsInv(digest, s, steps[0]);
      RunKeepsInv(digest, Effect(digest, s, steps[0]), steps[1..]);
    }
  }

  // ---------------------------------------------------------------- what a lock holder sees

  /** A step that can lose the record of a commit. */
  predicate IsLoss(step: Step) { step.Crash? || (step.LoseRecord? && step.remains != WholeLine) }

  lemma {:induction false} GapHasACause(digest: Digest, s: System, steps: seq<Step>)
    requires CanRun(digest, s, steps) && !s.gap && Run(digest, s, steps).gap
    ensures exists i :: 0 <= i < |steps| && IsLoss(steps[i])
    decreases |steps|
  {
    var s' := Effect(digest, s, steps[0]);
    if s'.gap {
      assert IsLoss(steps[0]);
    } else {
      GapHasACause(digest, s', steps[1..]);
      var i :| 0 <= i < |steps[1..]| && IsLoss(steps[1..][i]);
      assert steps[i + 1] == steps[1..][i];
    }
  }

  lemma {:induction false} LossHasACause(digest: Digest, s: System, steps: seq<Step>)
    requires CanRun(digest, s, steps) && s.lossless && !Run(digest, s, steps).lossless
    ensures exists i :: 0 <= i < |steps| && IsLoss(steps[i])
    decreases |steps|
  {
    var s' := Effect(digest, s, steps[0]);
    if !s'.lossless {
      assert IsLoss(steps[0]);
    } else {
      LossHasACause(digest, s', steps[1..]);
      var i :| 0 <= i < |steps[1..]| && IsLoss(steps[1..][i]);
      assert steps[i + 1] == steps[1..][i];
    }
  }

  /**
    Over every run: a reader under the shared lock sees a pointer that is the last recorded
    install, or no pointer, exactly when no lost record is still unvouched; and while no record
    has been lost, the installs in ledger order are exactly the values the pointer has had.
   */
  lemma ReadersSeeTheRecordedInstall(digest: Digest, s: System, steps: seq<Step>, reader: Pid)
    requires Inv(digest, s) && CanRun(digest, s, steps)
    requires Holds(Run(digest, s, steps), reader, Reading)
    ensures var s' := Run(digest, s, steps);
            && (PointerVouched(s'.root) <==> !s'.gap)
            && (s'.lossless ==> s'.history == Installs(s'.root.records))
            && (s'.gap && !s.gap ==> exists i :: 0 <= i < |steps| && IsLoss(steps[i]))
            && (!s'.lossless && s.lossless ==> exists i :: 0 <= i < |steps| && IsLoss(steps[i]))
  {
    RunKeepsInv(digest, s, steps);
    var s' := Run(digest, s, steps);
    NotMidInstallAlone(s', reader);
    if s'.gap && !s.gap { GapHasACause(digest, s, steps); }
    if !s'.lossless && s.lossless { LossHasACause(digest, s, steps); }
  }

  // ---------------------------------------------------------------- the gap is absorbing

  /** The pointer is not the last recorded install, and no installer is past its checks. */
  predicate GapState(s: System) {
    && s.root.pointer.Some? && !Vouches(s.root.records, s.root.pointer.value)
    && forall p :: p in s.procs ==>
         s.procs[p].Deciding? || s.procs[p] == Reading || (s.procs[p].Approved? && s.procs[p].op == VouchOp)
  }

  /** The two ways out: a vouch reaches the ledger, or the operator removes the pointer. */
  predicate Heals(s: System, step: Step) {
    || step.RemovePointer?
    || ((step.AppendRecord? || (step.LoseRecord? && step.remains == WholeLine)) &&
        step.pid in s.procs && s.procs[step.pid].Approved? && s.procs[step.pid].op == VouchOp)
  }

  predicate NeverHeals(digest: Digest, s: System, steps: seq<Step>)
    requires CanRun(digest, s, steps)
    decreases |steps|
  {
    steps == [] || (!Heals(s, steps[0]) && NeverHeals(digest, Effect(digest, s, steps[0]), steps[1..]))
  }

  /** Nothing was installed, signed or executed between two systems. */
  predicate Inert(s: System, s': System) {
    && s'.root.pointer == s.root.pointer && s'.history == s.history
    && Installs(s'.root.records) == Installs(s.root.records)
    && s'.root.sigs == s.root.sigs
    && s'.executed == s.executed
  }

  lemma GapStep(digest: Digest, s: System, step: Step)
    requires Chained(digest, s.root.records) && GapState(s) && Enabled(digest, s, step) && !Heals(s, step)
    ensures var s' := Effect(digest, s, step); Chained(digest, s'.root.records) && GapState(s') && Inert(s, s')
  {
    if step.Note? {
      AppendKeepsChain(digest, s.root, step.e, step.time, step.newID);
    } else if step.Mend? {
      AppendKeepsChain(digest, s.root.(torn := false), REPAIR(step.fragment), step.time, "");
    }
  }

  /** From a gap, no run executes, installs or signs anything until a vouch is recorded or the pointer is removed. */
  lemma {:induction false} GapAbsorbs(digest: Digest, s: System, steps: seq<Step>)
    requires Chained(digest, s.root.records) && GapState(s)
    requires CanRun(digest, s, steps) && NeverHeals(digest, s, steps)
    ensures GapState(Run(digest, s, steps)) && Inert(s, Run(digest, s, steps))
    decreases |steps|
  {
    if steps != [] {
      GapStep(digest, s, steps[0]);
      GapAbsorbs(digest, Effect(digest, s, steps[0]), steps[1..]);
    }
  }

  // ---------------------------------------------------------------- a signature and its install

  lemma {:induction false} RecordsGrow(digest: Digest, s: System, steps: seq<Step>)
    requires CanRun(digest, s, steps)
    ensures s.root.records <= Run(digest, s, steps).root.records
    decreases |steps|
  {
    if steps != [] {
      RecordsGrow(digest, Effect(digest, s, steps[0]), steps[1..]);
    }
  }

  predicate NoInstallAfter(rs: seq<Record>, n: nat)
    requires n <= |rs|
  {
    forall i :: n <= i < |rs| ==> !Installing(rs[i])
  }

  /** The last install's position moves exactly when something is installed. */
  lemma {:induction false} VersionFollowsInstalls(digest: Digest, rs: seq<Record>, n: nat)
    requires Chained(digest, rs) && n <= |rs| && LastInstalling(rs[..n]).Some?
    ensures LastInstalling(rs).Some?
    ensures NoInstallAfter(rs, n) ==> LastInstalling(rs) == LastInstalling(rs[..n])
    ensures !NoInstallAfter(rs, n) ==> LastInstalling(rs).value.seqNo > n
    ensures LastInstalling(rs[..n]).value.seqNo <= n
    decreases |rs|
  {
    if n == |rs| {
      assert rs[..n] == rs;
      if !Installing(rs[n - 1]) {
        ChainedPrefix(digest, rs, n - 1);
        assert rs[..n - 1][..n - 1] == rs[..n - 1];
        VersionFollowsInstalls(digest, rs[..n - 1], n - 1);
      } else {
        assert LinkOk(digest, rs, n - 1);
      }
    } else {
      var m := |rs| - 1;
      ChainedPrefix(digest, rs, m);
      assert rs[..m][..n] == rs[..n];
      VersionFollowsInstalls(digest, rs[..m], n);
      assert LinkOk(digest, rs, m);
      assert NoInstallAfter(rs, n) <==> NoInstallAfter(rs[..m], n) && !Installing(rs[m]);
    }
  }

  lemma ChainedPrefix(digest: Digest, rs: seq<Record>, n: nat)
    requires Chained(digest, rs) && n <= |rs|
    ensures Chained(digest, rs[..n])
  {
    forall i | 0 <= i < n ensures LinkOk(digest, rs[..n], i) {
      assert LinkOk(digest, rs, i);
    }
  }

  /**
    A signature, once written, is good for exactly the install it was made for: over every later
    run in which that file is not rewritten, whenever its hash is the installed one again it verifies
    under its own key if and only if nothing has been installed since; after a re-apply of the same
    bytes, or a flip back to them, it is an older install's.
   */
  lemma SignatureIsForOneInstall(digest: Digest, s: System, signer: Pid, steps: seq<Step>, pub: string)
    requires Inv(digest, s) && Enabled(digest, s, Sign(signer))
    requires CanRun(digest, Effect(digest, s, Sign(signer)), steps)
    requires var s' := Run(digest, Effect(digest, s, Sign(signer)), steps);
             && s'.root.pointer == s.root.pointer && Vouches(s'.root.records, s.root.pointer.value)
             && s.root.pointer.value in s'.root.sigs && s'.root.sigs[s.root.pointer.value] == SignedNow(s.root)
    ensures var s' := Run(digest, Effect(digest, s, Sign(signer)), steps);
            && s.root.records <= s'.root.records && GenesisLogID(s'.root.records).Some?
            && (SignatureOf(s'.root, pub) == Good <==>
                  Some(pub) == s.root.key && NoInstallAfter(s'.root.records, |s.root.records|))
            && (Some(pub) == s.root.key && !NoInstallAfter(s'.root.records, |s.root.records|) ==>
                  SignatureOf(s'.root, pub) == Older)
  {
    var s1 := Effect(digest, s, Sign(signer));
    var s' := Run(digest, s1, steps);
    StepKeepsInv(digest, s, Sign(signer));
    RunKeepsInv(digest, s1, steps);
    RecordsGrow(digest, s1, steps);
    assert s'.root.records[..|s.root.records|] == s.root.records;
    VersionFollowsInstalls(digest, s'.root.records, |s.root.records|);
  }

  // ---------------------------------------------------------------- composing runs

  /** One more step at the end of a run. */
  lemma {:induction false} RunExtends(digest: Digest, s: System, steps: seq<Step>, step: Step)
    requires CanRun(digest, s, steps) && Enabled(digest, Run(digest, s, steps), step)
    ensures CanRun(digest, s, steps + [step])
    ensures Run(digest, s, steps + [step]) == Effect(digest, Run(digest, s, steps), step)
    decreases |steps|
  {
    if steps == [] {
      assert (steps + [step])[1..] == [];
    } else {
      RunExtends(digest, Effect(digest, s, steps[0]), steps[1..], step);
      assert (steps + [step])[1..] == steps[1..] + [step];
    }
  }
}
