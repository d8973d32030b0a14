/**
  The control commands as the program runs them, one after another on a control root: apply,
  the kill switch, config vouch, config sign and the execution read. What the world answers
  (locks, file writes, the proposal) comes in as parameters; each command's effect on the root
  is shown to be a run of the protocol's steps (`Leads`).
 */
module ControlRoot {
  import opened Prelude
  import opened Text
  import opened ControlLog
  import opened InstallProtocol
  import FloorProtocol

  datatype LockAnswer = Taken | HeldElsewhere | LockFault

  datatype AppendAnswer = Written | NotConfirmed(remains: Remains)

  /** How far a commit gets: to the pointer, to the snapshot's name only, or nowhere. */
  datatype CommitAnswer = PointerMoved | SnapshotOnly | NothingMoved

  datatype Writable = CanWrite | WriterBusy | SealedNotRotated

  /** The proposal's own hash, its staged copy's, whether it loads and validates, and whether the two must agree. */
  datatype Proposal = Proposal(hash: Result<string>, staged: Result<string>, acceptable: bool, mustMatch: bool)

  /** A compare-and-swap on the pointer: None is "nothing installed". */
  datatype Expectation = Expectation(installed: Option<string>)

  datatype Request = Request(
    proposal: Proposal, authorized: bool, precondition: Option<Expectation>, allowBootstrap: bool)

  datatype World = World(
    writable: Writable, lock: LockAnswer, rolesReadable: bool, ledgerBusy: bool,
    commit: CommitAnswer, note: AppendAnswer, record: AppendAnswer, signs: bool, time: int, newID: string)

  datatype Outcome =
    | Installed | InstalledNotSigned | InstalledNotRecorded
    | RefusedAndRecorded | RejectedAndRecorded | FailedAndRecorded | AppendFailed
    | Busy | Damaged | RotationIncomplete | PreconditionFailed | NothingToDo
    | DirectoryFlipped | DirectoryFlippedNotRecorded

  predicate Unrecorded(o: Outcome) {
    o == Busy || o == Damaged || o == RotationIncomplete || o == PreconditionFailed || o == NothingToDo
  }

  predicate Denied(o: Outcome) {
    o == RefusedAndRecorded || o == RejectedAndRecorded || o == FailedAndRecorded || o == AppendFailed
  }

  datatype SignOutcome = Signed | AlreadySigned | NotSigned

  datatype VouchVerdict = VouchedFor | NotOnRecord | NotVerifiable | LedgerBusy

  /** Nothing was moved or recorded: pointer, snapshots, signatures and recorded installs are as they were. */
  predicate Untouched(a: Root, b: Root) {
    && b.pointer == a.pointer && b.sigs == a.sigs && b.key == a.key
    && (forall h :: h in a.store ==> h in b.store && b.store[h] == a.store[h])
    && Installs(b.records) == Installs(a.records) && a.records <= b.records
  }

  /** The install of hash went through to its record. */
  predicate InstalledAs(a: Root, b: Root, hash: string) {
    && b.pointer == Some(hash) && BytesMatch(b, hash) && Vouches(b.records, hash)
    && Installs(b.records) == Installs(a.records) + [hash] && b.key == a.key
  }

  predicate Moved(o: Outcome) {
    o == Installed || o == InstalledNotSigned || o == InstalledNotRecorded
  }

  /** The installed pointer is vouched for, and carries a good signature of that install by pub. */
  predicate SignedFor(root: Root, pub: string) {
    && root.pointer.Some? && Vouches(root.records, root.pointer.value) && GenesisLogID(root.records).Some?
    && SignatureOf(root, pub) == Good
  }

  /** What apply demands of the request, given the root it found under the lock. */
  predicate MayInstall(req: Request, root: Root) {
    && (if root.pointer.Some? then req.authorized else req.allowBootstrap)
    && (req.precondition.Some? ==> req.precondition.value.installed == root.pointer)
    && req.proposal.staged.Ok? && req.proposal.staged.value != "" && req.proposal.acceptable
    && (req.proposal.mustMatch ==> req.proposal.hash == req.proposal.staged)
  }

  // ---------------------------------------------------------------- commands are runs of the protocol

  /** A root with nobody at work on it. */
  function Start(root: Root): System {
    System(root, map[], Installs(root.records), [], !PointerVouched(root), PointerVouched(root))
  }

  lemma StartHolds(digest: Digest, root: Root)
    requires Chained(digest, root.records)
    ensures Inv(digest, Start(root))
  {
    assert !MidInstall(Start(root));
  }

  /** Some run of the protocol from root a, at rest, ends at rest with root b. */
  ghost predicate Leads(digest: Digest, a: Root, b: Root) {
    exists steps :: CanRun(digest, Start(a), steps) && Run(digest, Start(a), steps).root == b &&
                    Run(digest, Start(a), steps).procs == map[]
  }

  /** The root after a commit, after its record, after its signature. */
  function Committing(root: Root, hash: string): Root {
    root.(pointer := Some(hash), store := root.store[hash := hash])
  }

  function Recording(digest: Digest, root: Root, op: Op, hash: string, world: World): Root
    requires op != SignOp
  {
    AppendTo(digest, root, InstallEvent(op, hash), world.time, world.newID)
  }

  function Unconfirmed(digest: Digest, root: Root, op: Op, hash: string, remains: Remains, world: World): Root
    requires op != SignOp
  {
    match remains
    case Nothing => root
    case TornTail => root.(torn := true)
    case WholeLine => Recording(digest, root, op, hash, world)
  }

  function Signing(root: Root): Root
    requires CanSign(root)
  {
    root.(sigs := root.sigs[root.pointer.value := SignedNow(root)])
  }

  /** The record's fate and, once it is written, the signature or not. */
  predicate RecordedAs(digest: Digest, a: Root, b: Root, op: Op, hash: string, world: World)
    requires op != SignOp
  {
    if world.record.NotConfirmed? then b == Unconfirmed(digest, a, op, hash, world.record.remains, world)
    else
      var done := Recording(digest, a, op, hash, world);
      b == done || (CanSign(done) && b == Signing(done))
  }

  /** b is a with the pointer moved (unless op is a vouch) and the record attempted. */
  predicate ByInstall(digest: Digest, a: Root, b: Root, op: Op, hash: string, world: World)
    requires op != SignOp
  {
    RecordedAs(digest, if op.Install? then Committing(a, hash) else a, b, op, hash, world)
  }

  /** b is a, perhaps with one attempt to append an event that installs nothing. */
  ghost predicate ByNote(digest: Digest, a: Root, b: Root) {
    || b == a
    || (!a.torn && b == a.(torn := true))
    || (!a.torn && exists e, time, newID ::
          !Installing(NextRecord(digest, a.records, e, time, newID)) && b == AppendTo(digest, a, e, time, newID))
  }

  /** A run in progress: where it has got to. */
  ghost predicate Reaches(digest: Digest, a: Root, s: System) {
    exists steps :: CanRun(digest, Start(a), steps) && Run(digest, Start(a), steps) == s
  }

  lemma ReachesNext(digest: Digest, a: Root, s: System, step: Step)
    requires Reaches(digest, a, s) && Enabled(digest, s, step)
    ensures Reaches(digest, a, Effect(digest, s, step))
  {
    var steps :| CanRun(digest, Start(a), steps) && Run(digest, Start(a), steps) == s;
    RunExtends(digest, Start(a), steps, step);
  }

  lemma LeadsIfReached(digest: Digest, a: Root, s: System)
    requires Reaches(digest, a, s) && s.procs == map[]
    ensures Leads(digest, a, s.root)
  {
  }

  const ME: Pid := 0

  lemma ApprovalReached(digest: Digest, a: Root, op: Op, hash: string) returns (s: System)
    requires hash != "" && !a.torn
    requires match op
             case Install(action) => IsInstaller(action) && OnRecord(a) && (action != Apply ==> a.pointer.Some?)
             case VouchOp => a.pointer == Some(hash) && BytesMatch(a, hash) && !Vouches(a.records, hash)
             case SignOp => false
    ensures Reaches(digest, a, s) && s.root == a && s.procs == map[ME := Approved(op, hash)]
  {
    assert CanRun(digest, Start(a), []) && Run(digest, Start(a), []) == Start(a);
    s := Effect(digest, Start(a), EnterWriter(ME, op));
    ReachesNext(digest, a, Start(a), EnterWriter(ME, op));
    ReachesNext(digest, a, s, Approve(ME, hash));
    s := Effect(digest, s, Approve(ME, hash));
  }

  /** A process at the stage that owes its record. */
  predicate Owes(s: System, op: Op, hash: string) {
    s.procs == map[ME := if op == VouchOp then Approved(op, hash) else Committed(op, hash)]
  }

  lemma LostRecordLeads(digest: Digest, a: Root, s: System, op: Op, hash: string, remains: Remains, world: World)
    requires Reaches(digest, a, s) && !s.root.torn && op != SignOp && Owes(s, op, hash)
    ensures Leads(digest, a, Unconfirmed(digest, s.root, op, hash, remains, world))
  {
    var lose := LoseRecord(ME, remains, world.time, world.newID);
    ReachesNext(digest, a, s, lose);
    LeadsIfReached(digest, a, Effect(digest, s, lose));
  }

  lemma RecordReached(digest: Digest, a: Root, s: System, op: Op, hash: string, world: World) returns (s': System)
    requires Reaches(digest, a, s) && !s.root.torn && op != SignOp && Owes(s, op, hash)
    ensures Reaches(digest, a, s') && s'.root == Recording(digest, s.root, op, hash, world)
    ensures s'.procs == map[ME := Recorded(hash)]
  {
    var step := AppendRecord(ME, world.time, world.newID);
    s' := Effect(digest, s, step);
    ReachesNext(digest, a, s, step);
  }

  lemma LeaveLeads(digest: Digest, a: Root, s: System, hash: string)
    requires Reaches(digest, a, s) && s.procs == map[ME := Recorded(hash)]
    ensures Leads(digest, a, s.root)
  {
    ReachesNext(digest, a, s, Leave(ME));
    LeadsIfReached(digest, a, Effect(digest, s, Leave(ME)));
  }

  lemma SignLeads(digest: Digest, a: Root, s: System, hash: string)
    requires Reaches(digest, a, s) && s.procs == map[ME := Recorded(hash)] && CanSign(s.root)
    ensures Leads(digest, a, Signing(s.root))
  {
    ReachesNext(digest, a, s, Sign(ME));
    LeadsIfReached(digest, a, Effect(digest, s, Sign(ME)));
  }

  /** From a stage that owes a record, what RecordedAs describes is reached by steps of the protocol. */
  lemma RecordLeads(digest: Digest, a: Root, s: System, b: Root, op: Op, hash: string, world: World)
    requires Reaches(digest, a, s) && !s.root.torn && op != SignOp && Owes(s, op, hash)
    requires RecordedAs(digest, s.root, b, op, hash, world)
    ensures Leads(digest, a, b)
  {
    if world.record.NotConfirmed? {
      LostRecordLeads(digest, a, s, op, hash, world.record.remains, world);
    } else {
      var s' := RecordReached(digest, a, s, op, hash, world);
      if b == s'.root {
        LeaveLeads(digest, a, s', hash);
      } else {
        SignLeads(digest, a, s', hash);
      }
    }
  }

  /** An install or a vouch, as the commands perform it, is a run of the protocol. */
  lemma InstallLeads(digest: Digest, a: Root, b: Root, op: Op, hash: string, world: World)
    requires hash != "" && !a.torn && op != SignOp && ByInstall(digest, a, b, op, hash, world)
    requires match op
             case Install(action) =>
               && IsInstaller(action) && OnRecord(a) && (action != Apply ==> a.pointer.Some?)
               && (hash in a.store ==> BytesMatch(a, hash))
             case _ => a.pointer == Some(hash) && BytesMatch(a, hash) && !Vouches(a.records, hash)
    ensures Leads(digest, a, b)
  {
    var s := ApprovalReached(digest, a, op, hash);
    if op.Install? {
      ReachesNext(digest, a, s, Commit(ME));
      s := Effect(digest, s, Commit(ME));
    }
    RecordLeads(digest, a, s, b, op, hash, world);
  }

  /** A denial, as the commands record it, is a run of the protocol. */
  lemma NoteLeads(digest: Digest, a: Root, b: Root)
    requires ByNote(digest, a, b)
    ensures Leads(digest, a, b)
  {
    assert CanRun(digest, Start(a), []) && Run(digest, Start(a), []) == Start(a);
    NoteLeadsFrom(digest, a, Start(a), b);
  }

  lemma NoteLeadsFrom(digest: Digest, a: Root, s: System, b: Root)
    requires Reaches(digest, a, s) && s.procs == map[] && ByNote(digest, s.root, b)
    ensures Leads(digest, a, b)
  {
    if b == s.root {
      LeadsIfReached(digest, a, s);
    } else if b == s.root.(torn := true) {
      ReachesNext(digest, a, s, Tear);
      LeadsIfReached(digest, a, Effect(digest, s, Tear));
    } else {
      var e, time, newID :| !Installing(NextRecord(digest, s.root.records, e, time, newID)) &&
        b == AppendTo(digest, s.root, e, time, newID);
      ReachesNext(digest, a, s, Note(e, time, newID));
      LeadsIfReached(digest, a, Effect(digest, s, Note(e, time, newID)));
    }
  }

  /** A pointer writer gets past the lock and the vouch: the root is on record, and the world lets it be read. */
  predicate Opens(root: Root, world: World) {
    && !root.torn && world.writable == CanWrite && world.lock == Taken
    && OnRecord(root) && (root.pointer.Some? ==> world.rolesReadable && !world.ledgerBusy)
  }

  /** There is a pointer over bytes that match it, fit to install, and the ledger does not vouch for it. */
  predicate MayVouch(root: Root, floorOk: bool, world: World) {
    && root.pointer.Some? && root.pointer.value != "" && BytesMatch(root, root.pointer.value)
    && world.rolesReadable && floorOk && !world.ledgerBusy && !Vouches(root.records, root.pointer.value)
  }

  /** The snapshot's name is free, or taken by the same bytes. */
  predicate CanCommit(root: Root, hash: string) {
    IsConfigHash(hash) && (hash in root.store ==> BytesMatch(root, hash))
  }

  predicate Commits(root: Root, hash: string, world: World) {
    CanCommit(root, hash) && world.commit == PointerMoved
  }

  /** A commit that gets as far as the snapshot's name. */
  predicate Shelves(root: Root, hash: string, world: World) {
    CanCommit(root, hash) && world.commit == SnapshotOnly
  }

  function Shelved(root: Root, hash: string): Root { root.(store := root.store[hash := hash]) }

  /** A command that moved nothing: unrecorded and unchanged, or denied and at most noted. */
  ghost predicate Rested(digest: Digest, a: Root, b: Root, o: Outcome) {
    if Unrecorded(o) then b == a else Denied(o) && ByNote(digest, a, b) && Untouched(a, b)
  }

  /** One record more, of this action, outcome and hash, at the end of the ledger. */
  predicate Records(digest: Digest, a: Root, b: Root, action: Action, outcome: ControlLog.Outcome, hash: string,
                    world: World)
  {
    b.records == a.records +
      [NextRecord(digest, a.records, Event(action, outcome, true, hash, false, None, None), world.time, world.newID)]
  }

  /**
    What an outcome that moved the pointer, or vouched for it, left behind: the steps taken; the
    pointer at hash over bytes that match it; its record, unless the append was not confirmed; and
    its signature, exactly when a key is configured and could be used.
   */
  predicate InstallOutcome(digest: Digest, a: Root, b: Root, op: Op, hash: string, world: World, r: Outcome)
    requires op != SignOp
  {
    && ByInstall(digest, a, b, op, hash, world)
    && b.pointer == Some(hash) && BytesMatch(b, hash) && (hash in a.store ==> BytesMatch(a, hash)) && hash != ""
    && (r == InstalledNotRecorded <==> world.record.NotConfirmed?)
    && (r == Installed || r == InstalledNotSigned ==>
          && InstalledAs(a, b, hash)
          && Records(digest, a, b, if op.Install? then op.action else Vouch, Success, hash, world))
    && (r == Installed && a.key.Some? ==> SignedFor(b, a.key.value))
    && (r == InstalledNotSigned <==>
          world.record == Written && a.key.Some? && !(world.signs && GenesisLogID(b.records).Some?))
    && (r == InstalledNotSigned ==> b.sigs == a.sigs)
  }

  /** A commit that failed on the way: denied, and at most an inert snapshot and a note more. */
  ghost predicate LeftBehind(digest: Digest, a: Root, b: Root, hash: string, o: Outcome) {
    Denied(o) && ByNote(digest, Shelved(a, hash), b) && Untouched(a, b)
  }

  lemma ShelvedLeads(digest: Digest, a: Root, b: Root, action: Action, hash: string)
    requires IsInstaller(action) && OnRecord(a) && (action != Apply ==> a.pointer.Some?) && hash != "" && !a.torn
    requires CanCommit(a, hash) && ByNote(digest, Shelved(a, hash), b)
    ensures Leads(digest, a, b)
  {
    var s := ApprovalReached(digest, a, Install(action), hash);
    ReachesNext(digest, a, s, Shelve(ME));
    NoteLeadsFrom(digest, a, Effect(digest, s, Shelve(ME)), b);
  }

  predicate IsSigned(root: Root)
    requires CanSign(root)
  {
    root.pointer.value in root.sigs && root.sigs[root.pointer.value] == SignedNow(root)
  }

  lemma SigningLeads(digest: Digest, a: Root)
    requires CanSign(a)
    ensures Leads(digest, a, Signing(a))
  {
    assert CanRun(digest, Start(a), []) && Run(digest, Start(a), []) == Start(a);
    var s := Effect(digest, Start(a), EnterWriter(ME, SignOp));
    ReachesNext(digest, a, Start(a), EnterWriter(ME, SignOp));
    ReachesNext(digest, a, s, Sign(ME));
    LeadsIfReached(digest, a, Effect(digest, s, Sign(ME)));
  }

  // ---------------------------------------------------------------- what a command answers

  /** The end of a command that moves nothing: an answer alone, or a recorded denial. */
  datatype Ruling = Proceed | Stop(o: Outcome) | Denial(outcome: ControlLog.Outcome, hash: string)

  function First(a: Ruling, b: Ruling): Ruling { if a == Proceed then b else a }

  /** The root after an attempt to append an event. */
  function NotedAs(digest: Digest, a: Root, e: Event, world: World): Root {
    match world.note
    case NotConfirmed(Nothing) => a
    case NotConfirmed(TornTail) => a.(torn := true)
    case _ => AppendTo(digest, a, e, world.time, world.newID)
  }

  function WordFor(outcome: ControlLog.Outcome): Outcome
    requires outcome != Success
  {
    match outcome
    case Refused => RefusedAndRecorded
    case Rejected => RejectedAndRecorded
    case Failed => FailedAndRecorded
  }

  function DenialEvent(action: Action, outcome: ControlLog.Outcome, hash: string): Event {
    Event(action, outcome, true, hash, false, None, None)
  }

  predicate IsRuling(ruling: Ruling) {
    (ruling.Stop? ==> Unrecorded(ruling.o)) && (ruling.Denial? ==> ruling.outcome != Success)
  }

  function Answer(ruling: Ruling, world: World): Outcome
    requires IsRuling(ruling) && ruling != Proceed
  {
    if ruling.Stop? then ruling.o else if world.note == Written then WordFor(ruling.outcome) else AppendFailed
  }

  /** The answer and the root a ruling leaves. */
  predicate Ruled(digest: Digest, a: Root, b: Root, action: Action, ruling: Ruling, world: World, r: Outcome) {
    && IsRuling(ruling) && ruling != Proceed && r == Answer(ruling, world)
    && b == if ruling.Stop? then a else NotedAs(digest, a, DenialEvent(action, ruling.outcome, ruling.hash), world)
  }

  lemma NotedIsNote(digest: Digest, a: Root, e: Event, world: World)
    requires Chained(digest, a.records) && !a.torn
    requires !Installing(NextRecord(digest, a.records, e, world.time, world.newID))
    ensures Chained(digest, NotedAs(digest, a, e, world).records)
    ensures ByNote(digest, a, NotedAs(digest, a, e, world)) && Untouched(a, NotedAs(digest, a, e, world))
  {
    AppendKeepsChain(digest, a, e, world.time, world.newID);
  }

  /** A ruling moves nothing, and is a run of the protocol. */
  lemma RuledRests(digest: Digest, a: Root, b: Root, action: Action, ruling: Ruling, world: World, r: Outcome)
    requires Chained(digest, a.records) && Ruled(digest, a, b, action, ruling, world, r) && (ruling.Denial? ==> !a.torn)
    ensures Chained(digest, b.records) && Rested(digest, a, b, r) && ByNote(digest, a, b) && Untouched(a, b)
    ensures Leads(digest, a, b)
    ensures ruling.Denial? && world.note == Written ==>
              Records(digest, a, b, action, ruling.outcome, ruling.hash, world)
  {
    if ruling.Denial? { NotedIsNote(digest, a, DenialEvent(action, ruling.outcome, ruling.hash), world); }
    NoteLeads(digest, a, b);
  }

  /** Steps 1 and 2 of every pointer writer. */
  function BeginRuling(root: Root, world: World): Ruling {
    match world.writable
    case WriterBusy => Stop(Busy)
    case SealedNotRotated => Stop(RotationIncomplete)
    case CanWrite =>
      if root.torn then Stop(Damaged)
      else match world.lock
        case HeldElsewhere => Stop(Busy)
        case LockFault => Denial(Failed, "")
        case Taken => Proceed
  }

  function HashedRefusal(hash: Result<string>): Ruling {
    if hash.Ok? then Denial(Refused, hash.value) else Denial(Failed, "")
  }

  function AuthorityRuling(root: Root, sourceHash: Result<string>, world: World): Ruling {
    if root.pointer.None? then Proceed
    else if !BytesMatch(root, root.pointer.value) || !world.rolesReadable then Denial(Failed, "")
    else if world.ledgerBusy then Stop(Busy)
    else if !Vouches(root.records, root.pointer.value) then HashedRefusal(sourceHash)
    else Proceed
  }

  function AcceptRuling(req: Request, root: Root): Ruling {
    var p := req.proposal;
    if !(if root.pointer.Some? then req.authorized else req.allowBootstrap) then HashedRefusal(p.hash)
    else if req.precondition.Some? && req.precondition.value.installed != root.pointer then Stop(PreconditionFailed)
    else if p.staged.Ok? && !p.acceptable then Denial(Rejected, p.staged.value)
    else if p.staged.Err? || p.staged.value == "" || (p.mustMatch && p.hash != p.staged) then Denial(Failed, "")
    else Proceed
  }

  function CommitRuling(root: Root, hash: Result<string>, world: World): Ruling {
    if hash.Ok? && Commits(root, hash.value, world) then Proceed else Denial(Failed, "")
  }

  function OpenRuling(root: Root, sourceHash: Result<string>, world: World): Ruling {
    First(BeginRuling(root, world), AuthorityRuling(root, sourceHash, world))
  }

  function ApplyRuling(root: Root, req: Request, world: World): Ruling {
    First(OpenRuling(root, req.proposal.hash, world),
          First(AcceptRuling(req, root), CommitRuling(root, req.proposal.staged, world)))
  }

  function FlipRuling(root: Root, authorized: bool, flipped: Option<string>, world: World): Ruling {
    First(OpenRuling(root, Ok(""), world),
          if !authorized || flipped.None? then Denial(Refused, "")
          else if root.pointer.None? then Proceed
          else CommitRuling(root, Ok(flipped.value), world))
  }

  function VouchRuling(root: Root, floorOk: bool, world: World): Ruling {
    First(BeginRuling(root, world),
          if root.pointer.None? then Stop(NothingToDo)
          else if !BytesMatch(root, root.pointer.value) || !world.rolesReadable || root.pointer.value == "" then
            Denial(Failed, "")
          else if !floorOk then Denial(Rejected, root.pointer.value)
          else if world.ledgerBusy then Stop(Busy)
          else if Vouches(root.records, root.pointer.value) then Stop(NothingToDo)
          else Proceed)
  }

  /**
    Every answer of an apply, each exactly when. In the source's order: the ledger writable and the lock;
    the roles and the ledger read; the vouch, then the caller; the precondition; the proposal; the commit.
   */
  predicate ApplyAnswers(a: Root, req: Request, world: World, r: Outcome) {
    var p := req.proposal;
    var writable := world.writable == CanWrite && !a.torn;
    var locked := writable && world.lock == Taken;
    var readable := locked && (a.pointer.Some? ==> BytesMatch(a, a.pointer.value) && world.rolesReadable);
    var known := readable && (a.pointer.Some? ==> !world.ledgerBusy);
    var vouched := known && (a.pointer.Some? ==> Vouches(a.records, a.pointer.value));
    var permitted := vouched && (if a.pointer.Some? then req.authorized else req.allowBootstrap);
    var current := permitted && (req.precondition.Some? ==> req.precondition.value.installed == a.pointer);
    var sound :=
      current && p.staged.Ok? && p.acceptable && p.staged.value != "" && (p.mustMatch ==> p.hash == p.staged);
    var installs := sound && Commits(a, p.staged.value, world);
    var refused := known && !permitted && p.hash.Ok?;
    var rejected := current && p.staged.Ok? && !p.acceptable;
    var failed :=
      || (writable && world.lock == LockFault) || (locked && !readable)
      || (known && !permitted && p.hash.Err?) || (current && !rejected && !installs);
    && (r == RotationIncomplete <==> world.writable == SealedNotRotated)
    && (r == Damaged <==> world.writable == CanWrite && a.torn)
    && (r == Busy <==>
          world.writable == WriterBusy || (writable && world.lock == HeldElsewhere) || (readable && !known))
    && (r == PreconditionFailed <==> permitted && !current)
    && (r == RefusedAndRecorded <==> refused && world.note == Written)
    && (r == RejectedAndRecorded <==> rejected && world.note == Written)
    && (r == FailedAndRecorded <==> failed && world.note == Written)
    && (r == AppendFailed <==> (refused || rejected || failed) && world.note != Written)
    && (Moved(r) <==> installs)
  }

  lemma ApplyRulingAnswers(a: Root, req: Request, world: World, r: Outcome)
    requires var ruling := ApplyRuling(a, req, world);
             if ruling == Proceed then Moved(r) else IsRuling(ruling) && r == Answer(ruling, world)
    ensures ApplyAnswers(a, req, world, r)
  {
  }

  /** Every answer of a flip, each exactly when. */
  predicate FlipAnswers(a: Root, authorized: bool, flipped: Option<string>, world: World, r: Outcome) {
    var writable := world.writable == CanWrite && !a.torn;
    var locked := writable && world.lock == Taken;
    var readable := locked && (a.pointer.Some? ==> BytesMatch(a, a.pointer.value) && world.rolesReadable);
    var known := readable && (a.pointer.Some? ==> !world.ledgerBusy);
    var vouched := known && (a.pointer.Some? ==> Vouches(a.records, a.pointer.value));
    var flips := vouched && authorized && flipped.Some?;
    var refused := known && !flips;
    var failed :=
      || (writable && world.lock == LockFault) || (locked && !readable)
      || (flips && a.pointer.Some? && !Commits(a, flipped.value, world));
    && (r == RotationIncomplete <==> world.writable == SealedNotRotated)
    && (r == Damaged <==> world.writable == CanWrite && a.torn)
    && (r == Busy <==>
          world.writable == WriterBusy || (writable && world.lock == HeldElsewhere) || (readable && !known))
    && (r == RefusedAndRecorded <==> refused && world.note == Written)
    && (r == FailedAndRecorded <==> failed && world.note == Written)
    && (r == AppendFailed <==> (refused || failed) && world.note != Written)
    && (r == DirectoryFlipped <==> flips && a.pointer.None? && world.note == Written)
    && (r == DirectoryFlippedNotRecorded <==> flips && a.pointer.None? && world.note != Written)
    && (Moved(r) <==> flips && a.pointer.Some? && Commits(a, flipped.value, world))
  }

  lemma FlipRulingAnswers(a: Root, authorized: bool, flipped: Option<string>, world: World, r: Outcome)
    requires var ruling := FlipRuling(a, authorized, flipped, world);
             if ruling != Proceed then IsRuling(ruling) && r == Answer(ruling, world)
             else if a.pointer.Some? then Moved(r)
             else r == if world.note == Written then DirectoryFlipped else DirectoryFlippedNotRecorded
    ensures FlipAnswers(a, authorized, flipped, world, r)
  {
  }

  /** Every answer of a vouch, each exactly when. */
  predicate VouchAnswers(a: Root, floorOk: bool, world: World, r: Outcome) {
    var writable := world.writable == CanWrite && !a.torn;
    var locked := writable && world.lock == Taken;
    var readable :=
      locked && a.pointer.Some? && a.pointer.value != "" && BytesMatch(a, a.pointer.value) && world.rolesReadable;
    var known := readable && floorOk && !world.ledgerBusy;
    var rejected := readable && !floorOk;
    var failed := (writable && world.lock == LockFault) || (locked && a.pointer.Some? && !readable);
    && (r == RotationIncomplete <==> world.writable == SealedNotRotated)
    && (r == Damaged <==> world.writable == CanWrite && a.torn)
    && (r == Busy <==>
          || world.writable == WriterBusy || (writable && world.lock == HeldElsewhere)
          || (readable && floorOk && world.ledgerBusy))
    && (r == NothingToDo <==>
          (locked && a.pointer.None?) || (known && Vouches(a.records, a.pointer.value)))
    && (r == RejectedAndRecorded <==> rejected && world.note == Written)
    && (r == FailedAndRecorded <==> failed && world.note == Written)
    && (r == AppendFailed <==> (rejected || failed) && world.note != Written)
    && (Moved(r) <==> known && !Vouches(a.records, a.pointer.value))
  }

  lemma VouchRulingAnswers(a: Root, floorOk: bool, world: World, r: Outcome)
    requires var ruling := VouchRuling(a, floorOk, world);
             if ruling == Proceed then Moved(r) else IsRuling(ruling) && r == Answer(ruling, world)
    ensures VouchAnswers(a, floorOk, world, r)
  {
  }

  /** The root a denied commit is noted on: as it was, or with an inert snapshot more. */
  function BaseOf(a: Root, hash: string, world: World): Root { if Shelves(a, hash, world) then Shelved(a, hash) else a }

  /** However the commit went, what is left is a run of the protocol; denied, it moved nothing. */
  lemma InstallerEnds(digest: Digest, a: Root, b: Root, action: Action, hash: string, world: World, r: Outcome)
    requires Chained(digest, a.records) && IsInstaller(action) && OnRecord(a) && !a.torn && hash != ""
    requires action != Apply ==> a.pointer.Some?
    requires if Moved(r) then InstallOutcome(digest, a, b, Install(action), hash, world, r)
             else Ruled(digest, BaseOf(a, hash, world), b, action, Denial(Failed, ""), world, r)
    ensures Leads(digest, a, b)
    ensures !Moved(r) ==>
              if Shelves(a, hash, world) then LeftBehind(digest, a, b, hash, r) else Rested(digest, a, b, r)
    ensures r == FailedAndRecorded ==> Records(digest, a, b, action, Failed, "", world)
  {
    if Moved(r) {
      InstallLeads(digest, a, b, Install(action), hash, world);
    } else {
      RuledRests(digest, BaseOf(a, hash, world), b, action, Denial(Failed, ""), world, r);
      if Shelves(a, hash, world) { ShelvedLeads(digest, a, b, action, hash); }
    }
  }

  /** The kill switch has an install to flip, by a caller its roles allow. */
  predicate Flips(root: Root, authorized: bool, flipped: Option<string>, world: World) {
    Opens(root, world) && root.pointer.Some? && authorized && flipped.Some?
  }

  /** The record of a flip while nothing is installed: marked, so that it installs nothing. */
  function DirectoryFlip(action: Action, hash: string): Event {
    Event(action, Success, true, hash, true, None, None)
  }

  /** The install a pinned read verifies: its ledger and its position there. */
  function ViewOf(root: Root): FloorProtocol.View
    requires LastInstalling(root.records).Some? && GenesisLogID(root.records).Some?
  {
    FloorProtocol.View(GenesisLogID(root.records).value, LastInstalling(root.records).value.seqNo)
  }

  /** The floor lets the install pass: nothing older or foreign, and a read that advances it can remember it. */
  predicate FloorAdmits(floor: FloorProtocol.Floor, view: FloorProtocol.View, advance: bool, writes: bool) {
    && floor != FloorProtocol.Corrupt && (floor.At? ==> FloorProtocol.Below(floor.view, view))
    && (advance && floor != FloorProtocol.At(view) ==> writes)
  }

  /** The reads under the shared lock all pass. */
  predicate Readable(root: Root, pin: Result<Option<string>>, lock: LockAnswer, loads: bool, busy: bool) {
    && pin.Ok? && lock == Taken && loads && !busy && root.pointer.Some? && OnRecord(root)
    && (pin.value.Some? ==> SignedFor(root, pin.value.value))
  }

  // ---------------------------------------------------------------- the commands

  class Command {
    const digest: Digest
    var root: Root

    constructor (digest: Digest, root: Root)
      ensures this.digest == digest && this.root == root
    {
      this.digest, this.root := digest, root;
    }

    ghost predicate Valid() reads this { Chained(digest, root.records) }

    /** Appends an event that installs nothing; false when the append was not confirmed. */
    method Append(e: Event, world: World) returns (ok: bool)
      requires Valid() && !root.torn
      requires e.outcome != Success || (e.bootstrap && e.action != Apply && e.action != Vouch)
      modifies this
      ensures Valid()
      ensures ok <==> world.note == Written
      ensures root == NotedAs(digest, old(root), e, world)
    {
      NotedIsNote(digest, root, e, world);
      ok := world.note == Written;
      if ok || world.note.remains == WholeLine {
        root := AppendTo(digest, root, e, world.time, world.newID);
      } else if world.note.remains == TornTail {
        root := root.(torn := true);
      }
    }

    /** Appends a denial of the command and names the outcome: an append that fails is its own outcome. */
    method Deny(outcome: ControlLog.Outcome, action: Action, hash: string, world: World) returns (r: Outcome)
      requires Valid() && !root.torn && outcome != Success
      modifies this
      ensures Valid()
      ensures Ruled(digest, old(root), root, action, Denial(outcome, hash), world, r)
    {
      var ok := Append(Event(action, outcome, true, hash, false, None, None), world);
      if !ok {
        return AppendFailed;
      }
      match outcome {
        case Refused => return RefusedAndRecorded;
        case Rejected => return RejectedAndRecorded;
        case Failed => return FailedAndRecorded;
      }
    }

    /** The vouch of the installed pointer: busy, damaged, on record or not. */
    method VouchInstalled(hash: string, busy: bool) returns (v: VouchVerdict)
      ensures v == VouchedFor <==> !busy && !root.torn && Vouches(root.records, hash)
      ensures v == NotOnRecord <==> !busy && !root.torn && !Vouches(root.records, hash)
      ensures v == LedgerBusy <==> busy
    {
      if busy {
        return LedgerBusy;
      }
      if root.torn {
        return NotVerifiable;
      }
      var last := FindLastInstalling(root.records);
      if last.None? {
        return NotOnRecord;
      }
      return if last.value.event.value.configHash == hash then VouchedFor else NotOnRecord;
    }

    /** Steps 1 and 2 of every pointer writer: the ledger must be writable, then the lock. None means go on. */
    method Begin(action: Action, world: World) returns (r: Option<Outcome>)
      requires Valid()
      modifies this
      ensures Valid()
      ensures r.None? <==> !old(root).torn && world.writable == CanWrite && world.lock == Taken
      ensures r == Some(RotationIncomplete) <==> world.writable == SealedNotRotated
      ensures r == Some(Damaged) <==> world.writable == CanWrite && old(root).torn
      ensures r == Some(Busy) <==>
                || world.writable == WriterBusy
                || (world.writable == CanWrite && !old(root).torn && world.lock == HeldElsewhere)
      ensures r.None? ==> root == old(root) && BeginRuling(old(root), world) == Proceed
      ensures r.Some? ==> Ruled(digest, old(root), root, action, BeginRuling(old(root), world), world, r.value)
    {
      match world.writable {
        case WriterBusy => return Some(Busy);
        case SealedNotRotated => return Some(RotationIncomplete);
        case CanWrite =>
      }
      if root.torn {
        return Some(Damaged);
      }
      match world.lock {
        case HeldElsewhere => return Some(Busy);
        case LockFault =>
          var d := Deny(Failed, action, "", world);
          return Some(d);
        case Taken => return None;
      }
    }

    /**
      The authorization read under the lock: the pointer, its bytes and roles, and the ledger's
      vouch. None means the pointer is absent or on record; otherwise the command is over.
     */
    method Authority(action: Action, sourceHash: Result<string>, world: World) returns (r: Option<Outcome>)
      requires Valid() && !root.torn
      modifies this
      ensures Valid()
      ensures r.None? <==> OnRecord(old(root)) && (old(root).pointer.Some? ==> world.rolesReadable && !world.ledgerBusy)
      ensures r == Some(Busy) <==>
                && old(root).pointer.Some? && BytesMatch(old(root), old(root).pointer.value)
                && world.rolesReadable && world.ledgerBusy
      ensures r.None? ==> root == old(root) && AuthorityRuling(old(root), sourceHash, world) == Proceed
      ensures r.Some? ==>
                Ruled(digest, old(root), root, action, AuthorityRuling(old(root), sourceHash, world), world, r.value)
    {
      if root.pointer.None? {
        return None;
      }
      var d;
      if !BytesMatch(root, root.pointer.value) || !world.rolesReadable {
        d := Deny(Failed, action, "", world);
        return Some(d);
      }
      var v := VouchInstalled(root.pointer.value, world.ledgerBusy);
      if v == LedgerBusy {
        return Some(Busy);
      }
      if v == NotOnRecord {
        if sourceHash.Err? {
          d := Deny(Failed, action, "", world);
        } else {
          d := Deny(Refused, action, sourceHash.value, world);
        }
        return Some(d);
      }
      return None;
    }

    /** Writable, locked, and the authorization read: None means a root on record, under the lock. */
    method Open(action: Action, sourceHash: Result<string>, world: World) returns (r: Option<Outcome>)
      requires Valid()
      modifies this
      ensures Valid()
      ensures r.None? <==> Opens(old(root), world)
      ensures r.None? ==> root == old(root) && OpenRuling(old(root), sourceHash, world) == Proceed
      ensures r.Some? ==>
                && Ruled(digest, old(root), root, action, OpenRuling(old(root), sourceHash, world), world, r.value)
                && (OpenRuling(old(root), sourceHash, world).Denial? ==> !old(root).torn)
    {
      r := Begin(action, world);
      if r.None? {
        r := Authority(action, sourceHash, world);
      }
    }

    /** Moves the pointer to the staged copy; on any failure it is as it was, though the snapshot may have its name. */
    method CommitSnapshot(hash: string, commit: CommitAnswer) returns (ok: bool)
      modifies this
      ensures ok <==> CanCommit(old(root), hash) && commit == PointerMoved
      ensures root == if ok then Committing(old(root), hash)
                      else if CanCommit(old(root), hash) && commit == SnapshotOnly then Shelved(old(root), hash)
                      else old(root)
    {
      if !IsConfigHash(hash) || commit == NothingMoved {
        return false;
      }
      if hash in root.store && root.store[hash] != hash {
        return false;
      }
      root := root.(store := root.store[hash := hash]);
      if commit == SnapshotOnly {
        return false;
      }
      root := root.(pointer := Some(hash));
      ok := true;
    }

    /** The success record, then the signature when a key is configured. */
    method RecordAndSign(op: Op, hash: string, world: World) returns (r: Outcome)
      requires Valid() && op != SignOp && (op.Install? ==> IsInstaller(op.action)) && hash != "" && !root.torn
      requires root.pointer == Some(hash)
      modifies this
      ensures Valid() && Moved(r)
      ensures RecordedAs(digest, old(root), root, op, hash, world)
      ensures r == InstalledNotRecorded <==> world.record.NotConfirmed?
      ensures r == InstalledNotSigned <==>
                world.record == Written && old(root).key.Some? && !(world.signs && GenesisLogID(root.records).Some?)
      ensures r == Installed && old(root).key.Some? ==> SignedFor(root, old(root).key.value)
      ensures r == InstalledNotSigned ==> root.sigs == old(root).sigs
      ensures r != InstalledNotRecorded ==>
                && Records(digest, old(root), root, if op.Install? then op.action else Vouch, Success, hash, world)
                && Vouches(root.records, hash) && Installs(root.records) == Installs(old(root).records) + [hash]
    {
      AppendKeepsChain(digest, root, InstallEvent(op, hash), world.time, world.newID);
      if world.record.NotConfirmed? {
        root := Unconfirmed(digest, root, op, hash, world.record.remains, world);
        return InstalledNotRecorded;
      }
      root := Recording(digest, root, op, hash, world);
      if root.key.None? {
        return Installed;
      }
      if !CanSign(root) || !world.signs {
        return InstalledNotSigned;
      }
      root := Signing(root);
      return Installed;
    }

    /** Commit, record, sign: the tail of an apply and of a flip, once the copy has been accepted. */
    method InstallStaged(action: Action, hash: string, world: World) returns (r: Outcome)
      requires Valid() && IsInstaller(action) && hash != "" && !root.torn
      modifies this
      ensures Valid()
      ensures Moved(r) <==> Commits(old(root), hash, world)
      ensures Moved(r) ==> InstallOutcome(digest, old(root), root, Install(action), hash, world, r)
      ensures !Moved(r) ==> Ruled(digest, BaseOf(old(root), hash, world), root, action, Denial(Failed, ""), world, r)
    {
      var ok := CommitSnapshot(hash, world.commit);
      if !ok {
        r := Deny(Failed, action, "", world);
        return;
      }
      r := RecordAndSign(Install(action), hash, world);
    }

    /**
      apply. Whatever the world answers: the pointer moves only from a root that is on record, to
      the hash of an acceptable proposal, for a caller its roles allow (or a permitted bootstrap)
      whose precondition held; every other outcome leaves pointer, snapshots, signatures and
      recorded installs untouched, a commit that failed half way adding at most an inert snapshot.
     */
    method ApplyConfig(req: Request, world: World) returns (r: Outcome)
      requires Valid()
      modifies this
      ensures Valid()
      ensures ApplyAnswers(old(root), req, world, r)
      ensures Moved(r) ==>
                InstallOutcome(digest, old(root), root, Install(Apply), req.proposal.staged.value, world, r)
      ensures r == RefusedAndRecorded ==>
                Records(digest, old(root), root, Apply, Refused, req.proposal.hash.value, world)
      ensures r == RejectedAndRecorded ==>
                Records(digest, old(root), root, Apply, Rejected, req.proposal.staged.value, world)
      ensures r == FailedAndRecorded ==> Records(digest, old(root), root, Apply, Failed, "", world)
      ensures !Moved(r) ==>
                if Opens(old(root), world) && MayInstall(req, old(root)) &&
                   Shelves(old(root), req.proposal.staged.value, world)
                then LeftBehind(digest, old(root), root, req.proposal.staged.value, r)
                else Rested(digest, old(root), root, r)
      ensures Leads(digest, old(root), root)
    {
      var over := Open(Apply, req.proposal.hash, world);
      if over.None? {
        over := Accept(req, world);
      }
      ghost var ruling := ApplyRuling(old(root), req, world);
      if over.Some? {
        RuledRests(digest, old(root), root, Apply, ruling, world, over.value);
        ApplyRulingAnswers(old(root), req, world, over.value);
        return over.value;
      }
      r := InstallStaged(Apply, req.proposal.staged.value, world);
      ApplyRulingAnswers(old(root), req, world, r);
      InstallerEnds(digest, old(root), root, Apply, req.proposal.staged.value, world, r);
    }

    /** Authorization, precondition, stage, load, build, hash and the staged-copy check. None means go on. */
    method Accept(req: Request, world: World) returns (r: Option<Outcome>)
      requires Valid() && !root.torn
      modifies this
      ensures Valid()
      ensures r.None? <==> MayInstall(req, old(root))
      ensures r.None? ==> root == old(root) && AcceptRuling(req, old(root)) == Proceed
      ensures r.Some? ==> Ruled(digest, old(root), root, Apply, AcceptRuling(req, old(root)), world, r.value)
    {
      var installed, p := root.pointer.Some?, req.proposal;
      var d;
      if (installed && !req.authorized) || (!installed && !req.allowBootstrap) {
        if p.hash.Err? {
          d := Deny(Failed, Apply, "", world);
        } else {
          d := Deny(Refused, Apply, p.hash.value, world);
        }
        return Some(d);
      }
      if req.precondition.Some? && req.precondition.value.installed != root.pointer {
        return Some(PreconditionFailed);
      }
      if p.staged.Ok? && !p.acceptable {
        d := Deny(Rejected, Apply, p.staged.value, world);
        return Some(d);
      }
      if p.staged.Err? || p.staged.value == "" || (p.mustMatch && p.hash != p.staged) {
        d := Deny(Failed, Apply, "", world);
        return Some(d);
      }
      return None;
    }

    /**
      The kill switch. `flipped` is the hash of the installed snapshot's copy with the one bit set,
      None when the agent is not in it; while nothing is installed it is the flipped directory's.
     */
    method RegistryFlip(action: Action, authorized: bool, flipped: Option<string>, world: World) returns (r: Outcome)
      requires Valid() && (action == Enable || action == Disable)
      modifies this
      ensures Valid()
      ensures FlipAnswers(old(root), authorized, flipped, world, r)
      ensures Moved(r) ==> InstallOutcome(digest, old(root), root, Install(action), flipped.value, world, r)
      ensures r == RefusedAndRecorded ==> Records(digest, old(root), root, action, Refused, "", world)
      ensures r == FailedAndRecorded ==> Records(digest, old(root), root, action, Failed, "", world)
      ensures r == DirectoryFlipped ==>
                root == AppendTo(digest, old(root), DirectoryFlip(action, flipped.value), world.time, world.newID)
      ensures !Moved(r) ==>
                if Flips(old(root), authorized, flipped, world) && Shelves(old(root), flipped.value, world)
                then LeftBehind(digest, old(root), root, flipped.value, r)
                else ByNote(digest, old(root), root) && Untouched(old(root), root)
      ensures Leads(digest, old(root), root)
    {
      var over := Open(action, Ok(""), world);
      if over.None? && (!authorized || flipped.None?) {
        var d := Deny(Refused, action, "", world);
        over := Some(d);
      }
      if over.Some? {
        ghost var ruling := FlipRuling(old(root), authorized, flipped, world);
        RuledRests(digest, old(root), root, action, ruling, world, over.value);
        FlipRulingAnswers(old(root), authorized, flipped, world, over.value);
        return over.value;
      }
      if root.pointer.None? {
        r := FlipDirectory(action, flipped.value, world);
      } else {
        r := FlipInstalled(action, flipped.value, world);
      }
      FlipRulingAnswers(old(root), authorized, flipped, world, r);
    }

    /** The bootstrap-era flip edits the directory: its record is marked and installs nothing. */
    method FlipDirectory(action: Action, hash: string, world: World) returns (r: Outcome)
      requires Valid() && (action == Enable || action == Disable) && !root.torn
      modifies this
      ensures Valid()
      ensures r == if world.note == Written then DirectoryFlipped else DirectoryFlippedNotRecorded
      ensures r == DirectoryFlipped ==>
                root == AppendTo(digest, old(root), DirectoryFlip(action, hash), world.time, world.newID)
      ensures ByNote(digest, old(root), root) && Untouched(old(root), root) && Leads(digest, old(root), root)
    {
      NotedIsNote(digest, root, DirectoryFlip(action, hash), world);
      var ok := Append(DirectoryFlip(action, hash), world);
      NoteLeads(digest, old(root), root);
      r := if ok then DirectoryFlipped else DirectoryFlippedNotRecorded;
    }

    /** The flip of an install: the flipped copy is committed, recorded and signed as an apply's is. */
    method FlipInstalled(action: Action, hash: string, world: World) returns (r: Outcome)
      requires Valid() && (action == Enable || action == Disable)
      requires OnRecord(root) && root.pointer.Some? && !root.torn
      modifies this
      ensures Valid()
      ensures Moved(r) <==> Commits(old(root), hash, world)
      ensures Moved(r) ==> InstallOutcome(digest, old(root), root, Install(action), hash, world, r)
      ensures !Moved(r) ==>
                && r == Answer(Denial(Failed, ""), world)
                && if Shelves(old(root), hash, world) then LeftBehind(digest, old(root), root, hash, r)
                   else Rested(digest, old(root), root, r)
      ensures r == FailedAndRecorded ==> Records(digest, old(root), root, action, Failed, "", world)
      ensures Leads(digest, old(root), root)
    {
      if hash == "" {
        r := Deny(Failed, action, "", world);
        RuledRests(digest, old(root), root, action, Denial(Failed, ""), world, r);
        return;
      }
      r := InstallStaged(action, hash, world);
      InstallerEnds(digest, old(root), root, action, hash, world, r);
    }

    /** The vouch's own checks, under the lock: bytes and roles, the floor, and the ledger's word. None means go on. */
    method Examine(floorOk: bool, world: World) returns (r: Option<Outcome>)
      requires Valid() && BeginRuling(root, world) == Proceed
      modifies this
      ensures Valid()
      ensures r.None? <==> MayVouch(old(root), floorOk, world)
      ensures r.None? ==> root == old(root) && VouchRuling(old(root), floorOk, world) == Proceed
      ensures r.Some? ==> Ruled(digest, old(root), root, Vouch, VouchRuling(old(root), floorOk, world), world, r.value)
    {
      if root.pointer.None? {
        return Some(NothingToDo);
      }
      var hash := root.pointer.value;
      var d;
      if !BytesMatch(root, hash) || !world.rolesReadable || hash == "" {
        d := Deny(Failed, Vouch, "", world);
        return Some(d);
      }
      if !floorOk {
        d := Deny(Rejected, Vouch, hash, world);
        return Some(d);
      }
      var v := VouchInstalled(hash, world.ledgerBusy);
      if v == NotOnRecord {
        return None;
      }
      return Some(if v == LedgerBusy then Busy else NothingToDo);
    }

    /** config vouch: records the pointer the root already has, if and only if the ledger does not vouch for it. */
    method ConfigVouch(floorOk: bool, world: World) returns (r: Outcome)
      requires Valid()
      modifies this
      ensures Valid()
      ensures VouchAnswers(old(root), floorOk, world, r)
      ensures !Moved(r) ==> Rested(digest, old(root), root, r)
      ensures Moved(r) ==>
                InstallOutcome(digest, old(root), root, VouchOp, old(root).pointer.value, world, r)
      ensures r == RejectedAndRecorded ==>
                Records(digest, old(root), root, Vouch, Rejected, old(root).pointer.value, world)
      ensures r == FailedAndRecorded ==> Records(digest, old(root), root, Vouch, Failed, "", world)
      ensures Leads(digest, old(root), root)
    {
      var over := Begin(Vouch, world);
      if over.None? {
        over := Examine(floorOk, world);
      }
      if over.Some? {
        RuledRests(digest, old(root), root, Vouch, VouchRuling(old(root), floorOk, world), world, over.value);
        VouchRulingAnswers(old(root), floorOk, world, over.value);
        return over.value;
      }
      r := RecordAndSign(VouchOp, root.pointer.value, world);
      VouchRulingAnswers(old(root), floorOk, world, r);
      InstallLeads(digest, old(root), root, VouchOp, root.pointer.value, world);
    }

    /**
      config sign: writes the signature the install would have written, or finds it there already. The
      lock, the ledger and the key decide; nothing is recorded.
     */
    method ConfigSign(world: World) returns (r: SignOutcome)
      requires Valid()
      modifies this
      ensures Valid()
      ensures r != NotSigned <==>
                && world.lock == Taken && !world.ledgerBusy && !old(root).torn && old(root).key.Some?
                && old(root).pointer.Some? && Vouches(old(root).records, old(root).pointer.value)
                && GenesisLogID(old(root).records).Some? && (IsSigned(old(root)) || world.signs)
      ensures r == AlreadySigned ==> IsSigned(old(root))
      ensures r != NotSigned ==> root == Signing(old(root)) && SignedFor(root, old(root).key.value)
      ensures r != Signed ==> root == old(root)
      ensures Leads(digest, old(root), root)
    {
      if world.lock != Taken || world.ledgerBusy || !CanSign(root) {
        NoteLeads(digest, old(root), root);
        return NotSigned;
      }
      if IsSigned(root) {
        NoteLeads(digest, old(root), root);
        return AlreadySigned;
      }
      if !world.signs {
        NoteLeads(digest, old(root), root);
        return NotSigned;
      }
      SigningLeads(digest, root);
      root := Signing(root);
      return Signed;
    }

    /**
      The execution read: what runs is an install whose bytes, pointer and last record agree and, pinned,
      whose signature is good and which the floor admits. The floor moves only to an install so admitted.
     */
    method ResolveRunConfig(pin: Result<Option<string>>, lock: LockAnswer, loads: bool, busy: bool, builds: bool,
                            floor: FloorProtocol.Floor, advance: bool, writes: bool)
      returns (run: Option<string>, newFloor: FloorProtocol.Floor)
      ensures run.Some? <==>
                && builds && Readable(root, pin, lock, loads, busy)
                && (pin.value.Some? ==> FloorAdmits(floor, ViewOf(root), advance, writes))
      ensures run.Some? ==> run == root.pointer
      ensures run.Some? && pin.value.Some? ==>
                var last, pub := LastInstalling(root.records).value, pin.value.value;
                && root.pointer.value in root.sigs
                && root.sigs[root.pointer.value] ==
                     SigFile(root.pointer.value, root.records[0].logID, last.seqNo, last.time, pub, pub)
      ensures newFloor ==
                if Readable(root, pin, lock, loads, busy) && pin.value.Some? && advance &&
                   FloorAdmits(floor, ViewOf(root), advance, writes)
                then FloorProtocol.At(ViewOf(root)) else floor
    {
      newFloor := floor;
      if pin.Err? || lock != Taken {
        return None, floor;
      }
      if root.pointer.None? || !BytesMatch(root, root.pointer.value) || !loads {
        return None, floor;
      }
      var v := VouchInstalled(root.pointer.value, busy);
      if v != VouchedFor {
        return None, floor;
      }
      if pin.value.Some? {
        if GenesisLogID(root.records).None? || SignatureOf(root, pin.value.value) != Good {
          return None, floor;
        }
        var file := new FloorProtocol.FloorFile(floor);
        var judged := file.JudgeAndAdvance(ViewOf(root), advance, writes);
        newFloor := file.floor;
        if judged != FloorProtocol.Accept {
          return None, newFloor;
        }
      }
      return if builds then root.pointer else None, newFloor;
    }
  }
}
