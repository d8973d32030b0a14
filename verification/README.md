# Agenthof: a verified model of its control plane

Agenthof runs agent workflows under a control root: an installed configuration named by its
content hash, a hash-chained control ledger, operator signatures, run ledgers, protected copies,
and the reference runtimes that start agents and tools. This project models the parts whose
correctness spans several operations or several processes, and proves what they promise over
every input, every interleaving and every stop.

`dafny verify dfyconfig.toml` checks everything. There is one module per component:

| file | component |
|---|---|
| `InstallProtocol.dfy` | install, record, vouch, sign, execute as a transition system: writers and readers under one lock, non-installing appends under none, crashes and lost appends anywhere |
| `ControlRoot.dfy` | the same commands as the program runs them (apply, kill switch, config vouch, config sign, execution read), each writer shown to be a run of that system |
| `FloorProtocol.dfy` | the staleness floor under overlapping pinned readers and exchanged roots, and exactly which exchanges inside a reader's window break it |
| `PinnedReads.dfy` | the install protocol and the floor together: pinned reads over every run of both |
| `ControlLog.dfy` | the ledger's append rule, anchors, expected heads, the last install |
| `TornRepair.dfy` | moving a torn tail aside, with page cache and durable bytes told apart at every step |
| `Completeness.dfy` | the one-pass completeness check and the grammar it recognises |
| `DelegationTree.dfy` | the walk of spawn and parent links, and its exit code |
| `Retention.dfy` | the tree-aware sweep of run ledgers |
| `Supervisor.dfy` | the spawn supervisor's slots, names, stores and directories |
| `Bridge.dfy` | the tool bridge's sessions, children, shutdown and attestations |
| `SinkVerdict.dfy` | the verdicts on protected copies, and what degraded answers can do to them |
| `TokenCache.dfy` | the brokers' token cache under wrapping durations |
| `Codecs.dfy`, `Lines.dfy` | the signature file and the floor line |
| `Bundle.dfy`, `Order.dfy` | configuration directories, bundles and the `files/v1` hash |
| `Prelude.dfy`, `Text.dfy` | shared shapes and character classes |

How the world enters the model:

- A digest is a function parameter. No theorem assumes that it is injective: each concludes what it
  claims, or exhibits two of the very strings hashed that collide.
- A signature is symbolic: a signature file says which key signed its fields, and verifies under that
  key alone. Signing is Ed25519 (section 5.1 of RFC 8032).
- Answers of the operating system, the clock, the network and other processes are parameters (a lock
  answer, a short write, a failed sync, an issuer's grant), so every statement holds for all of them.
- Concurrency is a transition system: each lock-protected section is split wherever another process,
  a reader, or a stop can observe it. `CanRun` and `Run` range over every finite interleaving.

Results a reader of the source might not expect:

- The completeness check cannot see a lost `bounced_back` event: dropping one leaves the report exactly
  as it was (`Completeness.LostBounceIsNotSeen`). Every other single loss is seen.
- The staleness floor relies on the lock. An exchange of the root inside a reader's window can make an
  older or foreign install be accepted after a newer one exactly when the new install would advance the
  floor while some reader may still write another one; over a corrupt floor, exactly when two readers may
  (`FloorProtocol.HarmfulExactly`). The install protocol never does this to its own readers
  (`PinnedReads.WindowHoldsOneInstall`).
- `<id>-<agent>` does not name a compartment uniquely. `Supervisor.NamesMeet` says exactly when two
  meet, and why the supervisor's own table of names is needed.
- The client-credentials cache key is shared by two (resource, issuer) pairs exactly when a NUL shifts
  text from one into the other (`TokenCache.KeysMeet`); without a NUL in a resource id it cannot be.
- The refresh rule counts a token's lifetime from when the answer was read. Counted from when the token
  was issued, every cached serve is in time exactly when the answer took no longer than the time by which
  the refresh comes before the stated expiry, or the wrapped lifetime is never served at all
  (`TokenCache.LatencyWithinSpare`). Where nothing wraps that time is the margin.

## Model

| member | source | states |
|---|---|---|
| `InstallProtocol.StepKeepsInv` | cmd/agenthof/apply.go:194-377 | every step of every process (entering, approving, committing, failing half way through a commit, recording, losing a record, signing, executing, leaving, crashing, appending without the lock, damage, repair of a torn tail, edited snapshots) keeps: writers alone, the chain linked, the pointer equal to the last recorded install exactly when no loss is unvouched, and the installs equal to the pointer's history while nothing was lost |
| `InstallProtocol.RunKeepsInv` | cmd/agenthof/apply.go:194-377 | that invariant over every run |
| `InstallProtocol.ReadersSeeTheRecordedInstall` | cmd/agenthof/main.go:177-233 | in every interleaving, a reader under the shared lock sees no pointer or the last recorded install, if and only if no lost record is still unvouched; without losses the installing records in ledger order are exactly the pointer's values; and a gap or a loss always has a crash or a lost append behind it |
| `InstallProtocol.GapHasACause` | cmd/agenthof/apply.go:350-377 | a gap arises only from a crash between commit and record or an append that left no whole line |
| `InstallProtocol.LossHasACause` | cmd/agenthof/apply.go:350-377 | the history and the ledger part only through such a step |
| `InstallProtocol.GapAbsorbs` | cmd/agenthof/verify.go:320-343 | from a pointer the ledger does not vouch for, no run of any commands installs, signs or executes anything, or changes the pointer, until a vouch reaches the ledger or the pointer is removed |
| `InstallProtocol.GapStep` | cmd/agenthof/verify.go:320-343 | one step of that, for every kind of step, the repair of a torn tail included |
| `InstallProtocol.VersionFollowsInstalls` | internal/control/installing.go:20-41 | the last install's position stays put under any appends that install nothing, and moves strictly past the old end as soon as one does |
| `InstallProtocol.VerifySignature` | cmd/agenthof/verify.go:60-97 | good exactly when the file's every field is this install's and the pinned key signed it; absent, by an unknown key, foreign, newer and badly signed each exactly on its own facts, in that precedence |
| `InstallProtocol.SignatureIsForOneInstall` | cmd/agenthof/verify.go:60-97 | a written signature, over every later run that does not rewrite it, verifies under its own key if and only if nothing was installed since, and is an older install's after any later install, the same bytes re-applied or flipped back included |
| `ControlRoot.StartHolds` | cmd/agenthof/apply.go:194-255 | any chained root at rest, in a gap or not, satisfies the protocol's invariant |
| `ControlRoot.Command.VouchInstalled` | cmd/agenthof/verify.go:320-343 | vouched for, not on record, not verifiable or busy, each exactly when |
| `ControlRoot.Command.Begin` | cmd/agenthof/apply.go:176-212 | a writer goes on exactly when the ledger is whole and writable and the lock is taken; busy, rotation incomplete and damaged each exactly when, unrecorded; a lock fault is noted as a failure |
| `ControlRoot.Command.Authority` | cmd/agenthof/apply.go:214-255 | the authorization read passes exactly on no pointer, or on bytes = pointer = last recorded install; busy exactly when, unrecorded; else the failure or the refusal that is due is recorded, and nothing is moved |
| `ControlRoot.Command.CommitSnapshot` | internal/config/installed.go:260-312 | the pointer moves exactly when the hash is well formed, the snapshot's name is free or holds the same bytes, and every file step succeeds; a failure after the snapshot has its name leaves that inert snapshot and nothing else; any other failure leaves the root as it was |
| `ControlRoot.Command.RecordAndSign` | cmd/agenthof/apply.go:366-399 | the record, confirmed or not, is of this action and extends the recorded installs by exactly this hash; unsigned exactly when a key is configured and cannot be used; a reported signature verifies for this install |
| `ControlRoot.Command.InstallStaged` | cmd/agenthof/apply.go:349-377 | commit, record, sign: moves exactly when the commit can; every outcome's effect on pointer, bytes, record and signature, a commit that fails half way included |
| `ControlRoot.Command.Accept` | cmd/agenthof/apply.go:256-347 | authorization or bootstrap, precondition, staging, validation and the staged hash: goes on exactly when all hold, else ends in the ruling that is due |
| `ControlRoot.Command.ApplyConfig` | cmd/agenthof/apply.go:176-377 | for every request and every answer of the world: each of busy, rotation incomplete, damaged, precondition failed, refused, rejected, failed, not appended and installed exactly when, in the source's order; a recorded refusal carries the proposal's hash, a rejection the staged copy's, a failure none; the pointer moves if and only if the root was on record, the caller and precondition allowed it, the proposal was acceptable and the commit could happen; every other outcome leaves pointer, signatures, recorded installs and every snapshot there was untouched, adding at most the inert snapshot of a commit that failed half way; always a run of the protocol |
| `ControlRoot.Command.RegistryFlip` | cmd/agenthof/main.go:481-687 | the kill switch's every answer exactly when, with the record it leaves; it moves the pointer exactly when installed, on record, authorized, the agent is there and the commit can happen; while nothing is installed it flips the directory exactly when authorized and the agent is there, and its record installs nothing; always a run of the protocol |
| `ControlRoot.Command.FlipInstalled` | cmd/agenthof/main.go:709-817 | the flip of an install moves exactly when the commit can, recorded and signed as an apply is; otherwise nothing but an inert snapshot is left |
| `ControlRoot.Command.ConfigVouch` | cmd/agenthof/config_vouch.go:102-176 | every answer exactly when, with the record it leaves; it records the pointer already there if and only if its bytes match, the apply floor admits it and the ledger does not vouch for it; always a run of the protocol |
| `ControlRoot.Command.ConfigSign` | cmd/agenthof/signing.go:396-453 | signed, or already signed, exactly when the lock is taken, a key is configured, the installed pointer is the last recorded install and the file can be written; then the signature verifies for that install; otherwise nothing changes; always a run of the protocol |
| `ControlRoot.Command.ResolveRunConfig` | cmd/agenthof/main.go:177-233 | what runs is the pointer, exactly when bytes, pointer and last record agree, the registry builds and, when a key is pinned, the signature of that install is good and the floor admits it; pinned, the signature file is this install's in every field and signed by the pinned key; the floor moves only to an install so admitted |
| `ControlRoot.ApplyRulingAnswers` | cmd/agenthof/apply.go:176-377 | the order of an apply's checks gives exactly those answers |
| `ControlRoot.FlipRulingAnswers` | cmd/agenthof/main.go:547-599 | so does the order of a flip's |
| `ControlRoot.VouchRulingAnswers` | cmd/agenthof/config_vouch.go:102-163 | so does the order of a vouch's |
| `ControlRoot.RuledRests` | cmd/agenthof/apply.go:400-470 | a command that ends in a ruling moved nothing, appended exactly the denial's event when it was confirmed, and is a run of the protocol |
| `ControlRoot.InstallLeads` | cmd/agenthof/apply.go:349-399 | whatever an install or a vouch leaves is reached by a run of the protocol's steps |
| `ControlRoot.NoteLeads` | cmd/agenthof/apply.go:418-455 | so is whatever a denial leaves |
| `FloorProtocol.FloorFile.JudgeAndAdvance` | cmd/agenthof/verify.go:385-408 | accepted exactly at or above the floor in its own ledger (and remembered, when advancing); stale, foreign, each exactly when; the floor changes only to an accepted install |
| `FloorProtocol.StepKeepsInv` | cmd/agenthof/verify.go:385-408 | with the floor's read and write as separate steps of overlapping readers, accepted installs stay ordered and the floor never goes back |
| `FloorProtocol.AcceptedNeverGoBack` | cmd/agenthof/verify.go:437-460 | over every run whose root exchanges fall between lock windows, no read accepts an install below or foreign to one accepted earlier, until the floor file is removed |
| `FloorProtocol.FloorNeverRegresses` | cmd/agenthof/verify.go:157-183 | the floor only rises, in its own ledger, while nobody removes or spoils it |
| `FloorProtocol.AcceptedExactlyAtOrAboveTheFloor` | cmd/agenthof/verify.go:385-408 | a verified install is accepted when it is at or above the floor in the same ledger and refused, changing nothing, otherwise |
| `FloorProtocol.HarmfulExactly` | cmd/agenthof/verify.go:370-408 | for every reachable state and every exchange inside a window: some run with no other such exchange accepts an older or foreign install after a newer one if and only if the new install would advance the floor while some reader may still write another (over a corrupt floor: two readers may); a harmless exchange never lets the floor go back either |
| `FloorProtocol.SafeNeverBreaks` | cmd/agenthof/verify.go:370-408 | from any window whose readers hold two installs, one of them settled, every run keeps acceptance ordered and the floor rising |
| `FloorProtocol.ExchangeInsideAWindowBreaksIt` | cmd/agenthof/verify.go:385-408 | a run from a root at rest in which the root is exchanged inside a window and the floor goes from 3 back to 2 |
| `PinnedReads.WindowHoldsOneInstall` | cmd/agenthof/verify.go:381-384 | while anyone holds the shared lock, no step of any command changes the ledger and position a pinned read would verify |
| `PinnedReads.StepKeepsInv` | cmd/agenthof/verify.go:437-460 | every step of the two protocols together, the whole root swapped between windows included, keeps both invariants, and the floor rises unless it is removed or spoilt |
| `PinnedReads.PinnedReadsNeverGoBack` | cmd/agenthof/verify.go:437-460 | over every run of the install protocol with its readers, crashes and lost records, and whole roots swapped between windows, no pinned read accepts an install older than or foreign to one accepted before it until the floor is removed, and the floor only rises while undisturbed |
| `ControlLog.SameHeadSamePrefix` | internal/control/log.go:219-263 | two chains with the same record hash at position n agree on every record up to n, or two records at one position collide |
| `ControlLog.ExpectFixesPrefix` | cmd/agenthof/anchor.go:557-574 | a matching seq:hash expectation fixes the whole prefix |
| `ControlLog.ExpectFixesChain` | cmd/agenthof/anchor.go:557-574 | a matching head expectation fixes the whole chain and its length |
| `ControlLog.OwnHashIsExpected` | cmd/agenthof/anchor.go:557-574 | a chain's own line hash at a position satisfies the expectation for ever, and no other hash does; positions outside it are refused |
| `ControlLog.Ledger.Append` | internal/control/log.go:184-263 | exactly the admitted events are appended, as one record with this event and time at the next logical position, chained to the last record across segments, with the log id on the genesis alone; anything else changes nothing |
| `ControlLog.AdmittedOthers` | internal/control/log.go:95-104 | a record that is not an anchor is admitted exactly without a payload and, unless it succeeded, with a reason |
| `ControlLog.AdmittedFailures` | internal/control/log.go:95-141 | an unsuccessful anchor's exact conditions |
| `ControlLog.AdmittedAnchors` | internal/control/log.go:95-172 | a successful anchor's exact conditions, the coverage of the chain included |
| `ControlLog.GenesisIsForLife` | internal/control/log.go:609-635 | the identity a genesis takes is what every later read finds, under any append and any cut that keeps a record |
| `ControlLog.Ledger.Rotate` | internal/control/log.go:206-218 | a completed rotation leaves the logical chain as it was |
| `ControlLog.CheckAnchors` | internal/control/anchors.go:33-64 | the loop returns the verdicts of every control anchor, in order |
| `ControlLog.ChecksHold` | internal/control/anchors.go:33-64 | exactly the successful anchors not scoped to a run are judged, each against the whole chain |
| `ControlLog.VerdictOn` | internal/control/anchors.go:45-62 | no coverage, malformed, reproduced and another line, each exactly on its facts |
| `ControlLog.ChecksAreStable` | internal/control/anchors.go:33-64 | a verdict on a chain is the verdict on every extension of it |
| `ControlLog.ChecksOfAppend` | internal/control/anchors.go:33-64 | an append adds the verdict on itself and changes no other |
| `ControlLog.HonestAppendKeepsAnchors` | internal/control/log.go:167-172 | any admitted append of an honest event keeps the chain and adds no mismatch |
| `ControlLog.HonestAnchorsNeverMismatch` | internal/control/anchors.go:33-64 | over any history of admitted honest appends, no anchor is a mismatch at any point |
| `ControlLog.AnchorPinsPrefix` | internal/control/anchors.go:33-64 | an anchor reproduced on two chains pins the same prefix of both, or two records collide |
| `ControlLog.RunScopedAnchorsAreSilent` | internal/control/anchors.go:33-64 | a run-scoped anchor of any outcome leaves the verdicts as they were |
| `ControlLog.FindLastInstalling` | internal/control/installing.go:30-41 | returns the record after which none installs, and none only when none does |
| `ControlLog.InstallingExactly` | internal/control/installing.go:20-23 | by action: an apply or a vouch that succeeded with a hash, a flip likewise unless marked bootstrap, and nothing else |
| `TornRepair.Store.WriteTornFragment` | internal/control/log.go:569-594 | succeeds exactly when a name of the series is free and no write, sync or close fails; then the first free name holds the fragment durably; at no step is the ledger or an existing fragment touched |
| `TornRepair.Store.MoveTailAside` | internal/control/log.go:481-524 | succeeds exactly when the active is held, the offset is in range right after the prefix's last line and the file steps succeed; a refusal changes nothing; every step taken is safe |
| `TornRepair.Store.AppendRepair` | internal/control/log.go:531-544 | one record, chained to what the remaining bytes verify to, carrying the fragment's length and hash, or a partial line after the same bytes |
| `TornRepair.Store.Repair` | internal/control/log.go:342-438 | for every reading and every fault: an undamaged or refused ledger is unchanged; a torn tail is cut at the reported offset with every verified record kept, a seal's tail after the records through the seal; success exactly when the active is held, the cut is in range right after the last kept line, a name is free, no file step fails and the rest verifies; every step of any attempt is safe; on success the ledger is the bytes before the cut and the repair record, the seal's segment closed |
| `TornRepair.CandidatesDiffer` | internal/control/log.go:569-576 | the names of the series are all different |
| `TornRepair.SafeSurvives` | internal/control/log.go:546-568 | whatever a stop leaves of a safe disk, durable or cached bytes or any point of a write between them, the original bytes are all to be found and no earlier fragment is lost |
| `TornRepair.EveryStopSurvives` | internal/control/log.go:481-524 | so at every step of every attempt, the ledger is whole, or its prefix and a fresh fragment make up the original |
| `TornRepair.RepairedIsPrefixAndRecord` | internal/control/log.go:370-380 | a successful repair of a verified chain with a damaged tail is that chain plus one repair record, still chained, naming exactly the moved bytes' length and hash |
| `Completeness.Check` | internal/completeness/completeness.go:50-137 | Complete exactly for the ledgers of the declarative grammar, with door_calls both the doors recorded and the doors declared; no claim exactly for a finished, unmarked ledger without one declared count; unterminated exactly on its first and last events; a gap otherwise |
| `Completeness.JudgeIsTheGrammar` | internal/completeness/completeness.go:50-155 | the same of the specification: a lone refusal, or a marked start, windows that declare their own door events, bounces only after a failure, and a consistent finish |
| `Completeness.FinishExactly` | internal/completeness/completeness.go:139-155 | the finish the grammar asks: succeeded after an attempt that succeeded, failed after one that failed, cancelled after anything, no other word |
| `Completeness.VerdictsExactly` | internal/completeness/completeness.go:50-75 | the same of the specification's other verdicts |
| `Completeness.WalkAccepts` | internal/completeness/completeness.go:80-136 | every ledger of the grammar passes |
| `Completeness.WalkSound` | internal/completeness/completeness.go:80-136 | every ledger that passes parses as the grammar |
| `Completeness.WalkCounts` | internal/completeness/completeness.go:80-136 | from any point of a pass: the total is the doors ahead and the doors declared ahead, starts and terminals balance, and no start, finish or refusal is in the middle |
| `Completeness.LostDoorsAreAGap` | internal/completeness/completeness.go:65-136 | dropping any non-empty set of door events from a complete ledger is a gap |
| `Completeness.LostLifecycleEventIsSeen` | internal/completeness/completeness.go:65-136 | dropping any single lifecycle event but a bounce never leaves it complete |
| `Completeness.LostBounceIsNotSeen` | internal/completeness/completeness.go:111-117 | dropping a bounce leaves the report unchanged |
| `Completeness.LostTailIsUnterminated` | internal/completeness/completeness.go:65-67 | every proper prefix of a complete ledger is unterminated |
| `Completeness.LostMarkerIsSeen` | internal/completeness/completeness.go:68-75 | clearing the accounting marker of a complete ledger gives a gap if it has a step window, and no claim if it has none |
| `DelegationTree.VerifyTree` | internal/completeness/tree.go:59-72 | ends on every graph of links; no run is walked twice; exit code 0 implies the walk is exactly the tree; a directory with nothing wrong gives exit code 0; an unfinished root whose named children link back stays unterminated |
| `DelegationTree.Walker.Link` | internal/completeness/tree.go:74-131 | what one run's links establish: new distinct children faithful to their ledgers and, unless something is found wrong, everything marked is spawned below and every ledger naming the run is seen; the verdict stands when every named child links back and, for a finished run, every ledger naming it is named; a finished run not named back, or not scanned, is a gap |
| `DelegationTree.ReverseCheck` | internal/completeness/tree.go:113-130 | a gap exactly when some scanned ledger names the run as parent and no spawn event named it (or there was one already) |
| `DelegationTree.ComputeExitCode` | internal/completeness/tree.go:202-218 | 1 exactly on a failed integrity, else 11 exactly on a gap anywhere, else 12 exactly on an unterminated run, else 0 |
| `DelegationTree.WalkIsTheParentTree` | internal/completeness/tree.go:59-131 | with exit code 0, the walked runs are exactly those whose parent links lead to the root without passing below a no-claim run |
| `DelegationTree.WalkedChildIsSpawned` | internal/completeness/tree.go:74-131 | each walked run but the root names as parent a walked run, one of whose spawn events names it at the depth it records |
| `Retention.PruneRuns` | cmd/agenthof/main.go:2056-2159 | exactly the runs under a root past the cutoff are marked; each deletable file is gone and counted once; with successful deletions exactly those remain that are not doomed; it ends on any graph |
| `Retention.IndexChildren` | cmd/agenthof/main.go:2073-2078 | the index lists exactly the runs with a present parent, under it |
| `Retention.Sweep.Remove` | cmd/agenthof/main.go:2085-2126 | removes the tree below a run, each ledger once, children included |
| `Retention.DoomedWithParent` | cmd/agenthof/main.go:2056-2159 | a run whose parent is present goes if and only if the parent goes |
| `Retention.DoomedRoot` | cmd/agenthof/main.go:2056-2159 | a root goes if and only if it is past the cutoff |
| `Retention.CycleIsNeverDoomed` | cmd/agenthof/main.go:2056-2159 | a group whose parent links form a cycle is never removed |
| `Supervisor.Names` | deploy/refspawn/supervisor.go:165-200 | a request yields its compartment names exactly when the id is valid and does not end in the exec suffix and the agents are distinct valid names with images |
| `Supervisor.Slots.Admit` | deploy/refspawn/supervisor.go:99-119 | live, name taken, cap reached and admitted each exactly when, a set that just fills the cap admitted; then the child, every name and as many slots are claimed, otherwise nothing changes |
| `Supervisor.Slots.Release` | deploy/refspawn/supervisor.go:123-131 | drops exactly the child, its names and its slots |
| `Supervisor.NamesMeet` | deploy/refspawn/podman.go:26-30 | two compartment names are equal exactly for the same id and agent, or when part of the agent name moved into the id across a dash |
| `Supervisor.NamesAloneCollide` | deploy/refspawn/supervisor.go:91-98 | two valid requests whose names are equal |
| `Supervisor.DirsApart` | deploy/refspawn/supervisor.go:265-277 | with the suffix refused, a directory name fixes the child and which of its two directories it is |
| `Supervisor.StepKeepsInv` | deploy/refspawn/supervisor.go:202-218 | every handler's every step keeps the accounts and everyone's holdings |
| `Supervisor.SlotsAreAccounted` | deploy/refspawn/supervisor.go:99-131 | in every interleaving, used slots = held names = the sum over live sets, within the cap, zero when none is live, and no name has two owners |
| `Supervisor.SiblingsUntouched` | deploy/refspawn/supervisor.go:385-427 | no step of one child, teardown and clearing of directories included, changes another's compartments, store or directories |
| `Supervisor.RunLeavesOthersAlone` | deploy/refspawn/supervisor.go:385-427 | over any run of its siblings, a child's set and everything it made stays |
| `Supervisor.AllGoneWhenNoneLive` | deploy/refspawn/supervisor.go:385-427 | when removals succeed, no compartment, store or directory is left whenever no set is live |
| `Supervisor.StoreGoesAfterCompartments` | deploy/refspawn/supervisor.go:381-427 | when removals succeed, a store is removed only once no compartment of its set is there |
| `Supervisor.SlotsAreFreedLast` | deploy/refspawn/supervisor.go:121-131 | and slots and names are given back only once nothing of the set is left on the host |
| `Bridge.Table.Admit` | deploy/refbridge/bridge.go:126-155 | a new session exactly when not closing, new and under the cap, the last one under it included; the wait count rises with the map |
| `Bridge.Session.Ensure` | deploy/refbridge/bridge.go:223-248 | begin, spawn and mirror as the protocol's steps: every field afterwards, for a spawn, a failed spawn, a failed mirror, a child already there and an ended session |
| `Bridge.Session.ChildFor` | deploy/refbridge/bridge.go:358-390 | answers exactly when a child is there and a needed respawn succeeds; the answer names the child, pid and generation taken together; a rotated bearer replaces the child first, and only then; a failed respawn leaves none |
| `Bridge.Session.End` | deploy/refbridge/bridge.go:414-425 | the child is taken once, and the session is ended for good |
| `Bridge.StepKeepsInv` | deploy/refbridge/bridge.go:126-434 | every step keeps: fields describe the child, one process a session, the map holds the sessions not yet removed, the count is those not yet torn down, answers are true |
| `Bridge.OneChildPerSession` | deploy/refbridge/bridge.go:223-248 | in every interleaving two running children belong to different sessions |
| `Bridge.ChildrenWithinCap` | deploy/refbridge/bridge.go:137-140 | running children never exceed sessions, nor sessions the cap |
| `Bridge.NothingSpawnsAfterTeardown` | deploy/refbridge/bridge.go:414-425 | a session that has ended spawns nothing in any run from there |
| `Bridge.NothingSpawnsWithoutABearer` | deploy/refbridge/bridge.go:96-103 | in every interleaving, every child ever spawned had a bearer and belonged to an admitted session |
| `Bridge.ZeroMeansNone` | deploy/refbridge/bridge.go:171-183 | at wait count zero every session is torn down, none is listed and no child runs |
| `Bridge.NoneSurvivesClose` | deploy/refbridge/bridge.go:171-183 | after close has waited, no run brings back a session or a child |
| `Bridge.GenerationNamesChild` | deploy/refbridge/bridge.go:205-220 | a session and a generation name one child of the whole history, whatever pids are reused |
| `Bridge.AttestationsAreTrue` | deploy/refbridge/bridge.go:352-390 | every attestation of every run names the pid and generation of the child that answers, which had a bearer and, under respawn-on-rotation, was spawned with the call's own |
| `SinkVerdict.CopyOf` | cmd/agenthof/sink.go:143-170 | each definitive verdict holds exactly on its facts, so a copy has exactly one of five |
| `SinkVerdict.CopyExactly` | cmd/agenthof/sink.go:170-222 | each verdict from the listing, the body, the retention document and the dates themselves |
| `SinkVerdict.JudgedWhereItIsNamed` | cmd/agenthof/sink.go:397-405 | a copy is judged only in the sink its record names and the posture builds, else unverifiable |
| `SinkVerdict.VerifyCopy` | cmd/agenthof/sink.go:170-264 | the ladder gives that verdict; later versions are only counted |
| `SinkVerdict.DifferingAreCounted` | cmd/agenthof/sink.go:224-238 | the later versions counted as differing are those of another size or another digest |
| `SinkVerdict.UnreadAreCounted` | cmd/agenthof/sink.go:224-238 | those counted as unread are of the right size and could not be read |
| `SinkVerdict.VerifySink` | cmd/agenthof/sink.go:338-489 | both directions' loops give the counts of the pass |
| `SinkVerdict.PassCounts` | cmd/agenthof/sink.go:338-489 | the pass is skipped exactly offline or with no sink and no copy; else its counts are the numbers of copies and of listed objects of each kind |
| `SinkVerdict.IgnoredExactly` | cmd/agenthof/sink.go:445-460 | a listed key counts exactly when it has a version and is the name a seal gives some segment's copy |
| `SinkVerdict.ObjectExactly` | cmd/agenthof/sink.go:461-488 | the object of segment n: accounted exactly when the view's segment names a copy that was not found altered; past the view, in flight, pending or unaccounted exactly on the re-read view |
| `SinkVerdict.UnnamedCopyIsDefinitive` | cmd/agenthof/sink.go:463-470 | an object at a segment whose record names no copy, or an altered one, makes the pass definitive |
| `SinkVerdict.VerdictsAreWhole` | cmd/agenthof/sink.go:271-296 | the five counts sum to the copies; accounted never exceeds held |
| `SinkVerdict.DefinitiveHasAFact` | cmd/agenthof/sink.go:285-292 | definitive if and only if some copy is missing, altered or under-locked, or some listed object is unaccounted for |
| `SinkVerdict.DoubtIsUndecided` | cmd/agenthof/sink.go:294-296 | undecided if and only if some copy has no verdict, the listing was not had, or an object is in flight |
| `SinkVerdict.CopyDegrades` | cmd/agenthof/sink.go:143-170 | answers become errors: a copy keeps its verdict or becomes unverifiable |
| `SinkVerdict.ErrorsNeverConvict` | cmd/agenthof/sink.go:285-292 | degrading any sink answers, the posture read, the backend or the re-read view never makes a verdict definitive |
| `SinkVerdict.LostConvictionIsUndecided` | cmd/agenthof/sink.go:294-296 | and where it takes a definitive verdict away, the pass is undecided, never clean |
| `TokenCache.ServedBeforeExpiry` | internal/broker/clientcreds.go:50-60 | for every expires_in, wrapping included, a token is only served strictly before the stated expiry, with more than thirty seconds or a tenth of the stated lifetime to spare |
| `TokenCache.LatencyWithinSpare` | internal/broker/clientcreds.go:50-60 | for every expires_in: counted from issuance, every cached serve is in time if and only if there is none, or the answer took no longer than the refresh comes before the stated expiry |
| `TokenCache.LatencyWithinMargin` | internal/broker/clientcreds.go:50-60 | where nothing wraps: in time if and only if the answer took no longer than thirty seconds or a tenth of the lifetime, which fixes the refresh time |
| `TokenCache.KeysMeet` | internal/broker/clientcreds.go:89 | exactly when two (resource, issuer) pairs share a key |
| `TokenCache.NulCollides` | internal/broker/clientcreds.go:89 | two pairs that do |
| `TokenCache.KeysWithoutNul` | internal/broker/clientcreds.go:89 | without a NUL in the resource ids the key names the pair |
| `TokenCache.Broker.Resolve` | internal/broker/clientcreds.go:82-108 | refused, served, minted or failed, and the cache afterwards: changed only by a mint, only under its own key |
| `TokenCache.EntriesHaveSources` | internal/broker/tokenexchange.go:95-116 | every entry was obtained by the last minting call of the run for its key |
| `TokenCache.ServedInTime` | internal/broker/tokenexchange.go:95-116 | over any run with a clock that never goes back, a served token is the last one obtained under that key, strictly before the expiry its issuer stated and with the margin to spare, wrapping or not |
| `TokenCache.ServedExactly` | internal/broker/clientcreds.go:82-108 | refused exactly on the call's own fields; served exactly when the last token obtained under its key is still before its refresh time, and then that token; else the issuer's answer |
| `TokenCache.ServedToItsOwner` | internal/broker/tokenexchange.go:95-116 | and was obtained for the same resource and the same subject token, or two subjects' digests collide |
| `Codecs.FloorRoundTrip` | internal/config/verifyfloor.go:26-59 | parsing a printed floor returns it |
| `Codecs.FloorIsReprinted` | internal/config/verifyfloor.go:33-59 | reprinting an accepted line gives the same bytes |
| `Codecs.FloorIsCanonical` | internal/config/verifyfloor.go:26-59 | accepted exactly when some floor prints it, and two accepted lines with one floor are one line |
| `Codecs.SignatureRoundTrip` | internal/config/signaturefile.go:45-124 | parsing a printed signature file returns every field and the payload |
| `Codecs.SignatureIsReprinted` | internal/config/signaturefile.go:59-124 | reprinting an accepted file gives the same bytes, over the canonical payload of its fields |
| `Codecs.SignatureIsCanonical` | internal/config/signature.go:53-72 | two accepted files with the same fields are the same file |
| `Bundle.HashDir` | internal/config/hash.go:37-51 | a directory hashes over its listed files in order; a missing root or one unreadable file is an error |
| `Bundle.HashFiles` | internal/config/hash.go:58-69 | a map hashes over its keys in bundle order; one invalid path is an error |
| `Bundle.ReadBundle` | internal/config/bundle.go:103-120 | the bundle is exactly what the enumeration lists, unless a name is not bundleable or a file unreadable |
| `Bundle.SameOrder` | internal/config/bundle.go:68-94 | a bundle's order is the directory's enumeration order |
| `Bundle.ListedExactly` | internal/config/load.go:17-49 | a group's entry is listed exactly when it is not a directory and ends in .yaml or .yml, and gateway.yaml exactly when there is such a name |
| `Bundle.ListedIsPlaced` | internal/config/load.go:42-49 | nothing else is listed |
| `Bundle.OrderIsCanonical` | internal/config/bundle.go:68-94 | agents before workflows before roles before the gateway, and by the full path within a group |
| `Bundle.ValidExactly` | internal/config/bundle.go:37-66 | a bundle path is exactly gateway.yaml, or a group and a plain name of at most 200 characters with either extension |
| `Bundle.FrameOfOne` | internal/config/hash.go:22-27 | a file's frame is the digest of its path and then of its bytes |
| `Bundle.FramesOfMany` | internal/config/hash.go:13-27 | and the frames of a list follow one another |
| `Bundle.BundleHashesAsItsDirectory` | internal/config/bundle.go:96-103 | for every directory with bundleable names, the bundle read hashes as the directory does |
| `Bundle.FramesAreInjective` | internal/config/hash.go:22-27 | equal frames list the same files with the same bytes, or a path or a file's bytes collide |
| `Bundle.EqualHashesAreEqualBundles` | internal/config/hash.go:53-69 | two bundles with one hash are the same map, or two of the strings hashed for them collide |
| `Bundle.LookupAfterPut` | internal/config/bundle.go:214-233 | a written file is found at its path and every other path is as it was |
| `Bundle.BundleOrderIsDistinct` | internal/config/bundle.go:73-94 | no key is listed twice, so no exclusive create can meet its own file |
| `Bundle.Target.WriteBundle` | internal/config/bundle.go:193-209 | all or nothing: succeeds exactly on valid paths, no target yet and no failing write, and then reads back as the same map; otherwise the target is as it was |
| `Bundle.WrittenHashesAlike` | internal/config/bundle.go:181-192 | a written bundle's directory hashes as the bundle |
| `Order.OrderedIsIncreasing` | internal/config/load.go:36-40 | the order of names is a strict sort |
| `Order.LeqExactly` | internal/config/load.go:36-40 | the order itself: a prefix first, else the first different character decides |
| `Order.OrderedUnderPrefix` | internal/config/bundle.go:86-90 | sorting names and prefixing them is sorting the full keys |

## Left out

- SHA-256, Ed25519, ECDSA and base64: digests are parameters, signatures symbolic; whether a text is base64 of 64 bytes is a parameter of the signature parser.
- RFC 3339 rendering: times are instants, and the signature file's `installed_at` is the already rendered text.
- A signature file that does not parse: the protocol's signatures are parsed values, so the malformed verdict is `Codecs`' alone.
- The Rekor client and Merkle inclusion proofs.
- InstallProtocol.GapStep: covers the repair of a torn tail, which keeps every verified record; the repair that moves well-formed records after a seal line aside can take installs with them, and is a step of `TornRepair` only.
- ControlLog.Ledger.Append: the shape rules put on seal and restore events, and failures to open or lock the ledger, are not modelled.
- Sealing, rotation, restore and manifest reading: a completed rotation is one step that keeps the logical chain; the rotation within a repair either happens or not.
- `internal/ledger` itself: what bytes verify to is a parameter of the repair, and a record stands for its line.
- TornRepair.Store.Repair: the directory entry of a created fragment is taken to survive a stop, and the active is taken to be settled when the repair begins; the source syncs file contents only.
- ControlRoot.Command.ApplyConfig: the bootstrap mark of a first apply's record, reason texts and a caller whose token was refused before the lock are not modelled.
- YAML and JSON decoding, integrity.yaml shapes, configuration validation: a proposal is acceptable or not.
- Printed lines, exit-code tables other than the tree's, flag parsing, HTTP handlers and API types.
- ControlRoot.Command.RegistryFlip: the bootstrap-era edit of the directory itself and its own failures are not modelled, only its record.
- HTTP bodies of the token grants, S3, podman and Seatbelt: only whether they answered, and what.
- Supervisor.SlotsAreAccounted: readiness waiting, the executor process and the start-up reap are not modelled, and compartments and stores are separate name spaces, as they are for podman.
- Bridge.AttestationsAreTrue: the environment names and command line of the attestation are not modelled, and a call's own traffic with the child happens after its answer is composed.
- Retention.PruneRuns: the directory listing and the parent scan are taken to see the same files, and the removal of anchor proofs beside the ledgers is not modelled.
- TokenCache.Broker.Resolve: `time.Time` is unbounded, so overflow of the clock itself is not modelled; overflow of the duration is.
- Bundle.Target.WriteBundle: file modes and a file system that normalizes names are not modelled; names are sequences of characters compared by code.
- The agent adapter (its message loop), the example agents, the shell scripts and the reference runtimes' configuration parsers are not modelled.
