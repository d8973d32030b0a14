/**
  Repairing a torn control ledger (internal/control/log.go Repair, moveTailAside, writeTornFragment,
  appendRepair).

  A file is two strings: what is durable and what the page cache holds. A stop may leave either, or
  any point of a write between them. `history` records the disk after every step, so a claim about
  every entry of it is a claim about a stop between any two steps.
 */
module TornRepair {
  import opened Prelude
  import opened Lines
  import opened ControlLog

  datatype FileState = FileState(durable: string, cached: string)

  datatype Disk = Disk(segments: string, active: FileState, fragments: map<string, FileState>)

  /** What is found after a stop. */
  datatype Image = Image(segments: string, active: string, fragments: map<string, string>)

  const MAX_ATTEMPTS := 1000

  // ---------------------------------------------------------------- stops

  ghost predicate MayLeave(f: FileState, found: string) {
    found == f.durable || found == f.cached || (f.durable <= found && found <= f.cached)
  }

  ghost predicate StopLeaves(d: Disk, image: Image) {
    && image.segments == d.segments && MayLeave(d.active, image.active)
    && image.fragments.Keys == d.fragments.Keys
    && forall n :: n in d.fragments ==> MayLeave(d.fragments[n], image.fragments[n])
  }

  function Settled(bytes: string): FileState { FileState(bytes, bytes) }

  /** The ledger's bytes: the sealed segments' and the active's. */
  function Whole(d: Disk): string { d.segments + d.active.cached }

  /** No fragment that was there has been touched. */
  ghost predicate Kept(before: map<string, FileState>, now: map<string, FileState>) {
    forall n :: n in before ==> n in now && now[n] == before[n]
  }

  /** A fragment file that was not there before holds exactly these bytes, durably. */
  ghost predicate Evidence(before: map<string, FileState>, now: map<string, FileState>, bytes: string) {
    exists n :: n in now && n !in before && now[n] == Settled(bytes)
  }

  ghost predicate Beyond(prefix: string, d: Disk) {
    prefix <= d.segments + d.active.durable && prefix <= d.segments + d.active.cached
  }

  /** The ledger is as it was, or everything from `cut` on is in a fragment and everything before it in the ledger. */
  ghost predicate Safe(before: Disk, cut: nat, d: Disk)
    requires cut <= |Whole(before)|
  {
    && Kept(before.fragments, d.fragments)
    && (|| (d.segments == before.segments && d.active == before.active)
        || (Evidence(before.fragments, d.fragments, Whole(before)[cut..]) && Beyond(Whole(before)[..cut], d)))
  }

  ghost predicate Survives(before: Disk, cut: nat, image: Image)
    requires cut <= |Whole(before)|
  {
    var raw, found := Whole(before), image.segments + image.active;
    && (forall n :: n in before.fragments ==> n in image.fragments && MayLeave(before.fragments[n], image.fragments[n]))
    && (|| found == raw
        || (raw[..cut] <= found &&
            exists n :: n in image.fragments && n !in before.fragments && raw[..cut] + image.fragments[n] == raw))
  }

  lemma PrefixBetween(segments: string, f: FileState, found: string, prefix: string)
    requires MayLeave(f, found) && prefix <= segments + f.durable && prefix <= segments + f.cached
    ensures prefix <= segments + found
  {
    if f.durable <= found {
      assert segments + f.durable <= segments + found;
    }
  }

  /** Whatever a stop leaves of a safe disk, the original bytes are all there. */
  lemma SafeSurvives(before: Disk, cut: nat, d: Disk, image: Image)
    requires cut <= |Whole(before)| && before.active.durable == before.active.cached
    requires Safe(before, cut, d) && StopLeaves(d, image)
    ensures Survives(before, cut, image)
  {
    var raw := Whole(before);
    if !(d.segments == before.segments && d.active == before.active) {
      PrefixBetween(d.segments, d.active, image.active, raw[..cut]);
      var n :| n in d.fragments && n !in before.fragments && d.fragments[n] == Settled(raw[cut..]);
      assert image.fragments[n] == raw[cut..] && raw[..cut] + raw[cut..] == raw;
    } else {
      assert MayLeave(before.active, image.active);
    }
  }

  ghost predicate AllSafe(before: Disk, cut: nat, steps: seq<Disk>)
    requires cut <= |Whole(before)|
  {
    forall i :: 0 <= i < |steps| ==> Safe(before, cut, steps[i])
  }

  // ---------------------------------------------------------------- the fragment file

  function Candidate(root: string, attempt: nat): string {
    if attempt == 0 then root else root + "-" + Itoa(attempt + 1)
  }

  /** How the operating system answers: an open that fails otherwise than by existing, a short write, failed syncs. */
  datatype Faults = Faults(
    open: bool, write: Option<nat>, sync: bool, close: bool,
    truncate: bool, syncActive: bool, append: Option<nat>, syncAppend: bool)

  /** What reading the ledger reported. */
  datatype Reading =
    | Sound
    | OtherFault
    | Damaged(offset: Option<int>, records: seq<Record>, sealAt: Result<Option<nat>>)

  datatype RepairResult = RepairResult(fragmentLen: nat, fragmentSHA: string)

  function RepairEvent(res: RepairResult): Event {
    Event(Repairing, Success, false, "", false, None, Some(Fragment(res.fragmentLen, res.fragmentSHA)))
  }

  /** The first name of the series that is not taken. */
  ghost predicate FirstFree(root: string, taken: map<string, FileState>, a: nat) {
    && a < MAX_ATTEMPTS && Candidate(root, a) !in taken
    && forall b :: 0 <= b < a ==> Candidate(root, b) in taken
  }

  ghost predicate HasFree(root: string, taken: map<string, FileState>) { exists a :: FirstFree(root, taken, a) }

  predicate Writes(io: Faults) { io.write.None? && !io.sync && !io.close }

  predicate Cuts(io: Faults) { !io.open && Writes(io) && !io.truncate && !io.syncActive }

  predicate Appends(io: Faults) { io.append.None? && !io.syncAppend }

  predicate Refuses(line: Record -> string, raw: string, offset: int, prefix: seq<Record>) {
    || offset < 0 || offset > |raw|
    || (|prefix| > 0 && !HasSuffix(raw[..offset], line(prefix[|prefix| - 1]) + "\n"))
  }

  predicate HasSuffix(s: string, t: string) { |t| <= |s| && s[|s| - |t|..] == t }

  /** The ledger is as it was, and so is every earlier fragment. */
  ghost predicate SameLedger(before: Disk, d: Disk) {
    d.segments == before.segments && d.active == before.active && Kept(before.fragments, d.fragments)
  }

  ghost predicate Untouched(before: Disk, was: seq<Disk>, history: seq<Disk>) {
    was <= history && forall i :: |was| <= i < |history| ==> SameLedger(before, history[i])
  }

  lemma UntouchedStep(before: Disk, was: seq<Disk>, history: seq<Disk>, d: Disk)
    requires Untouched(before, was, history) && SameLedger(before, d)
    ensures Untouched(before, was, history + [d])
  {
  }

  ghost predicate Cut(before: Disk, offset: int, d: Disk) {
    && 0 <= offset <= |before.active.cached|
    && d.segments == before.segments && d.active == Settled(before.active.cached[..offset])
    && Kept(before.fragments, d.fragments)
    && Evidence(before.fragments, d.fragments, before.active.cached[offset..])
  }

  lemma UntouchedIsSafe(before: Disk, cut: nat, was: seq<Disk>, history: seq<Disk>)
    requires cut <= |Whole(before)| && Untouched(before, was, history)
    ensures AllSafe(before, cut, history[|was|..])
  {
    forall i | 0 <= i < |history| - |was| ensures Safe(before, cut, history[|was|..][i]) {
      assert history[|was|..][i] == history[|was| + i];
    }
  }

  lemma CutIsSafe(before: Disk, offset: nat, d: Disk)
    requires before.active.durable == before.active.cached && offset <= |before.active.cached|
    requires d.segments == before.segments && d.active.cached == before.active.cached[..offset]
    requires d.active.durable == d.active.cached || d.active.durable == before.active.cached
    requires Kept(before.fragments, d.fragments)
    requires Evidence(before.fragments, d.fragments, before.active.cached[offset..])
    ensures Safe(before, |before.segments| + offset, d)
  {
    var raw, cut := Whole(before), |before.segments| + offset;
    assert raw[cut..] == before.active.cached[offset..];
    assert raw[..cut] == before.segments + before.active.cached[..offset];
    assert raw[..cut] <= raw;
  }

  function RepairRecord(digest: Digest, rs: seq<Record>, res: RepairResult, time: int, newID: string): Record {
    NextRecord(digest, rs, RepairEvent(res), time, newID)
  }

  /** The bytes of a list of records, one line each. */
  function BytesOf(line: Record -> string, rs: seq<Record>): string {
    if rs == [] then "" else BytesOf(line, rs[..|rs| - 1]) + (line(rs[|rs| - 1]) + "\n")
  }

  ghost predicate Grown(before: Disk, d: Disk) {
    && d.segments == before.segments && d.fragments == before.fragments
    && before.active.cached <= d.active.durable && before.active.cached <= d.active.cached
  }

  ghost predicate Rotated(before: Disk, d: Disk) {
    && d.segments == before.segments + before.active.cached && d.active == Settled("")
    && d.fragments == before.fragments
  }

  function ResultOf(sha: string -> string, raw: string, offset: int): RepairResult
    requires 0 <= offset <= |raw|
  {
    RepairResult(|raw| - offset, sha(raw[offset..]))
  }

  /** The ledger is what came before the cut and the repair's record; the fragment holds the rest. */
  ghost predicate Repaired(
    line: Record -> string, digest: Digest, sha: string -> string, verify: string -> Option<seq<Record>>,
    before: Disk, offset: int, res: RepairResult, time: int, newID: string, now: Disk)
  {
    && 0 <= offset <= |before.active.cached|
    && res == ResultOf(sha, before.active.cached, offset)
    && Evidence(before.fragments, now.fragments, before.active.cached[offset..])
    && now.active.durable == now.active.cached
    && var kept := Whole(before)[..|before.segments| + offset];
       && verify(kept).Some?
       && Whole(now) == kept + (line(RepairRecord(digest, verify(kept).value, res, time, newID)) + "\n")
  }

  /** What holds of an attempt to cut at `offset`, however far it got. */
  ghost predicate Attempted(before: Disk, offset: int, was: seq<Disk>, history: seq<Disk>, now: Disk) {
    && was <= history && Kept(before.fragments, now.fragments)
    && if 0 <= offset <= |before.active.cached|
       then
         && AllSafe(before, |before.segments| + offset, history[|was|..])
         && Safe(before, |before.segments| + offset, now)
       else now == before && history == was
  }

  ghost predicate AllGrown(mid: Disk, steps: seq<Disk>, history: seq<Disk>) {
    steps <= history && forall i :: |steps| <= i < |history| ==> Grown(mid, history[i])
  }

  /** One record more, durably, chained to what the bytes verified to. */
  ghost predicate Recorded(
    line: Record -> string, digest: Digest, verify: string -> Option<seq<Record>>,
    mid: Disk, res: RepairResult, time: int, newID: string, now: Disk)
  {
    && verify(Whole(mid)).Some?
    && now.active == Settled(mid.active.cached +
         (line(RepairRecord(digest, verify(Whole(mid)).value, res, time, newID)) + "\n"))
  }

  /**
    Nothing stands in the way of a repair that cuts at `offset` behind `prefix`: the active is held, the cut is
    in range and right after the last verified line, some name of the series is free, no file operation fails,
    a seal to complete is completed, and what the cut leaves verifies.
   */
  ghost predicate Succeeds(
    line: Record -> string, verify: string -> Option<seq<Record>>,
    before: Disk, root: string, offset: int, prefix: seq<Record>, held: bool, seal: Option<bool>, io: Faults)
  {
    && held && 0 <= offset <= |before.active.cached|
    && (prefix != [] ==> EndsIn(before.active.cached[..offset], line(prefix[|prefix| - 1]) + "\n"))
    && (exists a :: 0 <= a < MAX_ATTEMPTS && Candidate(root, a) !in before.fragments)
    && !io.open && io.write.None? && !io.sync && !io.close && !io.truncate && !io.syncActive
    && seal != Some(false) && io.append.None? && !io.syncAppend
    && verify(Whole(before)[..|before.segments| + offset]).Some?
  }

  ghost predicate EndsIn(s: string, t: string) { exists stem :: s == stem + t }

  lemma SuffixIsEnd(s: string, t: string)
    ensures HasSuffix(s, t) <==> EndsIn(s, t)
  {
    if HasSuffix(s, t) { assert s == s[..|s| - |t|] + t; }
  }

  lemma {:induction false} SomeFreeIsFirstFree(root: string, taken: map<string, FileState>, a: nat)
    requires a < MAX_ATTEMPTS && Candidate(root, a) !in taken
    ensures HasFree(root, taken)
  {
    if b :| 0 <= b < a && Candidate(root, b) !in taken {
      SomeFreeIsFirstFree(root, taken, b);
    } else {
      assert FirstFree(root, taken, a);
    }
  }

  /** The names of the series are all different, so a thousand attempts are a thousand names. */
  lemma CandidatesDiffer(root: string, a: nat, b: nat)
    requires Candidate(root, a) == Candidate(root, b)
    ensures a == b
  {
    ItoaIsShortest(a + 1);
    ItoaIsShortest(b + 1);
    if a > 0 && b > 0 {
      var x, y := Itoa(a + 1), Itoa(b + 1);
      assert x == (root + "-" + x)[|root| + 1..] && y == (root + "-" + y)[|root| + 1..];
    }
  }

  lemma SucceedsMeans(
    line: Record -> string, verify: string -> Option<seq<Record>>,
    before: Disk, root: string, offset: int, prefix: seq<Record>, held: bool, seal: Option<bool>, io: Faults)
    ensures Succeeds(line, verify, before, root, offset, prefix, held, seal, io) <==>
              && held && !Refuses(line, before.active.cached, offset, prefix) && HasFree(root, before.fragments)
              && Cuts(io) && seal != Some(false) && Appends(io)
              && verify(Whole(before)[..|before.segments| + offset]).Some?
  {
    if 0 <= offset <= |before.active.cached| && prefix != [] {
      SuffixIsEnd(before.active.cached[..offset], line(prefix[|prefix| - 1]) + "\n");
    }
    if a :| 0 <= a < MAX_ATTEMPTS && Candidate(root, a) !in before.fragments {
      SomeFreeIsFirstFree(root, before.fragments, a);
    }
  }

  lemma SealedIsAttempted(
    before: Disk, offset: int, cutAt: Disk, now: Disk, was: seq<Disk>, steps: seq<Disk>, history: seq<Disk>, done: bool)
    requires Cut(before, offset, cutAt) && Attempted(before, offset, was, steps, cutAt) && steps <= history
    requires forall i :: |steps| <= i < |history| ==> Rotated(cutAt, history[i])
    requires if done then Rotated(cutAt, now) else now == cutAt
    ensures Attempted(before, offset, was, history, now) && AfterCut(before, offset, now)
    ensures done ==> now.segments == before.segments + before.active.cached[..offset]
  {
    CutWhole(before, offset, cutAt);
    StepsAfterCutAreSafe(before, offset, cutAt, was, steps, history);
    if done {
      AfterCutIsSafe(before, offset, cutAt, now);
      assert Whole(now) == Whole(cutAt) + "" == Whole(cutAt);
    }
  }

  lemma RecordedIsAttempted(
    before: Disk, offset: nat, mid: Disk, now: Disk, was: seq<Disk>, steps: seq<Disk>, history: seq<Disk>)
    requires offset <= |before.active.cached| && AfterCut(before, offset, mid)
    requires Attempted(before, offset, was, steps, mid) && AllGrown(mid, steps, history) && Grown(mid, now)
    ensures Attempted(before, offset, was, history, now)
  {
    StepsAfterCutAreSafe(before, offset, mid, was, steps, history);
    AfterCutIsSafe(before, offset, mid, now);
  }

  lemma RecordedIsRepaired(
    line: Record -> string, digest: Digest, sha: string -> string, verify: string -> Option<seq<Record>>,
    before: Disk, offset: nat, res: RepairResult, time: int, newID: string, mid: Disk, now: Disk)
    requires offset <= |before.active.cached| && AfterCut(before, offset, mid) && Grown(mid, now)
    requires res == ResultOf(sha, before.active.cached, offset)
    requires Recorded(line, digest, verify, mid, res, time, newID, now)
    ensures Repaired(line, digest, sha, verify, before, offset, res, time, newID, now)
  {
    var text := line(RepairRecord(digest, verify(Whole(mid)).value, res, time, newID)) + "\n";
    assert now.segments + (mid.active.cached + text) == Whole(mid) + text;
  }

  lemma CutWhole(before: Disk, offset: int, d: Disk)
    requires Cut(before, offset, d)
    ensures Whole(d) == Whole(before)[..|before.segments| + offset]
    ensures before.active.cached[offset..] == Whole(before)[|before.segments| + offset..]
  {
  }

  /** A disk that still begins with what the cut left, and still holds the fragment. */
  ghost predicate AfterCut(before: Disk, offset: nat, d: Disk)
    requires offset <= |before.active.cached|
  {
    && Whole(d) == Whole(before)[..|before.segments| + offset]
    && d.active.durable == d.active.cached
    && Kept(before.fragments, d.fragments)
    && Evidence(before.fragments, d.fragments, before.active.cached[offset..])
  }

  lemma AfterCutIsSafe(before: Disk, offset: nat, mid: Disk, d: Disk)
    requires offset <= |before.active.cached| && AfterCut(before, offset, mid)
    requires Grown(mid, d) || Rotated(mid, d)
    ensures Safe(before, |before.segments| + offset, d)
  {
    var cut := |before.segments| + offset;
    assert before.active.cached[offset..] == Whole(before)[cut..];
    if Grown(mid, d) {
      assert Whole(mid) <= d.segments + d.active.durable && Whole(mid) <= d.segments + d.active.cached;
    } else {
      assert d.segments + "" == Whole(mid);
    }
  }

  lemma StepsAfterCutAreSafe(
    before: Disk, offset: nat, mid: Disk, was: seq<Disk>, steps: seq<Disk>, history: seq<Disk>)
    requires offset <= |before.active.cached| && AfterCut(before, offset, mid)
    requires was <= steps && steps <= history && AllSafe(before, |before.segments| + offset, steps[|was|..])
    requires forall i :: |steps| <= i < |history| ==> Grown(mid, history[i]) || Rotated(mid, history[i])
    ensures AllSafe(before, |before.segments| + offset, history[|was|..])
  {
    var cut := |before.segments| + offset;
    forall i | 0 <= i < |history| - |was| ensures Safe(before, cut, history[|was|..][i]) {
      var d := history[|was| + i];
      if |was| + i < |steps| {
        assert d == steps[|was|..][i];
      } else {
        AfterCutIsSafe(before, offset, mid, d);
      }
    }
  }

  class Store {
    const line: Record -> string
    const digest: Digest
    const sha: string -> string
    /** The records a ledger's bytes verify to, if they verify. */
    const verify: string -> Option<seq<Record>>

    var segments: string
    var active: FileState
    var fragments: map<string, FileState>
    ghost var history: seq<Disk>

    ghost function Now(): Disk reads this { Disk(segments, active, fragments) }

    constructor (line: Record -> string, digest: Digest, sha: string -> string,
                 verify: string -> Option<seq<Record>>, disk: Disk)
      ensures Now() == disk && history == []
    {
      this.line, this.digest, this.sha, this.verify := line, digest, sha, verify;
      segments, active, fragments, history := disk.segments, disk.active, disk.fragments, [];
    }

    /** One step on a file that was not there before. */
    method Touch(candidate: string, f: FileState, ghost before: Disk, ghost was: seq<Disk>)
      requires candidate !in before.fragments && SameLedger(before, Now()) && Untouched(before, was, history)
      modifies this`fragments, this`history
      ensures fragments == old(fragments)[candidate := f]
      ensures SameLedger(before, Now()) && Untouched(before, was, history)
    {
      fragments := fragments[candidate := f];
      UntouchedStep(before, was, history, Now());
      history := history + [Now()];
    }

    /** A fresh file filled and synced, step by step. */
    method Fill(candidate: string, fragment: string, io: Faults) returns (ok: bool)
      requires candidate !in fragments
      modifies this`fragments, this`history
      ensures ok == Writes(io)
      ensures ok ==> fragments == old(fragments)[candidate := Settled(fragment)]
      ensures Kept(old(fragments), fragments)
      ensures Untouched(old(Now()), old(history), history)
    {
      ghost var before := Now();
      Touch(candidate, Settled(""), before, old(history));
      if io.write.Some? {
        var short := if io.write.value <= |fragment| then io.write.value else |fragment|;
        Touch(candidate, FileState("", fragment[..short]), before, old(history));
        return false;
      }
      Touch(candidate, FileState("", fragment), before, old(history));
      if io.sync {
        return false;
      }
      Touch(candidate, Settled(fragment), before, old(history));
      return !io.close;
    }

    /** Writes the fragment to the first free name, synced; nothing else is touched. */
    method WriteTornFragment(root: string, fragment: string, io: Faults) returns (ok: bool)
      modifies this`fragments, this`history
      ensures ok <==> HasFree(root, old(fragments)) && !io.open && Writes(io)
      ensures ok ==> exists a :: FirstFree(root, old(fragments), a) &&
                       fragments == old(fragments)[Candidate(root, a) := Settled(fragment)]
      ensures ok ==> Evidence(old(fragments), fragments, fragment)
      ensures Kept(old(fragments), fragments)
      ensures Untouched(old(Now()), old(history), history)
    {
      for attempt := 0 to MAX_ATTEMPTS
        invariant fragments == old(fragments) && history == old(history)
        invariant forall a :: 0 <= a < attempt ==> Candidate(root, a) in fragments
      {
        var candidate := Candidate(root, attempt);
        if candidate in fragments {
          continue;
        }
        if io.open {
          return false;
        }
        assert FirstFree(root, old(fragments), attempt);
        ok := Fill(candidate, fragment, io);
        return;
      }
      return false;
    }

    /** The one destructive step: the tail is copied aside, then cut; or nothing of the ledger changes. */
    method MoveTailAside(root: string, offset: int, prefix: seq<Record>, held: bool, io: Faults)
      returns (res: Result<RepairResult>)
      requires active.durable == active.cached
      modifies this`fragments, this`active, this`history
      ensures res.Ok? <==> held && !Refuses(line, old(active).cached, offset, prefix) &&
                           HasFree(root, old(fragments)) && Cuts(io)
      ensures !held || Refuses(line, old(active).cached, offset, prefix) ==>
                res.Err? && Now() == old(Now()) && history == old(history)
      ensures res.Ok? ==> Cut(old(Now()), offset, Now())
      ensures res.Ok? ==> res.value == ResultOf(sha, old(active).cached, offset)
      ensures Attempted(old(Now()), offset, old(history), history, Now())
    {
      ghost var before := Now();
      if !held {
        return Err;
      }
      var raw := active.cached;
      if Refuses(line, raw, offset, prefix) {
        return Err;
      }
      var fragment := raw[offset..];
      ghost var cut := |segments| + offset;
      var ok := WriteTornFragment(root, fragment, io);
      UntouchedIsSafe(before, cut, old(history), history);
      if !ok || io.truncate {
        return Err;
      }
      active := FileState(active.durable, raw[..offset]);
      CutIsSafe(before, offset, Now());
      history := history + [Now()];
      if io.syncActive {
        return Err;
      }
      active := Settled(active.cached);
      CutIsSafe(before, offset, Now());
      history := history + [Now()];
      return Ok(RepairResult(|fragment|, sha(fragment)));
    }

    /** The record of the repair, at the position the remaining bytes verify to. */
    method AppendRepair(res: RepairResult, time: int, newID: string, io: Faults) returns (ok: bool)
      requires active.durable == active.cached
      modifies this`active, this`history
      ensures AllGrown(old(Now()), old(history), history) && Grown(old(Now()), Now())
      ensures ok <==> verify(Whole(old(Now()))).Some? && Appends(io)
      ensures ok ==> Recorded(line, digest, verify, old(Now()), res, time, newID, Now())
    {
      ghost var before := Now();
      var records := verify(segments + active.cached);
      if records.None? {
        return false;
      }
      var text := line(RepairRecord(digest, records.value, res, time, newID)) + "\n";
      if io.append.Some? {
        var short := if io.append.value <= |text| then io.append.value else |text|;
        active := FileState(active.durable, active.cached + text[..short]);
        history := history + [Now()];
        return false;
      }
      active := FileState(active.durable, active.cached + text);
      history := history + [Now()];
      if io.syncAppend {
        return false;
      }
      active := Settled(active.cached);
      history := history + [Now()];
      return true;
    }

    /** Completing the seal of an active that ends at its seal line: the segment is closed, a new active begins. */
    method CompleteSeal(succeeds: bool) returns (ok: bool)
      requires active.durable == active.cached
      modifies this`segments, this`active, this`history
      ensures ok == succeeds && active.durable == active.cached && old(history) <= history
      ensures Whole(Now()) == Whole(old(Now())) && fragments == old(fragments)
      ensures if ok then Rotated(old(Now()), Now()) else Now() == old(Now())
      ensures forall i :: |old(history)| <= i < |history| ==> Rotated(old(Now()), history[i])
    {
      if succeeds {
        segments, active := segments + active.cached, Settled("");
        history := history + [Now()];
      }
      return succeeds;
    }

    method Offset(sealed: seq<Record>) returns (offset: nat)
      ensures offset == |BytesOf(line, sealed)|
    {
      offset := 0;
      for i := 0 to |sealed|
        invariant offset == |BytesOf(line, sealed[..i])|
      {
        assert sealed[..i + 1][..i] == sealed[..i];
        offset := offset + |line(sealed[i])| + 1;
      }
      assert sealed[..|sealed|] == sealed;
    }

    /** Cut, and complete the seal if there is one to complete. */
    method CutAndSeal(root: string, offset: int, prefix: seq<Record>, held: bool, seal: Option<bool>, io: Faults)
      returns (res: Result<RepairResult>)
      requires active.durable == active.cached
      modifies this
      ensures Attempted(old(Now()), offset, old(history), history, Now())
      ensures res.Ok? <==> held && !Refuses(line, old(active).cached, offset, prefix) &&
                           HasFree(root, old(fragments)) && Cuts(io) && seal != Some(false)
      ensures res.Ok? ==> 0 <= offset <= |old(active).cached| && AfterCut(old(Now()), offset, Now())
      ensures res.Ok? ==> res.value == ResultOf(sha, old(active).cached, offset)
      ensures res.Ok? ==> segments == old(segments) + if seal.Some? then old(active).cached[..offset] else ""
    {
      ghost var before := Now();
      res := MoveTailAside(root, offset, prefix, held, io);
      if res.Err? {
        return;
      }
      ghost var steps, cutAt := history, Now();
      CutWhole(before, offset, cutAt);
      if seal.None? {
        return;
      }
      var done := CompleteSeal(seal.value);
      SealedIsAttempted(before, offset, cutAt, Now(), old(history), steps, history, done);
      if !done {
        return Err;
      }
    }

    method CutSealAndRecord(root: string, offset: int, prefix: seq<Record>, held: bool, seal: Option<bool>,
                            time: int, newID: string, io: Faults) returns (res: Result<RepairResult>)
      requires active.durable == active.cached
      modifies this
      ensures Attempted(old(Now()), offset, old(history), history, Now())
      ensures res.Ok? <==> Succeeds(line, verify, old(Now()), root, offset, prefix, held, seal, io)
      ensures res.Ok? ==> Repaired(line, digest, sha, verify, old(Now()), offset, res.value, time, newID, Now())
      ensures res.Ok? ==> segments == old(segments) + if seal.Some? then old(active).cached[..offset] else ""
    {
      ghost var before := Now();
      SucceedsMeans(line, verify, before, root, offset, prefix, held, seal, io);
      res := CutAndSeal(root, offset, prefix, held, seal, io);
      if res.Err? {
        return;
      }
      ghost var mid, steps := Now(), history;
      var ok := AppendRepair(res.value, time, newID, io);
      RecordedIsAttempted(before, offset, mid, Now(), old(history), steps, history);
      if !ok {
        return Err;
      }
      RecordedIsRepaired(line, digest, sha, verify, before, offset, res.value, time, newID, mid, Now());
    }

    /**
      Repairs a damaged active. At every step, finished or not, the original bytes survive.
      A torn tail is cut where the reading found it, every verified record kept; after a seal line, the
      records through it are kept and its rotation completed. Then one record names the fragment.
     */
    method Repair(reading: Reading, root: string, held: bool, copyOk: bool, sealOk: bool,
                  time: int, newID: string, io: Faults) returns (res: Result<RepairResult>)
      requires active.durable == active.cached
      modifies this
      ensures !reading.Damaged? || reading.sealAt.Err? || (reading.sealAt == Ok(None) && reading.offset.None?) ==>
                res.Err? && Now() == old(Now()) && history == old(history)
      ensures reading.Damaged? && reading.sealAt == Ok(None) && reading.offset.Some? ==>
                var o := reading.offset.value;
                && Attempted(old(Now()), o, old(history), history, Now())
                && (res.Ok? <==>
                      Succeeds(line, verify, old(Now()), root, o, reading.records, held, None, io))
                && (res.Ok? ==>
                      && segments == old(segments)
                      && Repaired(line, digest, sha, verify, old(Now()), o, res.value, time, newID, Now()))
      ensures reading.Damaged? && reading.sealAt.Ok? && reading.sealAt.value.Some? ==>
                var k := reading.sealAt.value.value;
                if k >= |reading.records| || !copyOk
                then res.Err? && Now() == old(Now()) && history == old(history)
                else
                  var kept := reading.records[..k + 1];
                  && Attempted(old(Now()), |BytesOf(line, kept)|, old(history), history, Now())
                  && (res.Ok? <==> Succeeds(line, verify, old(Now()), root, |BytesOf(line, kept)|, kept,
                                            held, Some(sealOk), io))
                  && (res.Ok? ==>
                        && segments == old(segments) + old(active).cached[..|BytesOf(line, kept)|]
                        && (BytesOf(line, kept) <= old(active).cached ==>
                              segments == old(segments) + BytesOf(line, kept))
                        && Repaired(line, digest, sha, verify, old(Now()), |BytesOf(line, kept)|, res.value,
                                    time, newID, Now()))
    {
      if !reading.Damaged? || reading.sealAt.Err? {
        return Err;
      }
      if reading.sealAt.value.None? {
        if reading.offset.None? {
          return Err;
        }
        res := CutSealAndRecord(root, reading.offset.value, reading.records, held, None, time, newID, io);
        return;
      }
      var k := reading.sealAt.value.value;
      if k >= |reading.records| || !copyOk {
        return Err;
      }
      var offset := Offset(reading.records[..k + 1]);
      res := CutSealAndRecord(root, offset, reading.records[..k + 1], held, Some(sealOk), time, newID, io);
    }
  }

  // ---------------------------------------------------------------- the chain after a repair

  lemma BytesOfAppend(line: Record -> string, rs: seq<Record>, r: Record)
    ensures BytesOf(line, rs + [r]) == BytesOf(line, rs) + (line(r) + "\n")
  {
    assert (rs + [r])[..|rs|] == rs;
  }

  /**
    If the bytes before the cut are the lines of a chain and verify to it, the repaired ledger's bytes are
    that chain's and one repair record's, which names the length and hash of exactly the bytes moved aside.
   */
  lemma RepairedIsPrefixAndRecord(
    line: Record -> string, digest: Digest, sha: string -> string, verify: string -> Option<seq<Record>>,
    before: Disk, offset: nat, res: RepairResult, time: int, newID: string, now: Disk, rs: seq<Record>, tail: string)
    requires Repaired(line, digest, sha, verify, before, offset, res, time, newID, now)
    requires Chained(digest, rs) && verify(BytesOf(line, rs)) == Some(rs)
    requires Whole(before) == BytesOf(line, rs) + tail && |BytesOf(line, rs)| == |before.segments| + offset
    ensures var rs' := rs + [RepairRecord(digest, rs, res, time, newID)];
            && Chained(digest, rs') && Whole(now) == BytesOf(line, rs')
            && rs'[|rs|].seqNo == |rs| + 1 && rs'[|rs|].time == time
            && var moved := Fragment(|tail|, sha(tail));
               rs'[|rs|].event == Some(Event(Repairing, Success, false, "", false, None, Some(moved)))
    ensures Evidence(before.fragments, now.fragments, tail)
  {
    var raw, cut := Whole(before), |before.segments| + offset;
    assert raw[..cut] == BytesOf(line, rs) && raw[cut..] == tail;
    assert before.active.cached[offset..] == raw[cut..];
    var r := RepairRecord(digest, rs, res, time, newID);
    ChainedExtends(digest, rs, r);
    BytesOfAppend(line, rs, r);
  }

  /** Every stop of every repair leaves the original bytes to be found. */
  lemma EveryStopSurvives(
    before: Disk, offset: nat, was: seq<Disk>, history: seq<Disk>, now: Disk, i: nat, image: Image)
    requires before.active.durable == before.active.cached && offset <= |before.active.cached|
    requires Attempted(before, offset, was, history, now)
    requires |was| <= i < |history| && StopLeaves(history[i], image)
    ensures Survives(before, |before.segments| + offset, image)
  {
    assert history[i] == history[|was|..][i - |was|];
    SafeSurvives(before, |before.segments| + offset, history[i], image);
  }
}
