/**
  The control ledger: its records, the append rule, the anchors it carries, and the heads an
  outside reader may expect of it (internal/control/log.go, anchors.go, installing.go and
  expectHeadMismatch of cmd/agenthof/anchor.go).

  A record stands for its exact on-disk line; `digest` is the hash of that line. No theorem
  assumes the hash is injective: each says what holds or exhibits two lines that collide.
 */
module ControlLog {
  import opened Prelude
  import opened Text

  datatype Action = Apply | Vouch | Enable | Disable | Anchoring | Sealing | Repairing | OtherAction(name: string)

  datatype Outcome = Success | Refused | Rejected | Failed

  /** What an anchor says it pins: a position and the line hash there, in this chain or, with a run id, in a run's. */
  datatype Anchor = Anchor(
    seqNo: int, hash: string, runID: string,
    kind: string, backendKind: string, backend: string, backendKeyID: string, ref: string, proof: string)

  datatype Event = Event(
    action: Action, outcome: Outcome, explained: bool,
    configHash: string, bootstrap: bool,
    anchor: Option<Anchor>, fragment: Option<Fragment>)

  datatype Fragment = Fragment(length: nat, hash: string)

  /** One line; `event` is None when the body does not decode. */
  datatype Record = Record(seqNo: int, time: int, event: Option<Event>, prev: string, logID: string)

  type Digest = Record -> string

  datatype Head = Head(hash: string, count: nat)

  // ---------------------------------------------------------------- the chain rule

  function PrevOf(digest: Digest, rs: seq<Record>): string {
    if rs == [] then "" else digest(rs[|rs| - 1])
  }

  /** The record at i carries its 1-based position and the hash of the line before it. */
  predicate LinkOk(digest: Digest, rs: seq<Record>, i: nat)
    requires i < |rs|
  {
    rs[i].seqNo == i + 1 && rs[i].prev == if i == 0 then "" else digest(rs[i - 1])
  }

  predicate Chained(digest: Digest, rs: seq<Record>) {
    forall i :: 0 <= i < |rs| ==> LinkOk(digest, rs, i)
  }

  ghost predicate Collide(digest: Digest, a: Record, b: Record) {
    a != b && digest(a) == digest(b)
  }

  lemma ChainedExtends(digest: Digest, rs: seq<Record>, r: Record)
    requires Chained(digest, rs) && r.seqNo == |rs| + 1 && r.prev == PrevOf(digest, rs)
    ensures Chained(digest, rs + [r])
  {
    forall i | 0 <= i < |rs| + 1 ensures LinkOk(digest, rs + [r], i) {
      if i < |rs| { assert LinkOk(digest, rs, i); }
    }
  }

  /** Two chains with the same line hash at position n hold the same first n lines, or two lines that collide. */
  lemma {:induction false} SameHeadSamePrefix(digest: Digest, a: seq<Record>, b: seq<Record>, n: nat)
    requires Chained(digest, a) && Chained(digest, b)
    requires 1 <= n <= |a| && n <= |b| && digest(a[n - 1]) == digest(b[n - 1])
    ensures a[..n] == b[..n] || exists i :: 0 <= i < n && Collide(digest, a[i], b[i])
  {
    if a[n - 1] != b[n - 1] {
      assert Collide(digest, a[n - 1], b[n - 1]);
    } else if n > 1 {
      assert LinkOk(digest, a, n - 1) && LinkOk(digest, b, n - 1);
      SameHeadSamePrefix(digest, a, b, n - 1);
      assert a[..n] == a[..n - 1] + [a[n - 1]] && b[..n] == b[..n - 1] + [b[n - 1]];
    }
  }

  // ---------------------------------------------------------------- expected heads

  /** --expect-head: the current head, or the line hash at a position. */
  datatype Expect = AtHead(hash: string) | AtSeq(seqNo: int, hash: string)

  predicate ExpectHolds(digest: Digest, e: Expect, rs: seq<Record>) {
    match e
    case AtHead(hash) => hash == PrevOf(digest, rs)
    case AtSeq(n, hash) => 1 <= n <= |rs| && digest(rs[n - 1]) == hash
  }

  /** An expectation at a position fixes every line up to it. */
  lemma ExpectFixesPrefix(digest: Digest, n: int, hash: string, a: seq<Record>, b: seq<Record>)
    requires Chained(digest, a) && Chained(digest, b)
    requires ExpectHolds(digest, AtSeq(n, hash), a) && ExpectHolds(digest, AtSeq(n, hash), b)
    ensures a[..n] == b[..n] || exists i :: 0 <= i < n && Collide(digest, a[i], b[i])
  {
    SameHeadSamePrefix(digest, a, b, n);
  }

  /** An expectation on the current head fixes the whole chain, its length included. */
  lemma ExpectFixesChain(digest: Digest, hash: string, a: seq<Record>, b: seq<Record>)
    requires Chained(digest, a) && Chained(digest, b) && a != [] && b != []
    requires ExpectHolds(digest, AtHead(hash), a) && ExpectHolds(digest, AtHead(hash), b)
    ensures a == b || exists i, j :: 0 <= i < |a| && 0 <= j < |b| && Collide(digest, a[i], b[j])
  {
    var i, j := |a| - 1, |b| - 1;
    if a[i] != b[j] {
      assert Collide(digest, a[i], b[j]);
    } else {
      assert LinkOk(digest, a, i) && LinkOk(digest, b, j);
      SameHeadSamePrefix(digest, a, b, |a|);
      assert a[..|a|] == a && b[..|a|] == b;
    }
  }

  /** A line hash noted from a chain is found there for ever, at its position and nowhere else's hash. */
  lemma OwnHashIsExpected(digest: Digest, rs: seq<Record>, more: seq<Record>, n: int, hash: string)
    ensures 1 <= n <= |rs| ==> (ExpectHolds(digest, AtSeq(n, hash), rs + more) <==> hash == digest(rs[n - 1]))
    ensures !(1 <= n <= |rs|) ==> !ExpectHolds(digest, AtSeq(n, hash), rs)
    ensures rs != [] ==> (ExpectHolds(digest, AtHead(hash), rs) <==> hash == digest(rs[|rs| - 1]))
  {
    if 1 <= n <= |rs| { assert (rs + more)[n - 1] == rs[n - 1]; }
  }

  // ---------------------------------------------------------------- what Append admits

  predicate AnchorShapeOk(e: Event) {
    && (e.anchor.Some? ==> e.action == Anchoring)
    && (e.action == Anchoring ==>
          && (e.outcome == Success ==> e.anchor.Some?)
          && (e.outcome == Refused ==> e.anchor.None?)
          && e.configHash == ""
          && (e.anchor.Some? ==> PayloadOk(e.anchor.value) && (e.outcome == Success ==> PayloadWhole(e.anchor.value))))
  }

  predicate PayloadOk(a: Anchor) {
    && IsHex(a.hash, 64)
    && (a.runID != "" ==> IsRunID(a.runID))
    && |a.proof| <= 8192 && |a.ref| <= 256 && |a.backend| <= 2048 && |a.backendKind| <= 64 && |a.backendKeyID| <= 128
  }

  predicate PayloadWhole(a: Anchor) {
    && (a.kind == "tlog" || a.kind == "signed")
    && a.backendKind != "" && a.backend != "" && a.ref != ""
    && (a.proof != "" || a.runID != "")
  }

  /** A control anchor covers a record that exists; a run-scoped one is judged elsewhere. */
  predicate CoverageOk(e: Event, count: nat) {
    e.anchor.Some? && e.anchor.value.runID == "" ==> 1 <= e.anchor.value.seqNo <= count
  }

  predicate Admitted(e: Event, count: nat) {
    AnchorShapeOk(e) && (e.outcome != Success ==> e.explained) && CoverageOk(e, count)
  }

  /** Records of other actions carry no anchor; beyond that they need only say why they did not succeed. */
  lemma AdmittedOthers(e: Event, count: nat)
    requires e.action != Anchoring
    ensures Admitted(e, count) <==> e.anchor.None? && (e.outcome == Success || e.explained)
  {
  }

  /** An anchor that failed may name what it tried; one that was refused names nothing. */
  lemma AdmittedFailures(e: Event, count: nat)
    requires e.action == Anchoring && e.outcome != Success
    ensures Admitted(e, count) <==>
              && e.explained && e.configHash == ""
              && (e.anchor.Some? ==>
                    && e.outcome != Refused && IsHex(e.anchor.value.hash, 64)
                    && (if e.anchor.value.runID == "" then 1 <= e.anchor.value.seqNo <= count
                        else IsRunID(e.anchor.value.runID))
                    && WithinCaps(e.anchor.value))
  {
  }

  predicate WithinCaps(a: Anchor) {
    |a.proof| <= 8192 && |a.ref| <= 256 && |a.backend| <= 2048 && |a.backendKind| <= 64 && |a.backendKeyID| <= 128
  }

  /** A successful anchor says what it covers, of what kind, where, and with what proof. */
  lemma AdmittedAnchors(e: Event, count: nat)
    requires e.action == Anchoring && e.outcome == Success
    ensures Admitted(e, count) <==>
              && e.configHash == "" && e.anchor.Some?
              && var a := e.anchor.value;
                 && IsHex(a.hash, 64) && WithinCaps(a)
                 && (if a.runID == "" then 1 <= a.seqNo <= count && a.proof != "" else IsRunID(a.runID))
                 && a.kind in {"tlog", "signed"} && a.backendKind != "" && a.backend != "" && a.ref != ""
  {
  }

  function NextRecord(digest: Digest, rs: seq<Record>, e: Event, time: int, logID: string): Record {
    Record(|rs| + 1, time, Some(e), PrevOf(digest, rs), if rs == [] then logID else "")
  }

  /**
    The ledger on disk: sealed segments' records and the active segment's. Positions are logical:
    the active's first record continues the chain of the last sealed one.
   */
  class Ledger {
    const digest: Digest
    var sealed: seq<Record>
    var active: seq<Record>

    ghost predicate Valid() reads this { Chained(digest, Logical()) }

    function Logical(): seq<Record> reads this { sealed + active }

    constructor (digest: Digest)
      ensures Valid() && Logical() == [] && this.digest == digest
    {
      this.digest, sealed, active := digest, [], [];
    }

    /** Appends one event's record at the logical position, or nothing. newID is the random id a genesis takes. */
    method Append(e: Event, time: int, newID: string) returns (head: Result<Head>)
      requires Valid()
      modifies this`active
      ensures Valid()
      ensures head.Ok? <==> Admitted(e, |old(Logical())|)
      ensures head.Err? ==> Logical() == old(Logical())
      ensures head.Ok? ==>
                && Logical() == old(Logical()) + [NextRecord(digest, old(Logical()), e, time, newID)]
                && head.value == Head(PrevOf(digest, Logical()), |Logical()|)
      ensures head.Ok? ==>
                var was, rec := old(Logical()), Logical()[|Logical()| - 1];
                && rec.seqNo == |was| + 1 && rec.time == time && rec.event == Some(e)
                && rec.prev == (if was == [] then "" else digest(was[|was| - 1]))
                && rec.logID == (if was == [] then newID else "")
    {
      if !AnchorShapeOk(e) || (e.outcome != Success && !e.explained) {
        return Err;
      }
      var base, count := |sealed|, |active|;
      var logical := base + count;
      if !CoverageOk(e, logical) {
        return Err;
      }
      var prev := if count > 0 then digest(active[count - 1]) else if base > 0 then digest(sealed[base - 1]) else "";
      var rec := Record(logical + 1, time, Some(e), prev, if base == 0 && count == 0 then newID else "");
      assert rec == NextRecord(digest, Logical(), e, time, newID);
      ChainedExtends(digest, Logical(), rec);
      active := active + [rec];
      assert Logical() == old(Logical()) + [rec];
      return Ok(Head(digest(rec), logical + 1));
    }

    /** A completed rotation: the active segment is sealed whole and a new one begins. */
    method Rotate()
      requires Valid()
      modifies this
      ensures Valid() && Logical() == old(Logical()) && active == []
    {
      sealed, active := sealed + active, [];
      assert Logical() == old(Logical());
    }
  }

  // ---------------------------------------------------------------- anchors

  /** The fixed causes of a mismatch, or Reproduced. */
  datatype AnchorVerdict = Reproduced | NoCoverage | MalformedHash | NotBefore | OtherLine

  datatype AnchorCheck = AnchorCheck(recordSeq: int, verdict: AnchorVerdict)

  /** A successful anchor of this chain: not a failed or refused one, and not one scoped to a run. */
  predicate IsControlAnchor(r: Record) {
    && r.event.Some? && r.event.value.action == Anchoring && r.event.value.outcome == Success
    && (r.event.value.anchor.Some? ==> r.event.value.anchor.value.runID == "")
  }

  function VerdictOn(digest: Digest, rs: seq<Record>, r: Record): (v: AnchorVerdict)
    requires IsControlAnchor(r)
    ensures v == NoCoverage <==> r.event.value.anchor.None?
    ensures v == MalformedHash <==> r.event.value.anchor.Some? && !IsHex(r.event.value.anchor.value.hash, 64)
    ensures v == Reproduced <==>
              && r.event.value.anchor.Some?
              && var a := r.event.value.anchor.value;
                 IsHex(a.hash, 64) && 1 <= a.seqNo < r.seqNo && a.seqNo <= |rs| && digest(rs[a.seqNo - 1]) == a.hash
    ensures v == OtherLine <==>
              && r.event.value.anchor.Some?
              && var a := r.event.value.anchor.value;
                 IsHex(a.hash, 64) && 1 <= a.seqNo < r.seqNo && a.seqNo <= |rs| && digest(rs[a.seqNo - 1]) != a.hash
  {
    match r.event.value.anchor
    case None => NoCoverage
    case Some(a) =>
      if !IsHex(a.hash, 64) then MalformedHash
      else if a.seqNo < 1 || a.seqNo >= r.seqNo || a.seqNo > |rs| then NotBefore
      else if digest(rs[a.seqNo - 1]) != a.hash then OtherLine
      else Reproduced
  }

  /** The verdicts on the anchors among rs[..n], each judged against all of rs. */
  function Checks(digest: Digest, rs: seq<Record>, n: nat): seq<AnchorCheck>
    requires n <= |rs|
  {
    if n == 0 then [] else Checks(digest, rs, n - 1) + CheckOf(digest, rs, rs[n - 1])
  }

  function CheckOf(digest: Digest, rs: seq<Record>, r: Record): seq<AnchorCheck> {
    if IsControlAnchor(r) then [AnchorCheck(r.seqNo, VerdictOn(digest, rs, r))] else []
  }

  /** The record at i is a successful anchor that is not scoped to a run. */
  predicate AnchorAt(rs: seq<Record>, i: int) {
    && 0 <= i < |rs| && rs[i].event.Some?
    && rs[i].event.value.action == Anchoring && rs[i].event.value.outcome == Success
    && (rs[i].event.value.anchor.None? || rs[i].event.value.anchor.value.runID == "")
  }

  /** Exactly the successful control anchors are judged, each against the whole chain. */
  lemma {:induction false} ChecksHold(digest: Digest, rs: seq<Record>, n: nat, c: AnchorCheck)
    requires n <= |rs|
    ensures c in Checks(digest, rs, n) <==>
              exists i :: i < n && AnchorAt(rs, i) && c == AnchorCheck(rs[i].seqNo, VerdictOn(digest, rs, rs[i]))
  {
    if n > 0 {
      ChecksHold(digest, rs, n - 1, c);
      assert AnchorAt(rs, n - 1) <==> IsControlAnchor(rs[n - 1]);
    }
  }

  method CheckAnchors(digest: Digest, records: seq<Record>) returns (out: seq<AnchorCheck>)
    ensures out == Checks(digest, records, |records|)
  {
    out := [];
    for i := 0 to |records|
      invariant out == Checks(digest, records, i)
    {
      var r := records[i];
      if r.event.None? || r.event.value.action != Anchoring || r.event.value.outcome != Success {
        continue;
      }
      if r.event.value.anchor.Some? && r.event.value.anchor.value.runID != "" {
        continue;
      }
      var verdict := Reproduced;
      if r.event.value.anchor.None? {
        verdict := NoCoverage;
      } else {
        var a := r.event.value.anchor.value;
        if !IsHex(a.hash, 64) {
          verdict := MalformedHash;
        } else if a.seqNo < 1 || a.seqNo >= r.seqNo || a.seqNo > |records| {
          verdict := NotBefore;
        } else if digest(records[a.seqNo - 1]) != a.hash {
          verdict := OtherLine;
        }
      }
      out := out + [AnchorCheck(r.seqNo, verdict)];
    }
  }

  /** A verdict, once given on a chain, is the verdict on every extension of that chain. */
  lemma {:induction false} ChecksAreStable(digest: Digest, rs: seq<Record>, more: seq<Record>, n: nat)
    requires Chained(digest, rs) && n <= |rs|
    ensures Checks(digest, rs + more, n) == Checks(digest, rs, n)
  {
    if n > 0 {
      ChecksAreStable(digest, rs, more, n - 1);
      var r := rs[n - 1];
      assert (rs + more)[n - 1] == r && LinkOk(digest, rs, n - 1);
    }
  }

  /** A control anchor that records the line hash the chain has at the position it covers. */
  predicate HonestEvent(digest: Digest, rs: seq<Record>, e: Event) {
    (e.anchor.Some? && e.anchor.value.runID == "" && 1 <= e.anchor.value.seqNo <= |rs|) ==>
      e.anchor.value.hash == digest(rs[e.anchor.value.seqNo - 1])
  }

  ghost predicate NoMismatch(checks: seq<AnchorCheck>) {
    forall i :: 0 <= i < |checks| ==> checks[i].verdict == Reproduced
  }

  /** The verdicts after one append: those before it, and one more if it is a control anchor. */
  lemma ChecksOfAppend(digest: Digest, rs: seq<Record>, r: Record)
    requires Chained(digest, rs)
    ensures Checks(digest, rs + [r], |rs| + 1) == Checks(digest, rs, |rs|) + CheckOf(digest, rs + [r], r)
  {
    var all := rs + [r];
    ChecksAreStable(digest, rs, [r], |rs|);
    assert all[|rs|] == r;
    assert Checks(digest, all, |rs| + 1) == Checks(digest, all, |rs|) + CheckOf(digest, all, all[|rs|]);
  }

  /** Whatever an admitted append adds, no verdict changes, and an honest anchor is reproduced. */
  lemma HonestAppendKeepsAnchors(digest: Digest, rs: seq<Record>, e: Event, time: int, logID: string)
    requires Chained(digest, rs) && Admitted(e, |rs|) && HonestEvent(digest, rs, e)
    ensures var rs' := rs + [NextRecord(digest, rs, e, time, logID)];
            && Chained(digest, rs')
            && Checks(digest, rs, |rs|) <= Checks(digest, rs', |rs'|)
            && (NoMismatch(Checks(digest, rs, |rs|)) ==> NoMismatch(Checks(digest, rs', |rs'|)))
  {
    var r := NextRecord(digest, rs, e, time, logID);
    ChainedExtends(digest, rs, r);
    ChecksOfAppend(digest, rs, r);
    if IsControlAnchor(r) {
      var n := e.anchor.value.seqNo;
      assert (rs + [r])[n - 1] == rs[n - 1];
    }
  }

  /** A history of admitted appends of honest events. */
  ghost predicate HonestHistory(digest: Digest, states: seq<seq<Record>>) {
    && states != [] && states[0] == []
    && forall i :: 0 <= i < |states| - 1 ==> HonestStep(digest, states[i], states[i + 1])
  }

  ghost predicate HonestStep(digest: Digest, rs: seq<Record>, rs': seq<Record>) {
    exists e, time, logID ::
      Admitted(e, |rs|) && HonestEvent(digest, rs, e) && rs' == rs + [NextRecord(digest, rs, e, time, logID)]
  }

  /** Over any honest history no anchor is ever a mismatch, at any point of it. */
  lemma {:induction false} HonestAnchorsNeverMismatch(digest: Digest, states: seq<seq<Record>>, n: nat)
    requires HonestHistory(digest, states) && n < |states|
    ensures Chained(digest, states[n]) && NoMismatch(Checks(digest, states[n], |states[n]|))
  {
    if n > 0 {
      HonestAnchorsNeverMismatch(digest, states, n - 1);
      assert HonestStep(digest, states[n - 1], states[n - 1 + 1]);
      var e, time, logID :| Admitted(e, |states[n - 1]|) && HonestEvent(digest, states[n - 1], e) &&
        states[n] == states[n - 1] + [NextRecord(digest, states[n - 1], e, time, logID)];
      HonestAppendKeepsAnchors(digest, states[n - 1], e, time, logID);
    }
  }

  /** A reproduced anchor on two chains pins the same first lines of both, or two lines collide. */
  lemma AnchorPinsPrefix(digest: Digest, a: seq<Record>, b: seq<Record>, ra: Record, rb: Record)
    requires Chained(digest, a) && Chained(digest, b) && IsControlAnchor(ra) && IsControlAnchor(rb)
    requires VerdictOn(digest, a, ra) == Reproduced && VerdictOn(digest, b, rb) == Reproduced
    requires ra.event.value.anchor == rb.event.value.anchor
    ensures var n := ra.event.value.anchor.value.seqNo;
            a[..n] == b[..n] || exists i :: 0 <= i < n && Collide(digest, a[i], b[i])
  {
    SameHeadSamePrefix(digest, a, b, ra.event.value.anchor.value.seqNo);
  }

  /** The records of anchors scoped to runs leave no trace in the verdicts. */
  lemma RunScopedAnchorsAreSilent(digest: Digest, rs: seq<Record>, e: Event, time: int, logID: string)
    requires Chained(digest, rs)
    requires e.anchor.Some? && e.anchor.value.runID != ""
    ensures var rs' := rs + [NextRecord(digest, rs, e, time, logID)];
            Checks(digest, rs', |rs'|) == Checks(digest, rs, |rs|)
  {
    ChecksOfAppend(digest, rs, NextRecord(digest, rs, e, time, logID));
  }

  // ---------------------------------------------------------------- installs

  /** Did this record put a snapshot in place, or make the ledger stand behind the one in place? */
  predicate Installing(r: Record) {
    && r.event.Some? && r.event.value.outcome == Success && r.event.value.configHash != ""
    && (|| r.event.value.action == Apply || r.event.value.action == Vouch
        || ((r.event.value.action == Enable || r.event.value.action == Disable) && !r.event.value.bootstrap))
  }

  /** By action: an apply or a vouch that succeeded with a hash; a flip likewise, unless marked; nothing else. */
  lemma InstallingExactly(r: Record, e: Event)
    requires r.event == Some(e)
    ensures e.action in {Apply, Vouch} ==> (Installing(r) <==> e.outcome == Success && e.configHash != "")
    ensures e.action in {Enable, Disable} ==>
              (Installing(r) <==> e.outcome == Success && e.configHash != "" && !e.bootstrap)
    ensures e.action !in {Apply, Vouch, Enable, Disable} ==> !Installing(r)
  {
  }

  /** The last record that installs. */
  function LastInstalling(rs: seq<Record>): (last: Option<Record>)
    ensures last.Some? ==> Installing(last.value)
  {
    if rs == [] then None
    else if Installing(rs[|rs| - 1]) then Some(rs[|rs| - 1])
    else LastInstalling(rs[..|rs| - 1])
  }

  method FindLastInstalling(records: seq<Record>) returns (last: Option<Record>)
    ensures last == LastInstalling(records)
    ensures last.Some? ==> exists i :: 0 <= i < |records| && records[i] == last.value && Installing(records[i]) &&
                             forall j :: i < j < |records| ==> !Installing(records[j])
    ensures last.None? ==> forall i :: 0 <= i < |records| ==> !Installing(records[i])
  {
    last := None;
    for i := 0 to |records|
      invariant last == LastInstalling(records[..i])
      invariant last.None? ==> forall j :: 0 <= j < i ==> !Installing(records[j])
      invariant last.Some? ==> exists k :: 0 <= k < i && records[k] == last.value && Installing(records[k]) &&
                                 forall j :: k < j < i ==> !Installing(records[j])
    {
      assert records[..i + 1][..i] == records[..i];
      if Installing(records[i]) {
        last := Some(records[i]);
      }
    }
    assert records[..|records|] == records;
  }

  lemma LastInstallingOfAppend(rs: seq<Record>, r: Record)
    ensures LastInstalling(rs + [r]) == if Installing(r) then Some(r) else LastInstalling(rs)
  {
    assert (rs + [r])[..|rs|] == rs;
  }

  /** The ledger's identity, as the genesis record carries it. */
  function GenesisLogID(rs: seq<Record>): Option<string> {
    if rs == [] || !IsHex(rs[0].logID, 32) then None else Some(rs[0].logID)
  }

  /** The identity a genesis takes is the ledger's for life: no append, and no cut that keeps a record, changes it. */
  lemma GenesisIsForLife(digest: Digest, rs: seq<Record>, e: Event, time: int, newID: string)
    ensures rs == [] ==>
              GenesisLogID(rs).None? &&
              GenesisLogID([NextRecord(digest, rs, e, time, newID)]) == if IsHex(newID, 32) then Some(newID) else None
    ensures rs != [] ==> GenesisLogID(rs + [NextRecord(digest, rs, e, time, newID)]) == GenesisLogID(rs)
    ensures forall n :: 1 <= n <= |rs| ==> GenesisLogID(rs[..n]) == GenesisLogID(rs)
  {
    if rs != [] { assert (rs + [NextRecord(digest, rs, e, time, newID)])[0] == rs[0]; }
  }
}
