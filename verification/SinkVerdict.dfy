/**
  The sink pass of the control audit (cmd/agenthof/sink.go verifyCopy, verifySink): the verdict on each
  protected copy and on the objects the sink holds, and what an answer that degrades to an error can do.

  Times are instants with 0 for Go's zero time. `digest` is the hex SHA-256 of a body.
 */
module SinkVerdict {
  import opened Prelude
  import opened Text
  import opened Lines

  const MAX_RESTORE := 268_435_456

  datatype Version = Version(id: string, size: int)

  datatype KeyVersions = KeyVersions(key: string, versions: seq<Version>, deleteMarker: bool)

  datatype Retention = Retention(mode: string, until: int)

  /** Where a seal record says its copy is, and until when it is to be held. */
  datatype Block = Block(kind: string, url: string, key: string, retainUntil: int)

  datatype Segment = Segment(n: int, bytes: int, sha: string, sink: Option<Block>)

  /** Everything a sink would answer. */
  datatype Sink = Sink(
    kind: string, url: string, prefix: string -> string,
    versions: string -> Result<KeyVersions>,
    get: (string, string, int) -> Result<string>,
    retention: (string, string) -> Result<Retention>,
    list: string -> Result<seq<KeyVersions>>)

  datatype CopyState = Verified | Missing | Mismatch | UnderLocked | Unverifiable

  // ---------------------------------------------------------------- one protected copy, by its facts

  function Max(a: int, b: int): int { if a < b then b else a }

  function Min(a: int, b: int): int { if a < b then a else b }

  /** The listing of the copy's key, when it was answered and is not empty. */
  predicate HasOldest(k: Sink, b: Block) { k.versions(b.key).Ok? && k.versions(b.key).value.versions != [] }

  function Oldest(k: Sink, b: Block): Version
    requires HasOldest(k, b)
  {
    k.versions(b.key).value.versions[0]
  }

  /** The oldest version's whole body, when it was answered and is as long as it was listed. */
  predicate HasBody(k: Sink, seg: Segment, b: Block) {
    HasOldest(k, b) && BodyAnswer(k, seg, b).Ok? && |BodyAnswer(k, seg, b).value| == Oldest(k, b).size
  }

  function BodyAnswer(k: Sink, seg: Segment, b: Block): Result<string>
    requires HasOldest(k, b)
  {
    k.get(b.key, Oldest(k, b).id, Min(Max(Oldest(k, b).size, seg.bytes), MAX_RESTORE))
  }

  predicate SameBytes(digest: string -> string, seg: Segment, body: string) {
    |body| == seg.bytes && digest(body) == seg.sha
  }

  /** A retention document that says something: no date without a mode, no unknown mode. */
  predicate IsWhole(l: Retention) {
    (l.mode == "" ==> l.until == 0) && (l.mode == "" || l.mode == "COMPLIANCE" || l.mode == "GOVERNANCE")
  }

  predicate HasLock(k: Sink, b: Block)
    requires HasOldest(k, b)
  {
    var l := k.retention(b.key, Oldest(k, b).id);
    l.Ok? && IsWhole(l.value)
  }

  predicate LockHolds(k: Sink, b: Block)
    requires HasOldest(k, b) && HasLock(k, b)
  {
    var l := k.retention(b.key, Oldest(k, b).id).value;
    l.mode == "COMPLIANCE" && l.until >= b.retainUntil
  }

  predicate IsMissing(k: Sink, b: Block) { k.versions(b.key).Ok? && k.versions(b.key).value.versions == [] }

  predicate IsMismatch(digest: string -> string, k: Sink, seg: Segment, b: Block) {
    HasBody(k, seg, b) && !SameBytes(digest, seg, BodyAnswer(k, seg, b).value)
  }

  predicate IsCopy(digest: string -> string, k: Sink, seg: Segment, b: Block) {
    HasBody(k, seg, b) && SameBytes(digest, seg, BodyAnswer(k, seg, b).value) && HasLock(k, b)
  }

  predicate IsUnderLocked(digest: string -> string, k: Sink, seg: Segment, b: Block, now: int) {
    IsCopy(digest, k, seg, b) && !LockHolds(k, b) && b.retainUntil > now
  }

  predicate IsVerified(digest: string -> string, k: Sink, seg: Segment, b: Block, now: int) {
    IsCopy(digest, k, seg, b) && (LockHolds(k, b) || b.retainUntil <= now)
  }

  /** The verdict the answers support; without the facts of another, none. */
  function CopyOf(digest: string -> string, k: Sink, seg: Segment, b: Block, now: int): (c: CopyState)
    ensures c == Missing <==> IsMissing(k, b)
    ensures c == Mismatch <==> IsMismatch(digest, k, seg, b)
    ensures c == UnderLocked <==> IsUnderLocked(digest, k, seg, b, now)
    ensures c == Verified <==> IsVerified(digest, k, seg, b, now)
  {
    if IsMissing(k, b) then Missing
    else if IsMismatch(digest, k, seg, b) then Mismatch
    else if IsUnderLocked(digest, k, seg, b, now) then UnderLocked
    else if IsVerified(digest, k, seg, b, now) then Verified
    else Unverifiable
  }

  /** The facts spelled out: what each verdict takes, from the answers themselves. */
  lemma CopyExactly(digest: string -> string, k: Sink, seg: Segment, b: Block, now: int)
    ensures k.versions(b.key).Err? ==> CopyOf(digest, k, seg, b, now) == Unverifiable
    ensures k.versions(b.key).Ok? && k.versions(b.key).value.versions == [] ==>
              CopyOf(digest, k, seg, b, now) == Missing
    ensures k.versions(b.key).Ok? && k.versions(b.key).value.versions != [] ==>
              var c, v := CopyOf(digest, k, seg, b, now), k.versions(b.key).value.versions[0];
              var bound := if v.size > seg.bytes then v.size else seg.bytes;
              var body := k.get(b.key, v.id, if bound < 268_435_456 then bound else 268_435_456);
              var l := k.retention(b.key, v.id);
              if body.Err? || |body.value| != v.size then c == Unverifiable
              else if |body.value| != seg.bytes || digest(body.value) != seg.sha then c == Mismatch
              else if l.Err? || (l.value.mode == "" && l.value.until != 0) ||
                      l.value.mode !in {"", "COMPLIANCE", "GOVERNANCE"} then c == Unverifiable
              else if l.value.mode == "COMPLIANCE" && l.value.until >= b.retainUntil then c == Verified
              else if b.retainUntil > now then c == UnderLocked
              else c == Verified
  {
  }

  /** How many later versions are of a kind. */
  function LaterDiffer(digest: string -> string, k: Sink, seg: Segment, b: Block, vs: seq<Version>): nat {
    if vs == [] then 0
    else
      var v := vs[|vs| - 1];
      var body := k.get(b.key, v.id, seg.bytes);
      LaterDiffer(digest, k, seg, b, vs[..|vs| - 1]) +
      if v.size != seg.bytes || (body.Ok? && digest(body.value) != seg.sha) then 1 else 0
  }

  function LaterUnread(k: Sink, seg: Segment, b: Block, vs: seq<Version>): nat {
    if vs == [] then 0
    else
      var v := vs[|vs| - 1];
      LaterUnread(k, seg, b, vs[..|vs| - 1]) +
      if v.size == seg.bytes && k.get(b.key, v.id, seg.bytes).Err? then 1 else 0
  }

  /** The ladder. Later versions are counted only under a verified copy and change no verdict. */
  method VerifyCopy(digest: string -> string, k: Sink, seg: Segment, b: Block, now: int)
    returns (state: CopyState, differ: nat, unread: nat)
    ensures state == CopyOf(digest, k, seg, b, now)
    ensures state == Verified ==>
              var later := k.versions(b.key).value.versions[1..];
              differ == LaterDiffer(digest, k, seg, b, later) && unread == LaterUnread(k, seg, b, later)
  {
    differ, unread := 0, 0;
    var kv := k.versions(b.key);
    if kv.Err? {
      return Unverifiable, 0, 0;
    }
    if |kv.value.versions| == 0 {
      return Missing, 0, 0;
    }
    var oldest := kv.value.versions[0];
    var body := k.get(b.key, oldest.id, Min(Max(oldest.size, seg.bytes), MAX_RESTORE));
    if body.Err? || |body.value| != oldest.size {
      return Unverifiable, 0, 0;
    }
    if |body.value| != seg.bytes || digest(body.value) != seg.sha {
      return Mismatch, 0, 0;
    }
    var l := k.retention(b.key, oldest.id);
    if l.Err? || (l.value.mode == "" && l.value.until != 0) {
      return Unverifiable, 0, 0;
    }
    if l.value.mode != "" && l.value.mode != "COMPLIANCE" && l.value.mode != "GOVERNANCE" {
      return Unverifiable, 0, 0;
    }
    var held := l.value.mode == "COMPLIANCE" && l.value.until >= b.retainUntil;
    if !held && b.retainUntil > now {
      return UnderLocked, 0, 0;
    }
    differ, unread := CountLater(digest, k, seg, b, kv.value.versions[1..]);
    return Verified, differ, unread;
  }

  method CountLater(digest: string -> string, k: Sink, seg: Segment, b: Block, vs: seq<Version>)
    returns (differ: nat, unread: nat)
    ensures differ == LaterDiffer(digest, k, seg, b, vs) && unread == LaterUnread(k, seg, b, vs)
  {
    differ, unread := 0, 0;
    for i := 0 to |vs|
      invariant differ == LaterDiffer(digest, k, seg, b, vs[..i]) && unread == LaterUnread(k, seg, b, vs[..i])
    {
      assert vs[..i + 1][..i] == vs[..i];
      if vs[i].size != seg.bytes {
        differ := differ + 1;
        continue;
      }
      var body := k.get(b.key, vs[i].id, seg.bytes);
      if body.Err? {
        unread := unread + 1;
      } else if digest(body.value) != seg.sha {
        differ := differ + 1;
      }
    }
    assert vs[..|vs|] == vs;
  }

  // ---------------------------------------------------------------- the whole pass

  /** A posture that was read: whether it names a sink, and that sink if this build constructs it. */
  datatype Posture = Posture(worm: bool, build: Result<Sink>)

  /** The view re-read under the ledger's lock. */
  datatype Fresh = Fresh(sealed: nat, notRotated: bool)

  datatype Inputs = Inputs(
    offline: bool, posture: Result<Posture>, sealed: seq<Segment>, logID: Result<string>,
    reread: Result<Fresh>, now: int, digest: string -> string)

  datatype Verdicts = Verdicts(
    copies: nat, verified: nat, missing: nat, mismatch: nat, underLocked: nat, unverifiable: nat,
    held: nat, accounted: nat, inFlight: nat, unlisted: bool)

  const NOTHING := Verdicts(0, 0, 0, 0, 0, 0, 0, 0, 0, false)

  predicate Definitive(s: Verdicts) { s.missing + s.mismatch + s.underLocked > 0 || s.held > s.accounted }

  predicate Undecided(s: Verdicts) { s.unverifiable > 0 || s.inFlight > 0 || s.unlisted }

  /** The sink the pass reads, if any. */
  function Backend(x: Inputs): Option<Sink> {
    if x.posture.Ok? && x.posture.value.worm && x.posture.value.build.Ok? then Some(x.posture.value.build.value)
    else None
  }

  function Judged(x: Inputs, seg: Segment): CopyState
    requires seg.sink.Some?
  {
    var be, b := Backend(x), seg.sink.value;
    if be.None? || b.kind != be.value.kind || b.url != be.value.url then Unverifiable
    else CopyOf(x.digest, be.value, seg, b, x.now)
  }

  /** A copy is judged only in the sink its record names, and only where the posture's sink was built. */
  lemma JudgedWhereItIsNamed(x: Inputs, seg: Segment)
    requires seg.sink.Some?
    ensures x.posture.Err? || !x.posture.value.worm || x.posture.value.build.Err? ==> Judged(x, seg) == Unverifiable
    ensures x.posture.Ok? && x.posture.value.worm && x.posture.value.build.Ok? ==>
              var k, b := x.posture.value.build.value, seg.sink.value;
              Judged(x, seg) ==
                if b.kind == k.kind && b.url == k.url then CopyOf(x.digest, k, seg, b, x.now) else Unverifiable
  {
  }

  predicate Is(x: Inputs, seg: Segment, c: CopyState) { seg.sink.Some? && Judged(x, seg) == c }

  function Count(x: Inputs, segs: seq<Segment>, c: CopyState): nat {
    if segs == [] then 0 else Count(x, segs[..|segs| - 1], c) + if Is(x, segs[|segs| - 1], c) then 1 else 0
  }

  function Copies(segs: seq<Segment>): nat {
    if segs == [] then 0 else Copies(segs[..|segs| - 1]) + if segs[|segs| - 1].sink.Some? then 1 else 0
  }

  /** The ordinals whose oldest version is not the local segment. */
  function Altered(x: Inputs, segs: seq<Segment>): set<int> {
    set i | 0 <= i < |segs| && Is(x, segs[i], Mismatch) :: segs[i].n
  }

  /** The ordinal a key under the prefix names: seg- and six digits. */
  function Ordinal(name: string): Option<int> {
    if |name| == 10 && name[..4] == "seg-" && forall i :: 4 <= i < 10 ==> IsDigit(name[i]) then Some(Value(name[4..]))
    else None
  }

  datatype Object = Ignored | Accounted | Unaccounted | InFlight | Pending

  /** What one listed key is. */
  function Classify(x: Inputs, prefix: string, kv: KeyVersions): Object {
    if kv.versions == [] || !(prefix <= kv.key) || Ordinal(kv.key[|prefix|..]).None? then Ignored
    else
      var n := Ordinal(kv.key[|prefix|..]).value;
      if 1 <= n <= |x.sealed| then
        if x.sealed[n - 1].sink.Some? && n !in Altered(x, x.sealed) then Accounted else Unaccounted
      else if x.reread.Err? || 1 <= n <= x.reread.value.sealed then InFlight
      else if x.reread.value.notRotated && n == x.reread.value.sealed + 1 then Pending
      else Unaccounted
  }

  function CountObjects(x: Inputs, prefix: string, held: seq<KeyVersions>, c: Object): nat {
    if held == [] then 0
    else CountObjects(x, prefix, held[..|held| - 1], c) + if Classify(x, prefix, held[|held| - 1]) == c then 1 else 0
  }

  // ---------------------------------------------------------------- objects, by their facts

  /** The name a seal gives the copy of segment n. */
  predicate IsSegmentKey(prefix: string, key: string, n: int) {
    0 <= n < 1_000_000 && key == prefix + ("seg-" + Padded(n, 6))
  }

  lemma OrdinalOfName(n: nat)
    requires n < 1_000_000
    ensures Ordinal("seg-" + Padded(n, 6)) == Some(n)
  {
    SixDigits();
    ValueOfPadded(n, 6);
    var name := "seg-" + Padded(n, 6);
    assert name[4..] == Padded(n, 6) && name[..4] == "seg-";
    forall i | 4 <= i < 10 ensures IsDigit(name[i]) { assert name[i] == Padded(n, 6)[i - 4]; }
  }

  lemma SixDigits()
    ensures Pow10(6) == 1_000_000
  {
    assert Pow10(3) == 1000;
  }

  lemma NameOfOrdinal(name: string)
    requires Ordinal(name).Some?
    ensures var n := Ordinal(name).value; 0 <= n < 1_000_000 && name == "seg-" + Padded(n, 6)
  {
    SixDigits();
    PaddedOfValue(name[4..]);
    assert name == name[..4] + name[4..];
  }

  /** A key counts at all exactly when it has a version and is the name of some segment's copy. */
  lemma IgnoredExactly(x: Inputs, prefix: string, kv: KeyVersions)
    ensures Classify(x, prefix, kv) == Ignored <==> kv.versions == [] || forall n :: !IsSegmentKey(prefix, kv.key, n)
  {
    if prefix <= kv.key {
      var name := kv.key[|prefix|..];
      assert kv.key == prefix + name;
      if Ordinal(name).Some? {
        NameOfOrdinal(name);
        assert IsSegmentKey(prefix, kv.key, Ordinal(name).value);
      }
    }
    if n :| IsSegmentKey(prefix, kv.key, n) { KeyNames(prefix, kv.key, n); }
  }

  lemma KeyNames(prefix: string, key: string, n: int)
    requires IsSegmentKey(prefix, key, n)
    ensures prefix <= key && Ordinal(key[|prefix|..]) == Some(n)
  {
    OrdinalOfName(n);
    assert key[|prefix|..] == "seg-" + Padded(n, 6);
  }

  /** Chain-first found the oldest version of n's copy not to be the local segment. */
  ghost predicate IsAltered(x: Inputs, n: int) {
    exists i :: 0 <= i < |x.sealed| && x.sealed[i].n == n && Is(x, x.sealed[i], Mismatch)
  }

  /** What the object of segment n is: judged against the view, and past it against the view re-read. */
  ghost predicate ObjectIs(x: Inputs, n: int, c: Object) {
    if 1 <= n <= |x.sealed| then
      c == if x.sealed[n - 1].sink.Some? && !IsAltered(x, n) then Accounted else Unaccounted
    else if x.reread.Err? then c == InFlight
    else if 1 <= n <= x.reread.value.sealed then c == InFlight
    else if x.reread.value.notRotated && n == x.reread.value.sealed + 1 then c == Pending
    else c == Unaccounted
  }

  lemma ObjectByOrdinal(x: Inputs, prefix: string, kv: KeyVersions, n: int)
    requires kv.versions != [] && prefix <= kv.key && Ordinal(kv.key[|prefix|..]) == Some(n)
    ensures ObjectIs(x, n, Classify(x, prefix, kv))
  {
    assert IsAltered(x, n) <==> n in Altered(x, x.sealed);
  }

  lemma ObjectExactly(x: Inputs, prefix: string, kv: KeyVersions, n: int)
    requires kv.versions != [] && IsSegmentKey(prefix, kv.key, n)
    ensures ObjectIs(x, n, Classify(x, prefix, kv))
  {
    KeyNames(prefix, kv.key, n);
    ObjectByOrdinal(x, prefix, kv, n);
  }

  /** The objects listed under this ledger's prefix; an error when there is no listing. */
  function Listing(x: Inputs): Result<seq<KeyVersions>> {
    if Backend(x).None? || x.logID.Err? then Err else Backend(x).value.list(PrefixOf(x))
  }

  function PrefixOf(x: Inputs): string {
    if Backend(x).None? || x.logID.Err? then "" else Backend(x).value.prefix(x.logID.value)
  }

  function Objects(x: Inputs, c: Object): nat {
    if Listing(x).Err? then 0 else CountObjects(x, PrefixOf(x), Listing(x).value, c)
  }

  /** Is there anything for the pass to do? */
  predicate Skips(x: Inputs) {
    x.offline || (x.posture.Ok? && !x.posture.value.worm && Copies(x.sealed) == 0)
  }

  function Pass(x: Inputs): Verdicts {
    if Skips(x) then NOTHING
    else
      Verdicts(
        Copies(x.sealed), Count(x, x.sealed, Verified), Count(x, x.sealed, Missing), Count(x, x.sealed, Mismatch),
        Count(x, x.sealed, UnderLocked), Count(x, x.sealed, Unverifiable),
        Objects(x, Accounted) + Objects(x, Unaccounted), Objects(x, Accounted), Objects(x, InFlight), Listing(x).Err?)
  }

  method CountBlocks(segs: seq<Segment>) returns (blocks: nat)
    ensures blocks == Copies(segs)
  {
    blocks := 0;
    for i := 0 to |segs|
      invariant blocks == Copies(segs[..i])
    {
      assert segs[..i + 1][..i] == segs[..i];
      if segs[i].sink.Some? {
        blocks := blocks + 1;
      }
    }
    assert segs[..|segs|] == segs;
  }

  /** The copies of the first i segments, counted. */
  ghost predicate Tallied(x: Inputs, segs: seq<Segment>, s: Verdicts, altered: set<int>) {
    && s.copies == Copies(segs) && altered == Altered(x, segs)
    && s.verified == Count(x, segs, Verified) && s.missing == Count(x, segs, Missing)
    && s.mismatch == Count(x, segs, Mismatch) && s.underLocked == Count(x, segs, UnderLocked)
    && s.unverifiable == Count(x, segs, Unverifiable)
    && s.held == s.accounted == s.inFlight == 0 && !s.unlisted
  }

  function Tally(s: Verdicts, c: CopyState): Verdicts {
    var t := s.(copies := s.copies + 1);
    match c
    case Verified => t.(verified := t.verified + 1)
    case Missing => t.(missing := t.missing + 1)
    case Mismatch => t.(mismatch := t.mismatch + 1)
    case UnderLocked => t.(underLocked := t.underLocked + 1)
    case Unverifiable => t.(unverifiable := t.unverifiable + 1)
  }

  lemma AlteredOf(x: Inputs, segs: seq<Segment>, seg: Segment)
    ensures Altered(x, segs + [seg]) == Altered(x, segs) + if Is(x, seg, Mismatch) then {seg.n} else {}
  {
    var all := segs + [seg];
    forall n ensures n in Altered(x, all) <==> n in Altered(x, segs) || (Is(x, seg, Mismatch) && n == seg.n) {
      if n in Altered(x, segs) {
        var i :| 0 <= i < |segs| && Is(x, segs[i], Mismatch) && segs[i].n == n;
        assert all[i] == segs[i];
      }
      if Is(x, seg, Mismatch) && n == seg.n { assert all[|segs|] == seg; }
    }
  }

  lemma TalliedNext(x: Inputs, segs: seq<Segment>, seg: Segment, s: Verdicts, altered: set<int>)
    requires Tallied(x, segs, s, altered)
    ensures seg.sink.None? ==> Tallied(x, segs + [seg], s, altered)
    ensures seg.sink.Some? ==>
              Tallied(x, segs + [seg], Tally(s, Judged(x, seg)), altered + if Is(x, seg, Mismatch) then {seg.n} else {})
  {
    AlteredOf(x, segs, seg);
    assert (segs + [seg])[..|segs|] == segs;
  }

  /** Chain-first: each protected copy judged from its record. */
  method JudgeCopies(x: Inputs) returns (s: Verdicts, altered: set<int>)
    ensures Tallied(x, x.sealed, s, altered)
  {
    s, altered := NOTHING, {};
    var be := Backend(x);
    for i := 0 to |x.sealed|
      invariant Tallied(x, x.sealed[..i], s, altered)
    {
      var seg := x.sealed[i];
      assert x.sealed[..i + 1] == x.sealed[..i] + [seg];
      TalliedNext(x, x.sealed[..i], seg, s, altered);
      if seg.sink.None? {
        continue;
      }
      var b, c := seg.sink.value, Unverifiable;
      if be.Some? && b.kind == be.value.kind && b.url == be.value.url {
        var differ, unread;
        c, differ, unread := VerifyCopy(x.digest, be.value, seg, b, x.now);
      }
      s := Tally(s, c);
      if c == Mismatch {
        altered := altered + {seg.n};
      }
    }
    assert x.sealed[..|x.sealed|] == x.sealed;
  }

  /** Bucket-first: every listed object judged against the view, and past it against the view re-read. */
  method CountHeld(x: Inputs, prefix: string, listed: seq<KeyVersions>, altered: set<int>)
    returns (held: nat, accounted: nat, inFlight: nat)
    requires altered == Altered(x, x.sealed)
    ensures accounted == CountObjects(x, prefix, listed, Accounted)
    ensures held == accounted + CountObjects(x, prefix, listed, Unaccounted)
    ensures inFlight == CountObjects(x, prefix, listed, InFlight)
  {
    held, accounted, inFlight := 0, 0, 0;
    for i := 0 to |listed|
      invariant accounted == CountObjects(x, prefix, listed[..i], Accounted)
      invariant held == accounted + CountObjects(x, prefix, listed[..i], Unaccounted)
      invariant inFlight == CountObjects(x, prefix, listed[..i], InFlight)
    {
      assert listed[..i + 1][..i] == listed[..i];
      var kv := listed[i];
      if |kv.versions| == 0 || !(prefix <= kv.key) {
        continue;
      }
      var ordinal := Ordinal(kv.key[|prefix|..]);
      if ordinal.None? {
        continue;
      }
      var n := ordinal.value;
      if 1 <= n <= |x.sealed| {
        held := held + 1;
        if x.sealed[n - 1].sink.Some? && n !in altered {
          accounted := accounted + 1;
        }
      } else if x.reread.Err? || 1 <= n <= x.reread.value.sealed {
        inFlight := inFlight + 1;
      } else if x.reread.value.notRotated && n == x.reread.value.sealed + 1 {
        continue;
      } else {
        held := held + 1;
      }
    }
    assert listed[..|listed|] == listed;
  }

  method VerifySink(x: Inputs) returns (s: Verdicts)
    ensures s == Pass(x)
  {
    if x.offline {
      return NOTHING;
    }
    var blocks := CountBlocks(x.sealed);
    if x.posture.Ok? && !x.posture.value.worm && blocks == 0 {
      return NOTHING;
    }
    var altered;
    s, altered := JudgeCopies(x);
    var listed := Listing(x);
    if listed.Err? {
      s := s.(unlisted := true);
    } else {
      var held, accounted, inFlight := CountHeld(x, PrefixOf(x), listed.value, altered);
      s := s.(held := held, accounted := accounted, inFlight := inFlight);
    }
  }

  // ---------------------------------------------------------------- what the counts say

  lemma {:induction false} EachCopyCountedOnce(x: Inputs, segs: seq<Segment>)
    ensures Count(x, segs, Verified) + Count(x, segs, Missing) + Count(x, segs, Mismatch) +
            Count(x, segs, UnderLocked) + Count(x, segs, Unverifiable) == Copies(segs)
  {
    if segs != [] { EachCopyCountedOnce(x, segs[..|segs| - 1]); }
  }

  /** Every protected copy has exactly one of the five verdicts, and the accounted objects are among the held. */
  lemma VerdictsAreWhole(x: Inputs)
    ensures var s := Pass(x);
            && s.verified + s.missing + s.mismatch + s.underLocked + s.unverifiable == s.copies
            && s.accounted <= s.held
  {
    EachCopyCountedOnce(x, x.sealed);
  }

  lemma {:induction false} CountIsPresence(x: Inputs, segs: seq<Segment>, c: CopyState)
    ensures Count(x, segs, c) > 0 <==> exists i :: 0 <= i < |segs| && Is(x, segs[i], c)
  {
    if segs != [] {
      var n := |segs| - 1;
      CountIsPresence(x, segs[..n], c);
      if i :| 0 <= i < n && Is(x, segs[..n][i], c) { assert segs[i] == segs[..n][i]; }
      if i :| 0 <= i < |segs| && Is(x, segs[i], c) { assert i < n ==> segs[..n][i] == segs[i]; }
    }
  }

  lemma {:induction false} ObjectsArePresence(x: Inputs, prefix: string, held: seq<KeyVersions>, c: Object)
    ensures CountObjects(x, prefix, held, c) > 0 <==> exists i :: 0 <= i < |held| && Classify(x, prefix, held[i]) == c
  {
    if held != [] {
      var n := |held| - 1;
      ObjectsArePresence(x, prefix, held[..n], c);
      if i :| 0 <= i < n && Classify(x, prefix, held[..n][i]) == c { assert held[i] == held[..n][i]; }
      if i :| 0 <= i < |held| && Classify(x, prefix, held[i]) == c { assert i < n ==> held[..n][i] == held[i]; }
    }
  }

  ghost function ObjectsOf(x: Inputs, prefix: string, held: seq<KeyVersions>, c: Object): set<int> {
    set i | 0 <= i < |held| && Classify(x, prefix, held[i]) == c
  }

  ghost function CopiesOf(x: Inputs, segs: seq<Segment>, c: CopyState): set<int> {
    set i | 0 <= i < |segs| && Is(x, segs[i], c)
  }

  /** The counts are counts: as many as there are listed objects, and copies, of each kind. */
  lemma {:induction false} ObjectsAreCounted(x: Inputs, prefix: string, held: seq<KeyVersions>, c: Object)
    ensures CountObjects(x, prefix, held, c) == |ObjectsOf(x, prefix, held, c)|
  {
    if held == [] {
      assert ObjectsOf(x, prefix, held, c) == {};
    } else {
      var n := |held| - 1;
      ObjectsAreCounted(x, prefix, held[..n], c);
      var last := Classify(x, prefix, held[n]) == c;
      forall i
        ensures i in ObjectsOf(x, prefix, held, c) <==> i in ObjectsOf(x, prefix, held[..n], c) || (i == n && last)
      {
        if 0 <= i < n { assert held[..n][i] == held[i]; }
      }
      assert ObjectsOf(x, prefix, held, c) == ObjectsOf(x, prefix, held[..n], c) + if last then {n} else {};
    }
  }

  lemma {:induction false} CopiesAreCounted(x: Inputs, segs: seq<Segment>, c: CopyState)
    ensures Count(x, segs, c) == |CopiesOf(x, segs, c)|
  {
    if segs == [] {
      assert CopiesOf(x, segs, c) == {};
    } else {
      var n := |segs| - 1;
      CopiesAreCounted(x, segs[..n], c);
      var last := Is(x, segs[n], c);
      forall i ensures i in CopiesOf(x, segs, c) <==> i in CopiesOf(x, segs[..n], c) || (i == n && last) {
        if 0 <= i < n { assert segs[..n][i] == segs[i]; }
      }
      assert CopiesOf(x, segs, c) == CopiesOf(x, segs[..n], c) + if last then {n} else {};
    }
  }

  lemma {:induction false} CopiesIsNone(segs: seq<Segment>)
    ensures Copies(segs) == 0 <==> forall i :: 0 <= i < |segs| ==> segs[i].sink.None?
  {
    if segs != [] {
      var n := |segs| - 1;
      CopiesIsNone(segs[..n]);
      assert forall i :: 0 <= i < n ==> segs[..n][i] == segs[i];
    }
  }

  /** What the pass reports: nothing when it is skipped; else the copies and the objects of each kind. */
  lemma PassCounts(x: Inputs)
    ensures Skips(x) <==>
              || x.offline
              || (&& x.posture.Ok? && !x.posture.value.worm
                  && forall i :: 0 <= i < |x.sealed| ==> x.sealed[i].sink.None?)
    ensures Skips(x) ==> Pass(x) == Verdicts(0, 0, 0, 0, 0, 0, 0, 0, 0, false)
    ensures !Skips(x) ==>
              var s := Pass(x);
              && s.verified == |CopiesOf(x, x.sealed, Verified)| && s.missing == |CopiesOf(x, x.sealed, Missing)|
              && s.mismatch == |CopiesOf(x, x.sealed, Mismatch)|
              && s.underLocked == |CopiesOf(x, x.sealed, UnderLocked)|
              && s.unverifiable == |CopiesOf(x, x.sealed, Unverifiable)| && (s.unlisted <==> Listing(x).Err?)
    ensures !Skips(x) && Listing(x).Ok? ==>
              var s, p, l := Pass(x), PrefixOf(x), Listing(x).value;
              && s.accounted == |ObjectsOf(x, p, l, Accounted)|
              && s.held == |ObjectsOf(x, p, l, Accounted)| + |ObjectsOf(x, p, l, Unaccounted)|
              && s.inFlight == |ObjectsOf(x, p, l, InFlight)|
  {
    CopiesIsNone(x.sealed);
    CopiesAreCounted(x, x.sealed, Verified);
    CopiesAreCounted(x, x.sealed, Missing);
    CopiesAreCounted(x, x.sealed, Mismatch);
    CopiesAreCounted(x, x.sealed, UnderLocked);
    CopiesAreCounted(x, x.sealed, Unverifiable);
    if Listing(x).Ok? {
      ObjectsAreCounted(x, PrefixOf(x), Listing(x).value, Accounted);
      ObjectsAreCounted(x, PrefixOf(x), Listing(x).value, Unaccounted);
      ObjectsAreCounted(x, PrefixOf(x), Listing(x).value, InFlight);
    }
  }

  /** A definitive copy: one of the three verdicts that rest on an answer. */
  ghost predicate BadCopy(x: Inputs, i: int) {
    && 0 <= i < |x.sealed|
    && (Is(x, x.sealed[i], Missing) || Is(x, x.sealed[i], Mismatch) || Is(x, x.sealed[i], UnderLocked))
  }

  ghost predicate BadObject(x: Inputs, i: int) {
    Listing(x).Ok? && 0 <= i < |Listing(x).value| && Classify(x, PrefixOf(x), Listing(x).value[i]) == Unaccounted
  }

  /** The verdict is definitive exactly when a copy or an object shows it. */
  lemma DefinitiveHasAFact(x: Inputs)
    ensures Definitive(Pass(x)) <==> !Skips(x) && ((exists i :: BadCopy(x, i)) || (exists i :: BadObject(x, i)))
  {
    CountIsPresence(x, x.sealed, Missing);
    CountIsPresence(x, x.sealed, Mismatch);
    CountIsPresence(x, x.sealed, UnderLocked);
    FactOfCopies(x);
    if Listing(x).Ok? { ObjectsArePresence(x, PrefixOf(x), Listing(x).value, Unaccounted); }
    FactOfObjects(x);
  }

  lemma FactOfCopies(x: Inputs)
    ensures (exists i :: BadCopy(x, i)) <==>
              || (exists i :: 0 <= i < |x.sealed| && Is(x, x.sealed[i], Missing))
              || (exists i :: 0 <= i < |x.sealed| && Is(x, x.sealed[i], Mismatch))
              || (exists i :: 0 <= i < |x.sealed| && Is(x, x.sealed[i], UnderLocked))
  {
    if i :| 0 <= i < |x.sealed| && Is(x, x.sealed[i], Missing) { assert BadCopy(x, i); }
    if i :| 0 <= i < |x.sealed| && Is(x, x.sealed[i], Mismatch) { assert BadCopy(x, i); }
    if i :| 0 <= i < |x.sealed| && Is(x, x.sealed[i], UnderLocked) { assert BadCopy(x, i); }
  }

  lemma FactOfObjects(x: Inputs)
    ensures (exists i :: BadObject(x, i)) <==>
              Listing(x).Ok? && exists i :: 0 <= i < |Listing(x).value| &&
                                            Classify(x, PrefixOf(x), Listing(x).value[i]) == Unaccounted
  {
    if Listing(x).Ok? {
      if i :| 0 <= i < |Listing(x).value| && Classify(x, PrefixOf(x), Listing(x).value[i]) == Unaccounted {
        assert BadObject(x, i);
      }
    }
  }

  /** An object at a segment whose record names no copy, or an altered one, makes the pass definitive. */
  lemma UnnamedCopyIsDefinitive(x: Inputs, i: nat, n: int)
    requires !Skips(x) && Listing(x).Ok? && i < |Listing(x).value| && Listing(x).value[i].versions != []
    requires IsSegmentKey(PrefixOf(x), Listing(x).value[i].key, n) && 1 <= n <= |x.sealed|
    requires x.sealed[n - 1].sink.None? || IsAltered(x, n)
    ensures Definitive(Pass(x))
  {
    ObjectExactly(x, PrefixOf(x), Listing(x).value[i], n);
    assert BadObject(x, i);
    DefinitiveHasAFact(x);
  }

  // ---------------------------------------------------------------- degrading answers

  predicate Same<T(==)>(was: Result<T>, now: Result<T>) { now == was || now.Err? }

  /** The same sink, some of whose answers have become errors. */
  ghost predicate SinkDegrades(a: Sink, b: Sink) {
    && b.kind == a.kind && b.url == a.url && b.prefix == a.prefix
    && (forall key :: Same(a.versions(key), b.versions(key)))
    && (forall key, id, max :: Same(a.get(key, id, max), b.get(key, id, max)))
    && (forall key, id :: Same(a.retention(key, id), b.retention(key, id)))
    && (forall prefix :: Same(a.list(prefix), b.list(prefix)))
  }

  ghost predicate PostureDegrades(a: Result<Posture>, b: Result<Posture>) {
    || b.Err?
    || (&& a.Ok? && a.value.worm == b.value.worm
        && (b.value.build.Err? || (a.value.build.Ok? && SinkDegrades(a.value.build.value, b.value.build.value))))
  }

  /** The same audit, with the posture read, any of the sink's answers or the view re-read become an error. */
  ghost predicate Degrades(a: Inputs, b: Inputs) {
    && b.offline == a.offline && b.sealed == a.sealed && b.logID == a.logID && b.now == a.now && b.digest == a.digest
    && PostureDegrades(a.posture, b.posture) && (b.reread == a.reread || b.reread.Err?)
  }

  /** A degraded answer leaves a copy's verdict as it was or takes it away. */
  lemma CopyDegrades(digest: string -> string, a: Sink, b: Sink, seg: Segment, block: Block, now: int)
    requires SinkDegrades(a, b)
    ensures CopyOf(digest, b, seg, block, now) == CopyOf(digest, a, seg, block, now) ||
            CopyOf(digest, b, seg, block, now) == Unverifiable
  {
    assert Same(a.versions(block.key), b.versions(block.key));
    if HasOldest(b, block) {
      var id := Oldest(b, block).id;
      var max := Min(Max(Oldest(b, block).size, seg.bytes), MAX_RESTORE);
      assert Same(a.get(block.key, id, max), b.get(block.key, id, max));
      assert Same(a.retention(block.key, id), b.retention(block.key, id));
    }
  }

  lemma JudgedDegrades(a: Inputs, b: Inputs, seg: Segment)
    requires Degrades(a, b) && seg.sink.Some?
    ensures Judged(b, seg) == Judged(a, seg) || Judged(b, seg) == Unverifiable
  {
    if Backend(b).Some? {
      CopyDegrades(a.digest, Backend(a).value, Backend(b).value, seg, seg.sink.value, a.now);
    }
  }

  lemma AlteredShrinks(a: Inputs, b: Inputs)
    requires Degrades(a, b)
    ensures Altered(b, b.sealed) <= Altered(a, a.sealed)
  {
    forall n | n in Altered(b, b.sealed) ensures n in Altered(a, a.sealed) {
      var i :| 0 <= i < |b.sealed| && Is(b, b.sealed[i], Mismatch) && b.sealed[i].n == n;
      JudgedDegrades(a, b, b.sealed[i]);
      assert Is(a, a.sealed[i], Mismatch);
    }
  }

  lemma ListingDegrades(a: Inputs, b: Inputs)
    requires Degrades(a, b) && Listing(b).Ok?
    ensures Listing(a) == Listing(b) && PrefixOf(a) == PrefixOf(b)
  {
    assert Same(Backend(a).value.list(PrefixOf(b)), Backend(b).value.list(PrefixOf(b)));
  }

  lemma BadCopyWasBad(a: Inputs, b: Inputs, i: int)
    requires Degrades(a, b) && BadCopy(b, i)
    ensures BadCopy(a, i)
  {
    JudgedDegrades(a, b, b.sealed[i]);
  }

  lemma BadObjectWasBad(a: Inputs, b: Inputs, i: int)
    requires Degrades(a, b) && BadObject(b, i)
    ensures BadObject(a, i)
  {
    ListingDegrades(a, b);
    AlteredShrinks(a, b);
  }

  /** No error, timeout or refusal makes a verdict definitive that the full answers would not have made so. */
  lemma ErrorsNeverConvict(a: Inputs, b: Inputs)
    requires Degrades(a, b) && Definitive(Pass(b))
    ensures Definitive(Pass(a))
  {
    DefinitiveHasAFact(a);
    DefinitiveHasAFact(b);
    if i :| BadCopy(b, i) {
      BadCopyWasBad(a, b, i);
      assert !Skips(a);
    } else {
      var i :| BadObject(b, i);
      BadObjectWasBad(a, b, i);
      assert Backend(b).Some?;
    }
  }

  ghost predicate Doubt(x: Inputs) {
    || (exists i :: 0 <= i < |x.sealed| && Is(x, x.sealed[i], Unverifiable))
    || Listing(x).Err?
    || (exists i :: 0 <= i < |Listing(x).value| && Classify(x, PrefixOf(x), Listing(x).value[i]) == InFlight)
  }

  /** Undecided exactly when some copy has no verdict, the listing was not had, or an object is in flight. */
  lemma DoubtIsUndecided(x: Inputs)
    ensures Undecided(Pass(x)) <==> !Skips(x) && Doubt(x)
  {
    CountIsPresence(x, x.sealed, Unverifiable);
    if Listing(x).Ok? { ObjectsArePresence(x, PrefixOf(x), Listing(x).value, InFlight); }
  }

  lemma LostCopyIsDoubt(a: Inputs, b: Inputs, i: int)
    requires Degrades(a, b) && BadCopy(a, i) && !BadCopy(b, i)
    ensures Doubt(b)
  {
    JudgedDegrades(a, b, a.sealed[i]);
    assert Is(b, b.sealed[i], Unverifiable);
  }

  lemma LostMismatchIsDoubt(a: Inputs, b: Inputs, n: int)
    requires Degrades(a, b) && n in Altered(a, a.sealed) && n !in Altered(b, b.sealed)
    ensures Doubt(b)
  {
    var i :| 0 <= i < |a.sealed| && Is(a, a.sealed[i], Mismatch) && a.sealed[i].n == n;
    JudgedDegrades(a, b, a.sealed[i]);
    assert Is(b, b.sealed[i], Unverifiable);
  }

  lemma LostObjectIsDoubt(a: Inputs, b: Inputs, i: int)
    requires Degrades(a, b) && BadObject(a, i) && !BadObject(b, i)
    ensures Doubt(b)
  {
    if Listing(b).Ok? {
      ListingDegrades(a, b);
      var kv := Listing(a).value[i];
      var n := Ordinal(kv.key[|PrefixOf(a)|..]).value;
      if 1 <= n <= |a.sealed| {
        LostMismatchIsDoubt(a, b, n);
      } else {
        assert Classify(b, PrefixOf(b), Listing(b).value[i]) == InFlight;
      }
    }
  }

  /** A definitive verdict that errors took away is never silent: the pass is undecided. */
  lemma LostConvictionIsUndecided(a: Inputs, b: Inputs)
    requires Degrades(a, b) && Definitive(Pass(a)) && !Definitive(Pass(b))
    ensures Undecided(Pass(b))
  {
    DefinitiveHasAFact(a);
    DefinitiveHasAFact(b);
    assert !Skips(b);
    if i :| BadCopy(a, i) {
      LostCopyIsDoubt(a, b, i);
    } else {
      var i :| BadObject(a, i);
      LostObjectIsDoubt(a, b, i);
    }
    DoubtIsUndecided(b);
  }

  // ---------------------------------------------------------------- later versions

  /** A later version differs by its size or by its digest; one of the right size may be unread; else it matches. */
  predicate Differs(digest: string -> string, k: Sink, seg: Segment, b: Block, v: Version) {
    v.size != seg.bytes || (k.get(b.key, v.id, seg.bytes).Ok? && digest(k.get(b.key, v.id, seg.bytes).value) != seg.sha)
  }

  predicate IsUnread(k: Sink, seg: Segment, b: Block, v: Version) {
    v.size == seg.bytes && k.get(b.key, v.id, seg.bytes).Err?
  }

  ghost function DifferingOf(digest: string -> string, k: Sink, seg: Segment, b: Block, vs: seq<Version>): set<int> {
    set i | 0 <= i < |vs| && Differs(digest, k, seg, b, vs[i])
  }

  ghost function UnreadOf(k: Sink, seg: Segment, b: Block, vs: seq<Version>): set<int> {
    set i | 0 <= i < |vs| && IsUnread(k, seg, b, vs[i])
  }

  lemma {:induction false} DifferingAreCounted(
    digest: string -> string, k: Sink, seg: Segment, b: Block, vs: seq<Version>)
    ensures LaterDiffer(digest, k, seg, b, vs) == |DifferingOf(digest, k, seg, b, vs)|
  {
    if vs == [] {
      assert DifferingOf(digest, k, seg, b, vs) == {};
    } else {
      var n := |vs| - 1;
      DifferingAreCounted(digest, k, seg, b, vs[..n]);
      var was, now, last := DifferingOf(digest, k, seg, b, vs[..n]), DifferingOf(digest, k, seg, b, vs),
        Differs(digest, k, seg, b, vs[n]);
      forall i ensures i in now <==> i in was || (i == n && last) {
        if 0 <= i < n { assert vs[..n][i] == vs[i]; }
      }
      assert now == was + if last then {n} else {};
    }
  }

  lemma {:induction false} UnreadAreCounted(k: Sink, seg: Segment, b: Block, vs: seq<Version>)
    ensures LaterUnread(k, seg, b, vs) == |UnreadOf(k, seg, b, vs)|
  {
    if vs == [] {
      assert UnreadOf(k, seg, b, vs) == {};
    } else {
      var n := |vs| - 1;
      UnreadAreCounted(k, seg, b, vs[..n]);
      var was, now, last := UnreadOf(k, seg, b, vs[..n]), UnreadOf(k, seg, b, vs), IsUnread(k, seg, b, vs[n]);
      forall i ensures i in now <==> i in was || (i == n && last) {
        if 0 <= i < n { assert vs[..n][i] == vs[i]; }
      }
      assert now == was + if last then {n} else {};
    }
  }
}
