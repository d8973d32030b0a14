/**
  The token cache of the brokers (internal/broker/clientcreds.go, tokenexchange.go): when a cached
  token may be served, under int64 durations that wrap, and to whom.

  Times are nanoseconds from Go's zero time, so IsZero is equality with 0. Grants follow section 4.4 of
  RFC 6749 (client credentials) and section 2.1 of RFC 8693 (token exchange).
 */
module TokenCache {
  import opened Prelude

  const SECOND := 1_000_000_000
  const MARGIN := 30 * SECOND
  const TWO63 := 0x8000_0000_0000_0000
  const TWO64 := 0x1_0000_0000_0000_0000

  predicate IsInt64(x: int) { -TWO63 <= x < TWO63 }

  // ---------------------------------------------------------------- refresh arithmetic

  /** What int64 keeps of a product. */
  function Wrap(x: int): (r: int)
    ensures IsInt64(r) && (r - x) % TWO64 == 0
    ensures IsInt64(x) ==> r == x
  {
    (x + TWO63) % TWO64 - TWO63
  }

  /** Go's integer division by ten, toward zero. */
  function Tenth(x: int): int { if x >= 0 then x / 10 else -((-x) / 10) }

  function Min(a: int, b: int): int { if a < b then a else b }

  function Lifetime(expiresIn: int): int { Wrap(expiresIn * SECOND) }

  function MarginOf(lifetime: int): int { Min(MARGIN, Tenth(lifetime)) }

  /** What is added to the clock, in int64 as well: subtracting the margin never wraps again. */
  function Delay(expiresIn: int): (delay: int)
    ensures delay == Lifetime(expiresIn) - MarginOf(Lifetime(expiresIn))
  {
    Wrap(Lifetime(expiresIn) - MarginOf(Lifetime(expiresIn)))
  }

  /** When a token obtained at `now` must be replaced; 0 says it must not be cached. */
  function CacheRefreshAt(now: int, expiresIn: int): int {
    if expiresIn <= 0 then 0 else now + Delay(expiresIn)
  }

  /** A wrapped lifetime is never longer than the stated one, and short of it by at least 2^64 when it wraps. */
  lemma WrapOnlyShortens(expiresIn: nat)
    ensures Lifetime(expiresIn) == expiresIn * SECOND <==> expiresIn * SECOND < TWO63
    ensures expiresIn * SECOND >= TWO63 ==> Lifetime(expiresIn) <= expiresIn * SECOND - TWO64
  {
  }

  /** A moment at which a token obtained at `now` would be served from the cache. */
  predicate Fresh(now: int, expiresIn: int, t: int) {
    CacheRefreshAt(now, expiresIn) != 0 && now <= t < CacheRefreshAt(now, expiresIn)
  }

  /**
    Whatever expires_in says, a token is only served strictly before the expiry stated, with more than the
    margin of the stated lifetime to spare.
   */
  lemma ServedBeforeExpiry(now: int, expiresIn: int, t: int)
    requires Fresh(now, expiresIn, t)
    ensures t < now + expiresIn * SECOND
    ensures now + expiresIn * SECOND - t > Min(MARGIN, expiresIn * (SECOND / 10))
  {
    if expiresIn > 0 { WrapOnlyShortens(expiresIn); }
  }

  /** A token that is cached to some use: a lifetime is stated and has not wrapped to nothing or below. */
  predicate Cacheable(now: int, expiresIn: int) {
    expiresIn > 0 && Lifetime(expiresIn) > 0 && CacheRefreshAt(now, expiresIn) != 0
  }

  lemma CacheableIsFreshAtOnce(now: int, expiresIn: int)
    ensures Cacheable(now, expiresIn) <==> exists t :: Fresh(now, expiresIn, t)
  {
    if Cacheable(now, expiresIn) { assert Fresh(now, expiresIn, now); }
  }

  /** How much sooner than the stated lifetime a token is replaced: the margin, or more when the lifetime wraps. */
  function Spare(expiresIn: int): int { expiresIn * SECOND - Delay(expiresIn) }

  /**
    The lifetime is counted from when the answer was read. Counted from when it was issued, every cached
    serve is in time exactly when there is none, or the answer took no longer than the spare.
   */
  lemma LatencyWithinSpare(issued: int, now: int, expiresIn: int)
    ensures (forall t :: Fresh(now, expiresIn, t) ==> t < issued + expiresIn * SECOND) <==>
              !Cacheable(now, expiresIn) || now - issued <= Spare(expiresIn)
  {
    CacheableIsFreshAtOnce(now, expiresIn);
    if Cacheable(now, expiresIn) {
      assert Fresh(now, expiresIn, CacheRefreshAt(now, expiresIn) - 1);
    }
  }

  /** Where nothing wraps, the spare is the margin: thirty seconds or a tenth of the lifetime. */
  lemma LatencyWithinMargin(issued: int, now: int, expiresIn: int)
    requires Cacheable(now, expiresIn) && expiresIn * SECOND < TWO63
    ensures (forall t :: Fresh(now, expiresIn, t) ==> t < issued + expiresIn * SECOND) <==>
              now - issued <= Min(30_000_000_000, expiresIn * 100_000_000)
  {
    LatencyWithinSpare(issued, now, expiresIn);
    WrapOnlyShortens(expiresIn);
  }

  // ---------------------------------------------------------------- keys

  datatype Kind = ClientCredentials | TokenExchange

  datatype Ref = Ref(
    grant: string, clientAuth: string, resource: string, issuer: string, subject: string, audience: string)

  const NUL := "\0"

  /** `digest` is the hex SHA-256 of a subject token. */
  function Key(kind: Kind, digest: string -> string, r: Ref): string {
    r.resource + NUL + match kind case ClientCredentials => r.issuer case TokenExchange => digest(r.subject)
  }

  lemma KeyOfExchange(digest: string -> string, a: Ref, b: Ref)
    requires |digest(a.subject)| == |digest(b.subject)|
    requires Key(TokenExchange, digest, a) == Key(TokenExchange, digest, b)
    ensures a.resource == b.resource && digest(a.subject) == digest(b.subject)
  {
    var k, l := Key(TokenExchange, digest, a), Key(TokenExchange, digest, b);
    assert digest(a.subject) == k[|a.resource| + 1..] && digest(b.subject) == l[|b.resource| + 1..];
    assert a.resource == k[..|a.resource|] && b.resource == l[..|b.resource|];
  }

  /** Two pairs share a client-credentials key exactly when a NUL shifts part of one's issuer into the other. */
  lemma KeysMeet(digest: string -> string, a: Ref, b: Ref)
    requires |a.resource| <= |b.resource|
    ensures Key(ClientCredentials, digest, a) == Key(ClientCredentials, digest, b) <==>
              || (a.resource == b.resource && a.issuer == b.issuer)
              || (exists x :: b.resource == a.resource + NUL + x && a.issuer == x + NUL + b.issuer)
  {
    var k, l := a.resource + NUL + a.issuer, b.resource + NUL + b.issuer;
    if k == l {
      assert a.resource == k[..|a.resource|] == l[..|a.resource|] == b.resource[..|a.resource|];
      if |a.resource| == |b.resource| {
        assert a.issuer == k[|a.resource| + 1..] && b.issuer == l[|a.resource| + 1..];
      } else {
        var x := b.resource[|a.resource| + 1..];
        assert b.resource[|a.resource|] == l[|a.resource|] == k[|a.resource|] == '\0';
        assert b.resource == a.resource + NUL + x;
        assert a.issuer == k[|a.resource| + 1..] == l[|a.resource| + 1..] == x + NUL + b.issuer;
      }
    }
    if x :| b.resource == a.resource + NUL + x && a.issuer == x + NUL + b.issuer {
      assert k == a.resource + NUL + x + NUL + b.issuer == l;
    }
  }

  /** Two different pairs with one key. */
  lemma NulCollides(digest: string -> string, a: Ref, b: Ref)
    requires a.resource == "a" && a.issuer == "b\0c" && b.resource == "a\0b" && b.issuer == "c"
    ensures Key(ClientCredentials, digest, a) == Key(ClientCredentials, digest, b)
  {
    KeysMeet(digest, a, b);
    assert b.resource == a.resource + NUL + "b" && a.issuer == "b" + NUL + b.issuer;
  }

  /** So without a NUL in a resource id, the key names the resource and the issuer. */
  lemma KeysWithoutNul(digest: string -> string, a: Ref, b: Ref)
    requires '\0' !in a.resource && '\0' !in b.resource
    requires Key(ClientCredentials, digest, a) == Key(ClientCredentials, digest, b)
    ensures a.resource == b.resource && a.issuer == b.issuer
  {
    if |a.resource| <= |b.resource| { KeysMeet(digest, a, b); } else { KeysMeet(digest, b, a); }
  }

  // ---------------------------------------------------------------- one call

  datatype Cached = Cached(token: string, refreshAt: int)

  type Cache = map<string, Cached>

  /** What the issuer answered. */
  datatype Grant = Grant(token: string, expiresIn: int)

  /** One call: the clock when the cache is read, the issuer's answer if asked, and the clock after it. */
  datatype Call = Call(r: Ref, at: int, grant: Result<Grant>, after: int)

  datatype Outcome = Refused | Served(token: string) | Minted(token: string) | Failed

  predicate Accepts(kind: Kind, r: Ref) {
    match kind
    case ClientCredentials => r.grant == "client_credentials" && r.clientAuth == "client_secret_basic"
    case TokenExchange =>
      r.grant == "token_exchange" && r.clientAuth == "client_secret_basic" && r.subject != "" && r.audience != ""
  }

  predicate Hit(cache: Cache, key: string, at: int) {
    key in cache && cache[key].refreshAt != 0 && at < cache[key].refreshAt
  }

  function OutcomeOf(kind: Kind, digest: string -> string, cache: Cache, c: Call): Outcome {
    var key := Key(kind, digest, c.r);
    if !Accepts(kind, c.r) then Refused
    else if Hit(cache, key, c.at) then Served(cache[key].token)
    else if c.grant.Err? then Failed
    else Minted(c.grant.value.token)
  }

  function CacheAfter(kind: Kind, digest: string -> string, cache: Cache, c: Call): Cache {
    if !OutcomeOf(kind, digest, cache, c).Minted? then cache
    else
      var key := Key(kind, digest, c.r);
      var at := CacheRefreshAt(c.after, c.grant.value.expiresIn);
      if at != 0 then cache[key := Cached(c.grant.value.token, at)] else cache - {key}
  }

  class Broker {
    const kind: Kind
    const digest: string -> string
    var cache: Cache

    constructor (kind: Kind, digest: string -> string)
      ensures this.kind == kind && this.digest == digest && cache == map[]
    {
      this.kind, this.digest, cache := kind, digest, map[];
    }

    /** A cached token while it is fresh, else a new one, which alone changes the cache, under its own key. */
    method Resolve(c: Call) returns (out: Outcome)
      modifies this
      ensures out == OutcomeOf(kind, digest, old(cache), c)
      ensures cache == CacheAfter(kind, digest, old(cache), c)
    {
      if !Accepts(kind, c.r) {
        return Refused;
      }
      var key := Key(kind, digest, c.r);
      if key in cache && cache[key].refreshAt != 0 && c.at < cache[key].refreshAt {
        return Served(cache[key].token);
      }
      if c.grant.Err? {
        return Failed;
      }
      var at := CacheRefreshAt(c.after, c.grant.value.expiresIn);
      if at != 0 {
        cache := cache[key := Cached(c.grant.value.token, at)];
      } else {
        cache := cache - {key};
      }
      return Minted(c.grant.value.token);
    }
  }

  // ---------------------------------------------------------------- every run of calls

  /** Readings never go back, within a call or between calls. */
  ghost predicate Clocked(calls: seq<Call>) {
    && (forall i :: 0 <= i < |calls| ==> calls[i].at <= calls[i].after)
    && (forall i, j :: 0 <= i < j < |calls| ==> calls[i].after <= calls[j].at)
  }

  /** The cache the calls leave behind. */
  function CacheOf(kind: Kind, digest: string -> string, calls: seq<Call>): Cache {
    if calls == [] then map[]
    else CacheAfter(kind, digest, CacheOf(kind, digest, calls[..|calls| - 1]), calls[|calls| - 1])
  }

  function OutcomeAt(kind: Kind, digest: string -> string, calls: seq<Call>, i: nat): Outcome
    requires i < |calls|
  {
    OutcomeOf(kind, digest, CacheOf(kind, digest, calls[..i]), calls[i])
  }

  /** Call j was the last to obtain a token for the key, and that token is what is cached. */
  ghost predicate Source(kind: Kind, digest: string -> string, calls: seq<Call>, key: string, e: Cached, j: nat) {
    && j < |calls| && OutcomeAt(kind, digest, calls, j).Minted? && Key(kind, digest, calls[j].r) == key
    && calls[j].grant.value.token == e.token
    && CacheRefreshAt(calls[j].after, calls[j].grant.value.expiresIn) == e.refreshAt != 0
    && forall k :: j < k < |calls| ==> !MintedFor(kind, digest, calls, k, key)
  }

  ghost predicate MintedFor(kind: Kind, digest: string -> string, calls: seq<Call>, k: nat, key: string)
    requires k < |calls|
  {
    OutcomeAt(kind, digest, calls, k).Minted? && Key(kind, digest, calls[k].r) == key
  }

  lemma SourceStays(kind: Kind, digest: string -> string, calls: seq<Call>, c: Call, key: string, e: Cached, j: nat)
    ensures Source(kind, digest, calls, key, e, j) && !MintedFor(kind, digest, calls + [c], |calls|, key) ==>
              Source(kind, digest, calls + [c], key, e, j)
  {
    if Source(kind, digest, calls, key, e, j) && !MintedFor(kind, digest, calls + [c], |calls|, key) {
      assert (calls + [c])[..j] == calls[..j];
      forall k | j < k < |calls| + 1 ensures !MintedFor(kind, digest, calls + [c], k, key) {
        if k < |calls| {
          assert (calls + [c])[..k] == calls[..k] && !MintedFor(kind, digest, calls, k, key);
        }
      }
    }
  }

  /** Every entry was obtained by a call of the run, for its own key. */
  lemma {:induction false} EntriesHaveSources(kind: Kind, digest: string -> string, calls: seq<Call>, key: string)
    requires key in CacheOf(kind, digest, calls)
    ensures exists j :: Source(kind, digest, calls, key, CacheOf(kind, digest, calls)[key], j)
  {
    var n := |calls| - 1;
    var before, c := calls[..n], calls[n];
    var was := CacheOf(kind, digest, before);
    assert calls == before + [c];
    if OutcomeOf(kind, digest, was, c).Minted? && Key(kind, digest, c.r) == key {
      assert Source(kind, digest, calls, key, CacheOf(kind, digest, calls)[key], n);
    } else {
      EntriesHaveSources(kind, digest, before, key);
      var j :| Source(kind, digest, before, key, was[key], j);
      assert (before + [c])[..n] == before;
      SourceStays(kind, digest, before, c, key, was[key], j);
    }
  }

  /**
    Over every run with a clock that never goes back, a token served from the cache was obtained by the
    last earlier call to obtain one under that key, strictly before the expiry that call was told, and with
    more than the margin of that lifetime to spare, whether or not the duration wraps.
   */
  lemma ServedInTime(kind: Kind, digest: string -> string, calls: seq<Call>, i: nat)
    requires Clocked(calls) && i < |calls| && OutcomeAt(kind, digest, calls, i).Served?
    ensures exists j :: 0 <= j < i && ServedFrom(kind, digest, calls, i, j)
  {
    var key := Key(kind, digest, calls[i].r);
    EntriesHaveSources(kind, digest, calls[..i], key);
    var j: nat :| Source(kind, digest, calls[..i], key, CacheOf(kind, digest, calls[..i])[key], j);
    SourceServes(kind, digest, calls, i, j);
  }

  lemma SourceServes(kind: Kind, digest: string -> string, calls: seq<Call>, i: nat, j: nat)
    requires Clocked(calls) && i < |calls| && OutcomeAt(kind, digest, calls, i).Served?
    requires var key, cache := Key(kind, digest, calls[i].r), CacheOf(kind, digest, calls[..i]);
             Source(kind, digest, calls[..i], key, cache[key], j)
    ensures j < i && ServedFrom(kind, digest, calls, i, j)
  {
    assert calls[..i][..j] == calls[..j] && calls[..i][j] == calls[j];
    assert calls[j].after <= calls[i].at;
    ServedBeforeExpiry(calls[j].after, calls[j].grant.value.expiresIn, calls[i].at);
    forall k | j < k < i ensures !MintedFor(kind, digest, calls, k, Key(kind, digest, calls[i].r)) {
      assert calls[..i][..k] == calls[..k];
      assert !MintedFor(kind, digest, calls[..i], k, Key(kind, digest, calls[i].r));
    }
  }

  ghost predicate ServedFrom(kind: Kind, digest: string -> string, calls: seq<Call>, i: nat, j: nat)
    requires i < |calls| && j < |calls|
  {
    var got := OutcomeAt(kind, digest, calls, j);
    && got.Minted? && OutcomeAt(kind, digest, calls, i) == Served(got.token)
    && Key(kind, digest, calls[j].r) == Key(kind, digest, calls[i].r)
    && (forall k :: j < k < i ==> !MintedFor(kind, digest, calls, k, Key(kind, digest, calls[i].r)))
    && calls[j].grant.Ok? && calls[j].grant.value.expiresIn > 0
    && var expiry := calls[j].after + calls[j].grant.value.expiresIn * SECOND;
       && calls[i].at < expiry
       && expiry - calls[i].at > Min(MARGIN, calls[j].grant.value.expiresIn * (SECOND / 10))
  }

  /** What the last call to obtain a token under a key obtained is what is cached, while it is cacheable. */
  lemma {:induction false} LastMintIsCached(
    kind: Kind, digest: string -> string, calls: seq<Call>, key: string, j: nat, n: nat)
    requires j < n <= |calls| && MintedFor(kind, digest, calls, j, key)
    requires forall k :: j < k < n ==> !MintedFor(kind, digest, calls, k, key)
    requires CacheRefreshAt(calls[j].after, calls[j].grant.value.expiresIn) != 0
    ensures key in CacheOf(kind, digest, calls[..n])
    ensures CacheOf(kind, digest, calls[..n])[key] ==
              Cached(calls[j].grant.value.token, CacheRefreshAt(calls[j].after, calls[j].grant.value.expiresIn))
  {
    assert calls[..n][..n - 1] == calls[..n - 1] && calls[..n][n - 1] == calls[n - 1];
    if n > j + 1 {
      LastMintIsCached(kind, digest, calls, key, j, n - 1);
      assert !MintedFor(kind, digest, calls, n - 1, key);
    }
  }

  /** Call j obtained a token under the key of call i, none did since, and it is still to be served at call i. */
  ghost predicate StillGood(kind: Kind, digest: string -> string, calls: seq<Call>, i: nat, j: nat)
    requires i < |calls| && j < |calls|
  {
    var key := Key(kind, digest, calls[i].r);
    && MintedFor(kind, digest, calls, j, key) && (forall k :: j < k < i ==> !MintedFor(kind, digest, calls, k, key))
    && var refreshAt := CacheRefreshAt(calls[j].after, calls[j].grant.value.expiresIn);
       refreshAt != 0 && calls[i].at < refreshAt
  }

  /**
    A call is refused exactly on its own fields; otherwise it is served from the cache exactly when the last
    token obtained under its key is still before its refresh time, and then with that token; and only when
    there is none is the issuer asked.
   */
  lemma ServedExactly(kind: Kind, digest: string -> string, calls: seq<Call>, i: nat)
    requires i < |calls|
    ensures OutcomeAt(kind, digest, calls, i).Refused? <==>
              || calls[i].r.clientAuth != "client_secret_basic"
              || calls[i].r.grant != (if kind == ClientCredentials then "client_credentials" else "token_exchange")
              || (kind == TokenExchange && (calls[i].r.subject == "" || calls[i].r.audience == ""))
    ensures OutcomeAt(kind, digest, calls, i).Served? <==>
              && !OutcomeAt(kind, digest, calls, i).Refused?
              && exists j :: 0 <= j < i && StillGood(kind, digest, calls, i, j)
    ensures !OutcomeAt(kind, digest, calls, i).Refused? ==>
              forall j :: 0 <= j < i && StillGood(kind, digest, calls, i, j) ==>
                            OutcomeAt(kind, digest, calls, i) == Served(calls[j].grant.value.token)
    ensures !OutcomeAt(kind, digest, calls, i).Refused? && !OutcomeAt(kind, digest, calls, i).Served? ==>
              OutcomeAt(kind, digest, calls, i) ==
                if calls[i].grant.Ok? then Minted(calls[i].grant.value.token) else Failed
  {
    var key, cache := Key(kind, digest, calls[i].r), CacheOf(kind, digest, calls[..i]);
    forall j | 0 <= j < i && StillGood(kind, digest, calls, i, j)
      ensures Hit(cache, key, calls[i].at) && cache[key].token == calls[j].grant.value.token
    {
      LastMintIsCached(kind, digest, calls, key, j, i);
    }
    if Hit(cache, key, calls[i].at) {
      EntriesHaveSources(kind, digest, calls[..i], key);
      var j: nat :| Source(kind, digest, calls[..i], key, cache[key], j);
      SourceIsGood(kind, digest, calls, i, j);
    }
  }

  lemma SourceIsGood(kind: Kind, digest: string -> string, calls: seq<Call>, i: nat, j: nat)
    requires i < |calls|
    requires var key, cache := Key(kind, digest, calls[i].r), CacheOf(kind, digest, calls[..i]);
             Hit(cache, key, calls[i].at) && Source(kind, digest, calls[..i], key, cache[key], j)
    ensures j < i && StillGood(kind, digest, calls, i, j)
  {
    assert calls[..i][..j] == calls[..j] && calls[..i][j] == calls[j];
    forall k | j < k < i ensures !MintedFor(kind, digest, calls, k, Key(kind, digest, calls[i].r)) {
      assert calls[..i][..k] == calls[..k];
      assert !MintedFor(kind, digest, calls[..i], k, Key(kind, digest, calls[i].r));
    }
  }

  /** A token exchanged for one resource and subject is served for that pair alone, or two subjects' digests collide. */
  lemma ServedToItsOwner(digest: string -> string, calls: seq<Call>, i: nat)
    requires forall x :: |digest(x)| == 64
    requires Clocked(calls) && i < |calls| && OutcomeAt(TokenExchange, digest, calls, i).Served?
    ensures exists j :: 0 <= j < i && ServedFrom(TokenExchange, digest, calls, i, j) &&
                        calls[j].r.resource == calls[i].r.resource &&
                        (calls[j].r.subject == calls[i].r.subject ||
                         Collide(digest, calls[j].r.subject, calls[i].r.subject))
  {
    ServedInTime(TokenExchange, digest, calls, i);
    var j :| 0 <= j < i && ServedFrom(TokenExchange, digest, calls, i, j);
    KeyOfExchange(digest, calls[j].r, calls[i].r);
  }

  ghost predicate Collide(digest: string -> string, x: string, y: string) { x != y && digest(x) == digest(y) }
}
