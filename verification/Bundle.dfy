/**
  Configuration directories, bundles and the files/v1 content hash
  (internal/config/load.go configFiles, bundle.go, hash.go).

  `H` is the 32-byte digest. No theorem assumes it is injective: equal hashes give equal bundles,
  or two of the very strings that were hashed collide. `printable` is unicode.IsPrint.
 */
module Bundle {
  import opened Prelude
  import opened Order

  /** What a name in a directory is: a file, a subdirectory, or something that cannot be read as a file. */
  datatype Entry = File(bytes: string) | Subdir | Unreadable

  datatype Group = Agents | Workflows | Roles

  /** A configuration directory: the group subdirectories that exist, and gateway.yaml if there is such a name. */
  datatype Dir = Dir(groups: map<Group, map<string, Entry>>, gateway: Option<Entry>)

  type Files = map<string, string>

  const GATEWAY := "gateway.yaml"
  const MAX_NAME := 200

  function Prefix(g: Group): string {
    match g case Agents => "agents/" case Workflows => "workflows/" case Roles => "roles/"
  }

  predicate HasConfigExt(name: string) {
    (|name| >= 5 && name[|name| - 5..] == ".yaml") || (|name| >= 4 && name[|name| - 4..] == ".yml")
  }

  // ---------------------------------------------------------------- paths

  predicate InGroup(rel: string, g: Group) { Prefix(g) <= rel }

  function NameIn(rel: string, g: Group): string
    requires InGroup(rel, g)
  {
    rel[|Prefix(g)|..]
  }

  predicate ValidName(name: string, printable: char -> bool) {
    && name != "" && name != "." && name != ".." && '/' !in name && '\\' !in name
    && HasConfigExt(name) && |name| <= MAX_NAME
    && forall i :: 0 <= i < |name| ==> name[i] != '\U{FFFD}' && printable(name[i])
  }

  predicate ValidIn(rel: string, g: Group, printable: char -> bool) {
    InGroup(rel, g) && ValidName(NameIn(rel, g), printable)
  }

  /** A path the enumeration could produce. */
  predicate ValidBundlePath(rel: string, printable: char -> bool) {
    || rel == GATEWAY
    || ValidIn(rel, Agents, printable) || ValidIn(rel, Workflows, printable) || ValidIn(rel, Roles, printable)
  }

  /** A path belongs to at most one place: its first character already tells. */
  lemma GroupsAreApart(rel: string, g: Group, h: Group)
    requires InGroup(rel, g)
    ensures rel != GATEWAY
    ensures InGroup(rel, h) ==> g == h
  {
    assert rel[0] == Prefix(g)[0];
    assert InGroup(rel, h) ==> rel[0] == Prefix(h)[0];
    assert GATEWAY[0] == 'g';
  }

  lemma PathIsPrefixAndName(rel: string, g: Group, name: string)
    ensures InGroup(rel, g) && NameIn(rel, g) == name <==> rel == Prefix(g) + name
  {
  }

  // ---------------------------------------------------------------- the enumeration

  /** The names of one group the loader reads: config extensions, subdirectories skipped. */
  function GroupNames(d: Dir, g: Group): set<string> {
    if g !in d.groups then {} else set n | n in d.groups[g] && !d.groups[g][n].Subdir? && HasConfigExt(n)
  }

  function GroupFiles(d: Dir, g: Group): seq<string> { Prefixed(Prefix(g), Ordered(GroupNames(d, g))) }

  function Tail(gateway: bool): seq<string> { if gateway then [GATEWAY] else [] }

  /** The paths the loader and the hash read, in the order they read them. */
  function ConfigFiles(d: Dir): seq<string> {
    GroupFiles(d, Agents) + GroupFiles(d, Workflows) + GroupFiles(d, Roles) + Tail(d.gateway.Some?)
  }

  function LookupIn(d: Dir, g: Group, name: string): Option<Entry> {
    if g in d.groups && name in d.groups[g] then Some(d.groups[g][name]) else None
  }

  /** What is at a path. */
  function Lookup(d: Dir, rel: string): Option<Entry> {
    if rel == GATEWAY then d.gateway
    else if InGroup(rel, Agents) then LookupIn(d, Agents, NameIn(rel, Agents))
    else if InGroup(rel, Workflows) then LookupIn(d, Workflows, NameIn(rel, Workflows))
    else if InGroup(rel, Roles) then LookupIn(d, Roles, NameIn(rel, Roles))
    else None
  }

  lemma LookupUnderPrefix(d: Dir, g: Group, rel: string)
    requires InGroup(rel, g)
    ensures Lookup(d, rel) == LookupIn(d, g, NameIn(rel, g))
  {
    GroupsAreApart(rel, g, Agents);
    GroupsAreApart(rel, g, Workflows);
    GroupsAreApart(rel, g, Roles);
  }

  function Read(d: Dir, rel: string): Result<string> {
    var e := Lookup(d, rel);
    if e.Some? && e.value.File? then Ok(e.value.bytes) else Err
  }

  function Reader(d: Dir): string -> Result<string> { rel => Read(d, rel) }

  // ---------------------------------------------------------------- a bundle's order

  function KeysIn(keys: set<string>, g: Group): set<string> { set k | k in keys && InGroup(k, g) }

  /** A bundle's keys in the order the enumeration would list them. */
  function BundleOrder(keys: set<string>): seq<string> {
    Ordered(KeysIn(keys, Agents)) + Ordered(KeysIn(keys, Workflows)) + Ordered(KeysIn(keys, Roles)) +
    Tail(GATEWAY in keys)
  }

  predicate IsPlaced(rel: string) {
    rel == GATEWAY || InGroup(rel, Agents) || InGroup(rel, Workflows) || InGroup(rel, Roles)
  }

  /** Every key sits at the gateway or in a group. */
  predicate Placed(keys: set<string>) {
    forall k :: k in keys ==> IsPlaced(k)
  }

  lemma BundleOrderHolds(keys: set<string>, k: string)
    requires Placed(keys)
    ensures k in BundleOrder(keys) <==> k in keys
  {
    OrderedHolds(KeysIn(keys, Agents));
    OrderedHolds(KeysIn(keys, Workflows));
    OrderedHolds(KeysIn(keys, Roles));
  }

  predicate AllIn(rels: seq<string>, keys: set<string>) { forall rel :: rel in rels ==> rel in keys }

  lemma BundleOrderIsInKeys(keys: set<string>)
    requires Placed(keys)
    ensures AllIn(BundleOrder(keys), keys)
  {
    forall rel | rel in BundleOrder(keys) ensures rel in keys { BundleOrderHolds(keys, rel); }
  }

  predicate AllValid(files: Files, printable: char -> bool) {
    forall rel :: rel in files ==> ValidBundlePath(rel, printable)
  }

  lemma ValidIsPlaced(files: Files, printable: char -> bool)
    requires AllValid(files, printable)
    ensures Placed(files.Keys)
  {
  }

  // ---------------------------------------------------------------- the hash

  /** Canon files/v1: per file, the digest of its path and the digest of its bytes. */
  function Frames(H: string -> string, rels: seq<string>, data: Files): string
    requires AllIn(rels, data.Keys)
  {
    if rels == [] then ""
    else
      var last := rels[|rels| - 1];
      Frames(H, rels[..|rels| - 1], data) + (H(last) + H(data[last]))
  }

  predicate AllRead(read: string -> Result<string>, rels: seq<string>) {
    forall rel :: rel in rels ==> read(rel).Ok?
  }

  function Reads(read: string -> Result<string>, rels: seq<string>): Files {
    map rel | rel in rels && read(rel).Ok? :: read(rel).value
  }

  /** The running outer digest over a list of files, each read as it is reached. */
  method HashListed(H: string -> string, rels: seq<string>, read: string -> Result<string>) returns (h: Result<string>)
    ensures h == if AllRead(read, rels) then Ok(H(Frames(H, rels, Reads(read, rels)))) else Err
  {
    var outer := "";
    ghost var data := Reads(read, rels);
    for i := 0 to |rels|
      invariant AllRead(read, rels[..i])
      invariant AllIn(rels[..i], data.Keys)
      invariant outer == Frames(H, rels[..i], data)
    {
      var bytes := read(rels[i]);
      if bytes.Err? {
        return Err;
      }
      assert rels[..i + 1] == rels[..i] + [rels[i]];
      assert rels[..i + 1][..i] == rels[..i];
      assert rels[i] in data.Keys;
      outer := outer + (H(rels[i]) + H(bytes.value));
    }
    assert rels[..|rels|] == rels;
    return Ok(H(outer));
  }

  predicate AllReadable(d: Dir) { AllRead(Reader(d), ConfigFiles(d)) }

  /** The files of a directory the enumeration lists and a read returns. */
  function Contents(d: Dir): Files { Reads(Reader(d), ConfigFiles(d)) }

  /** The hash of a directory is the digest of its frames; one unreadable file makes it an error. */
  function DirHash(H: string -> string, d: Dir): Result<string> {
    if AllReadable(d) then Ok(H(Frames(H, ConfigFiles(d), Contents(d)))) else Err
  }

  method HashDir(H: string -> string, root: Option<Dir>) returns (h: Result<string>)
    ensures h == if root.None? then Err else DirHash(H, root.value)
  {
    if root.None? {
      return Err;
    }
    h := HashListed(H, ConfigFiles(root.value), Reader(root.value));
  }

  function FilesHash(H: string -> string, files: Files, printable: char -> bool): Result<string> {
    if !AllValid(files, printable) then Err
    else
      ValidIsPlaced(files, printable);
      BundleOrderIsInKeys(files.Keys);
      Ok(H(Frames(H, BundleOrder(files.Keys), files)))
  }

  lemma {:induction false} FramesAgree(H: string -> string, rels: seq<string>, a: Files, b: Files)
    requires AllIn(rels, a.Keys) && AllIn(rels, b.Keys)
    requires forall rel :: rel in rels ==> a[rel] == b[rel]
    ensures Frames(H, rels, a) == Frames(H, rels, b)
  {
    if rels != [] { FramesAgree(H, rels[..|rels| - 1], a, b); }
  }

  method HashFiles(H: string -> string, files: Files, printable: char -> bool) returns (h: Result<string>)
    ensures h == FilesHash(H, files, printable)
  {
    if !AllValid(files, printable) {
      return Err;
    }
    ValidIsPlaced(files, printable);
    BundleOrderIsInKeys(files.Keys);
    var order := BundleOrder(files.Keys);
    h := HashMapped(H, order, files);
  }

  method HashMapped(H: string -> string, order: seq<string>, files: Files) returns (h: Result<string>)
    requires AllIn(order, files.Keys)
    ensures h == Ok(H(Frames(H, order, files)))
  {
    var read := (rel: string) => if rel in files then Ok(files[rel]) else Err;
    h := HashListed(H, order, read);
    FramesAgree(H, order, Reads(read, order), files);
  }

  // ---------------------------------------------------------------- reading a bundle

  predicate Bundleable(d: Dir, printable: char -> bool) {
    forall rel :: rel in ConfigFiles(d) ==> ValidBundlePath(rel, printable)
  }

  function BundleOf(d: Dir, printable: char -> bool): Result<Files> {
    if Bundleable(d, printable) && AllReadable(d) then Ok(Contents(d)) else Err
  }

  method ReadListed(rels: seq<string>, read: string -> Result<string>, valid: string -> bool)
    returns (bundle: Result<Files>)
    ensures bundle ==
      if (forall rel :: rel in rels ==> valid(rel)) && AllRead(read, rels) then Ok(Reads(read, rels)) else Err
  {
    var m: Files := map[];
    for i := 0 to |rels|
      invariant forall rel :: rel in rels[..i] ==> valid(rel) && read(rel).Ok?
      invariant m == Reads(read, rels[..i])
    {
      if !valid(rels[i]) {
        return Err;
      }
      var bytes := read(rels[i]);
      if bytes.Err? {
        return Err;
      }
      assert rels[..i + 1] == rels[..i] + [rels[i]];
      m := m[rels[i] := bytes.value];
    }
    assert rels[..|rels|] == rels;
    return Ok(m);
  }

  method ReadBundle(root: Option<Dir>, printable: char -> bool) returns (bundle: Result<Files>)
    ensures bundle == if root.None? then Err else BundleOf(root.value, printable)
  {
    if root.None? {
      return Err;
    }
    var d := root.value;
    var valid := (rel: string) => ValidBundlePath(rel, printable);
    var rels := ConfigFiles(d);
    bundle := ReadListed(rels, Reader(d), valid);
    assert (forall rel :: rel in rels ==> valid(rel)) <==> Bundleable(d, printable);
  }

  // ---------------------------------------------------------------- directory and bundle hash alike

  lemma GroupFilesHold(d: Dir, g: Group, k: string)
    ensures k in GroupFiles(d, g) <==> InGroup(k, g) && NameIn(k, g) in GroupNames(d, g)
  {
    var names := GroupNames(d, g);
    OrderedUnderPrefix(Prefix(g), names);
    OrderedHolds(PrefixedSet(Prefix(g), names));
    if InGroup(k, g) { PathIsPrefixAndName(k, g, NameIn(k, g)); }
    forall n | n in names && k == Prefix(g) + n ensures InGroup(k, g) && NameIn(k, g) == n {
      PathIsPrefixAndName(k, g, n);
    }
  }

  /** Where a listed path came from. */
  lemma ConfigFilesHold(d: Dir, k: string)
    ensures k in ConfigFiles(d) <==>
              || (k == GATEWAY && d.gateway.Some?)
              || k in GroupFiles(d, Agents) || k in GroupFiles(d, Workflows) || k in GroupFiles(d, Roles)
  {
  }

  lemma ListedInGroup(d: Dir, g: Group, k: string)
    requires InGroup(k, g)
    ensures k in ConfigFiles(d) <==> k in GroupFiles(d, g)
  {
    ConfigFilesHold(d, k);
    GroupsAreApart(k, g, Agents);
    GroupsAreApart(k, g, Workflows);
    GroupsAreApart(k, g, Roles);
    GroupFilesHold(d, Agents, k);
    GroupFilesHold(d, Workflows, k);
    GroupFilesHold(d, Roles, k);
  }

  lemma ListedGateway(d: Dir)
    ensures GATEWAY in ConfigFiles(d) <==> d.gateway.Some?
  {
    ConfigFilesHold(d, GATEWAY);
    GroupFilesHold(d, Agents, GATEWAY);
    GroupFilesHold(d, Workflows, GATEWAY);
    GroupFilesHold(d, Roles, GATEWAY);
    forall g | InGroup(GATEWAY, g) ensures false { GroupsAreApart(GATEWAY, g, g); }
  }

  lemma KeyOfListed(d: Dir, g: Group, k: string)
    ensures InGroup(k, g) && k in ConfigFiles(d) <==> k in GroupFiles(d, g)
  {
    GroupFilesHold(d, g, k);
    if InGroup(k, g) { ListedInGroup(d, g, k); }
  }

  ghost predicate SameMembers(keys: set<string>, rels: seq<string>) { forall k :: k in keys <==> k in rels }

  lemma SameMembersOfGroup(d: Dir, g: Group, keys: set<string>)
    requires SameMembers(keys, ConfigFiles(d))
    ensures SameMembers(KeysIn(keys, g), GroupFiles(d, g))
  {
    forall k ensures k in KeysIn(keys, g) <==> k in GroupFiles(d, g) { KeyOfListed(d, g, k); }
  }

  lemma GroupOfListed(d: Dir, g: Group, keys: set<string>)
    requires SameMembers(keys, ConfigFiles(d))
    ensures Ordered(KeysIn(keys, g)) == GroupFiles(d, g)
  {
    var under := PrefixedSet(Prefix(g), GroupNames(d, g));
    OrderedUnderPrefix(Prefix(g), GroupNames(d, g));
    OrderedHolds(under);
    SameMembersOfGroup(d, g, keys);
    assert KeysIn(keys, g) == under;
  }

  /** The map's order is the directory's. */
  lemma SameOrder(d: Dir, keys: set<string>)
    requires SameMembers(keys, ConfigFiles(d))
    ensures BundleOrder(keys) == ConfigFiles(d)
  {
    GroupOfListed(d, Agents, keys);
    GroupOfListed(d, Workflows, keys);
    GroupOfListed(d, Roles, keys);
    ListedGateway(d);
  }

  /** For every directory with bundleable names, the bundle read from it hashes as the directory does. */
  lemma BundleHashesAsItsDirectory(H: string -> string, d: Dir, printable: char -> bool)
    requires Bundleable(d, printable)
    ensures BundleOf(d, printable).Ok? <==> AllReadable(d)
    ensures AllReadable(d) <==> DirHash(H, d).Ok?
    ensures AllReadable(d) ==> FilesHash(H, BundleOf(d, printable).value, printable) == DirHash(H, d)
  {
    if AllReadable(d) {
      SameOrder(d, Contents(d).Keys);
      assert AllValid(Contents(d), printable);
    }
  }

  // ---------------------------------------------------------------- the hash names the bundle

  ghost predicate Is32Bytes(H: string -> string) { forall x :: |H(x)| == 32 }

  ghost predicate Collide(H: string -> string, x: string, y: string) { x != y && H(x) == H(y) }

  /** The strings the hash of a list of files digests: each path, each file's bytes, and the frames. */
  ghost function Hashed(H: string -> string, rels: seq<string>, data: Files): set<string>
    requires AllIn(rels, data.Keys)
  {
    (set rel | rel in rels) + (set rel | rel in rels :: data[rel]) + {Frames(H, rels, data)}
  }

  ghost predicate CollisionBetween(H: string -> string, xs: set<string>, ys: set<string>) {
    exists x, y :: x in xs && y in ys && Collide(H, x, y)
  }

  lemma {:induction false} FramesLength(H: string -> string, rels: seq<string>, data: Files)
    requires Is32Bytes(H) && AllIn(rels, data.Keys)
    ensures |Frames(H, rels, data)| == 64 * |rels|
  {
    if rels != [] { FramesLength(H, rels[..|rels| - 1], data); }
  }

  lemma SplitFrame(p: string, x: string, y: string, q: string, z: string, w: string)
    requires p + (x + y) == q + (z + w) && |p| == |q| && |x| == |z| == 32 && |y| == |w| == 32
    ensures p == q && x == z && y == w
  {
    var s, t := p + (x + y), q + (z + w);
    assert p == s[..|p|] && q == t[..|q|];
    assert x + y == s[|p|..] && z + w == t[|q|..];
    assert x == (x + y)[..32] && z == (z + w)[..32];
    assert y == (x + y)[32..] && w == (z + w)[32..];
  }

  /** Equal frames list the same files with the same bytes, or a path or a file's bytes collide with another. */
  lemma {:induction false} FramesAreInjective(H: string -> string, r: seq<string>, a: Files, s: seq<string>, b: Files)
    requires Is32Bytes(H) && AllIn(r, a.Keys) && AllIn(s, b.Keys)
    requires Frames(H, r, a) == Frames(H, s, b)
    ensures |r| == |s|
    ensures || (r == s && forall rel :: rel in r ==> a[rel] == b[rel])
            || (exists i :: 0 <= i < |r| && (Collide(H, r[i], s[i]) || Collide(H, a[r[i]], b[s[i]])))
  {
    FramesLength(H, r, a);
    FramesLength(H, s, b);
    if r != [] {
      var n := |r| - 1;
      var r', s' := r[..n], s[..n];
      SplitFrame(Frames(H, r', a), H(r[n]), H(a[r[n]]), Frames(H, s', b), H(s[n]), H(b[s[n]]));
      FramesAreInjective(H, r', a, s', b);
      if r' == s' && r[n] == s[n] {
        assert r == r' + [r[n]] && s == s' + [s[n]];
      }
      if i :| 0 <= i < |r'| && (Collide(H, r'[i], s'[i]) || Collide(H, a[r'[i]], b[s'[i]])) {
        assert r[i] == r'[i] && s[i] == s'[i];
      }
    }
  }

  /** Two bundles with one hash are the same map, or two of the strings hashed for them collide. */
  lemma EqualHashesAreEqualBundles(H: string -> string, a: Files, b: Files, printable: char -> bool)
    requires Is32Bytes(H) && AllValid(a, printable) && AllValid(b, printable)
    requires FilesHash(H, a, printable) == FilesHash(H, b, printable)
    ensures Placed(a.Keys) && Placed(b.Keys) && AllIn(BundleOrder(a.Keys), a.Keys) && AllIn(BundleOrder(b.Keys), b.Keys)
    ensures a == b || CollisionBetween(H, Hashed(H, BundleOrder(a.Keys), a), Hashed(H, BundleOrder(b.Keys), b))
  {
    ValidIsPlaced(a, printable);
    ValidIsPlaced(b, printable);
    BundleOrderIsInKeys(a.Keys);
    BundleOrderIsInKeys(b.Keys);
    var r, s := BundleOrder(a.Keys), BundleOrder(b.Keys);
    forall k ensures (k in r <==> k in a) && (k in s <==> k in b) {
      BundleOrderHolds(a.Keys, k);
      BundleOrderHolds(b.Keys, k);
    }
    SameFrames(H, r, a, s, b);
  }

  lemma SameFrames(H: string -> string, r: seq<string>, a: Files, s: seq<string>, b: Files)
    requires Is32Bytes(H) && SameMembers(a.Keys, r) && SameMembers(b.Keys, s)
    requires H(Frames(H, r, a)) == H(Frames(H, s, b))
    ensures a == b || CollisionBetween(H, Hashed(H, r, a), Hashed(H, s, b))
  {
    if Frames(H, r, a) == Frames(H, s, b) {
      FramesAreInjective(H, r, a, s, b);
      if i :| 0 <= i < |r| && (Collide(H, r[i], s[i]) || Collide(H, a[r[i]], b[s[i]])) {
        assert r[i] in Hashed(H, r, a) && s[i] in Hashed(H, s, b);
        assert a[r[i]] in Hashed(H, r, a) && b[s[i]] in Hashed(H, s, b);
      } else {
        assert a.Keys == b.Keys;
      }
    } else {
      assert Collide(H, Frames(H, r, a), Frames(H, s, b));
    }
  }

  // ---------------------------------------------------------------- writing a bundle

  /** The directory with one more file, its group created if this is the group's first. */
  function Put(d: Dir, rel: string, bytes: string): Dir {
    if InGroup(rel, Agents) then PutIn(d, Agents, NameIn(rel, Agents), bytes)
    else if InGroup(rel, Workflows) then PutIn(d, Workflows, NameIn(rel, Workflows), bytes)
    else if InGroup(rel, Roles) then PutIn(d, Roles, NameIn(rel, Roles), bytes)
    else d.(gateway := Some(File(bytes)))
  }

  function PutIn(d: Dir, g: Group, name: string, bytes: string): Dir {
    var group := if g in d.groups then d.groups[g] else map[];
    d.(groups := d.groups[g := group[name := File(bytes)]])
  }

  lemma PutUnderPrefix(d: Dir, g: Group, rel: string, bytes: string)
    requires InGroup(rel, g)
    ensures Put(d, rel, bytes) == PutIn(d, g, NameIn(rel, g), bytes)
  {
    GroupsAreApart(rel, g, Agents);
    GroupsAreApart(rel, g, Workflows);
    GroupsAreApart(rel, g, Roles);
  }

  lemma LookupElsewhere(d: Dir, rel: string)
    requires !IsPlaced(rel)
    ensures Lookup(d, rel) == None
  {
  }

  lemma LookupAfterPutIn(d: Dir, g: Group, rel: string, bytes: string, k: string)
    requires InGroup(rel, g)
    ensures Lookup(PutIn(d, g, NameIn(rel, g), bytes), k) == if k == rel then Some(File(bytes)) else Lookup(d, k)
  {
    var e := PutIn(d, g, NameIn(rel, g), bytes);
    if h :| InGroup(k, h) {
      LookupUnderPrefix(d, h, k);
      LookupUnderPrefix(e, h, k);
      GroupsAreApart(k, h, g);
      PathIsPrefixAndName(k, h, NameIn(k, h));
      PathIsPrefixAndName(rel, g, NameIn(rel, g));
    } else {
      assert k != rel;
      if k != GATEWAY {
        LookupElsewhere(d, k);
        LookupElsewhere(e, k);
      }
    }
  }

  /** A written file is found at its path, and nothing else has changed. */
  lemma LookupAfterPut(d: Dir, rel: string, bytes: string, k: string)
    requires IsPlaced(rel)
    ensures Lookup(Put(d, rel, bytes), k) == if k == rel then Some(File(bytes)) else Lookup(d, k)
  {
    if g :| InGroup(rel, g) {
      PutUnderPrefix(d, g, rel, bytes);
      LookupAfterPutIn(d, g, rel, bytes, k);
    }
  }

  /** The directory holds exactly the files of `rels`. */
  ghost predicate Written(d: Dir, rels: seq<string>, files: Files)
    requires AllIn(rels, files.Keys)
  {
    forall k :: Lookup(d, k) == if k in rels then Some(File(files[k])) else None
  }

  lemma WrittenPut(d: Dir, rels: seq<string>, rel: string, files: Files)
    requires AllIn(rels, files.Keys) && rel in files && IsPlaced(rel) && Written(d, rels, files)
    ensures Written(Put(d, rel, files[rel]), rels + [rel], files)
  {
    forall k ensures Lookup(Put(d, rel, files[rel]), k) == if k in rels + [rel] then Some(File(files[k])) else None {
      LookupAfterPut(d, rel, files[rel], k);
    }
  }

  predicate Distinct(s: seq<string>) { forall i, j :: 0 <= i < j < |s| ==> s[i] != s[j] }

  predicate Disjoint(s: seq<string>, t: seq<string>) { forall x :: x in s ==> x !in t }

  lemma DistinctJoin(s: seq<string>, t: seq<string>)
    requires Distinct(s) && Distinct(t) && Disjoint(s, t)
    ensures Distinct(s + t)
  {
    forall i, j | 0 <= i < j < |s + t| ensures (s + t)[i] != (s + t)[j] {
      if i < |s| <= j { assert s[i] in s && t[j - |s|] in t; }
    }
  }

  lemma GroupIsDistinct(keys: set<string>, g: Group)
    ensures Distinct(Ordered(KeysIn(keys, g)))
  {
    var o := Ordered(KeysIn(keys, g));
    forall i, j | 0 <= i < j < |o| ensures o[i] != o[j] { OrderedIsIncreasing(KeysIn(keys, g), i, j); }
  }

  lemma GroupsAreDisjoint(keys: set<string>, g: Group, h: Group)
    requires g != h
    ensures Disjoint(Ordered(KeysIn(keys, g)), Ordered(KeysIn(keys, h)))
    ensures Disjoint(Ordered(KeysIn(keys, g)), Tail(GATEWAY in keys))
  {
    OrderedHolds(KeysIn(keys, g));
    OrderedHolds(KeysIn(keys, h));
    forall x | x in KeysIn(keys, g) ensures x !in KeysIn(keys, h) && x != GATEWAY { GroupsAreApart(x, g, h); }
  }

  /** No key is listed twice, so every file is created exclusively. */
  lemma BundleOrderIsDistinct(keys: set<string>)
    ensures Distinct(BundleOrder(keys))
  {
    GroupIsDistinct(keys, Agents);
    GroupIsDistinct(keys, Workflows);
    GroupIsDistinct(keys, Roles);
    GroupsAreDisjoint(keys, Agents, Workflows);
    GroupsAreDisjoint(keys, Agents, Roles);
    GroupsAreDisjoint(keys, Workflows, Roles);
    GroupsAreDisjoint(keys, Roles, Agents);
    var a, w, r, t := Ordered(KeysIn(keys, Agents)), Ordered(KeysIn(keys, Workflows)), Ordered(KeysIn(keys, Roles)),
      Tail(GATEWAY in keys);
    DistinctJoin(a, w);
    DistinctJoin(a + w, r);
    DistinctJoin(a + w + r, t);
  }

  lemma ValidHasExt(rel: string, g: Group, printable: char -> bool)
    requires InGroup(rel, g) && ValidBundlePath(rel, printable)
    ensures HasConfigExt(NameIn(rel, g))
  {
    GroupsAreApart(rel, g, Agents);
    GroupsAreApart(rel, g, Workflows);
    GroupsAreApart(rel, g, Roles);
  }

  lemma WrittenIsListed(d: Dir, rels: seq<string>, files: Files, printable: char -> bool, k: string)
    requires AllValid(files, printable) && SameMembers(files.Keys, rels) && Written(d, rels, files)
    ensures k in ConfigFiles(d) <==> k in files
    ensures k in files ==> Read(d, k) == Ok(files[k])
  {
    if g :| InGroup(k, g) {
      ListedInGroup(d, g, k);
      GroupFilesHold(d, g, k);
      LookupUnderPrefix(d, g, k);
      if k in files { ValidHasExt(k, g, printable); }
    } else {
      ConfigFilesHold(d, k);
      GroupFilesHold(d, Agents, k);
      GroupFilesHold(d, Workflows, k);
      GroupFilesHold(d, Roles, k);
      assert Lookup(d, k) == if k in rels then Some(File(files[k])) else None;
      if k != GATEWAY { LookupElsewhere(d, k); }
    }
  }

  /** Reading back what was written returns every file and no other. */
  lemma WrittenReadsBack(d: Dir, rels: seq<string>, files: Files, printable: char -> bool)
    requires AllValid(files, printable) && SameMembers(files.Keys, rels) && Written(d, rels, files)
    ensures BundleOf(d, printable) == Ok(files)
  {
    forall k ensures (k in ConfigFiles(d) <==> k in files) && (k in files ==> Read(d, k) == Ok(files[k])) {
      WrittenIsListed(d, rels, files, printable, k);
    }
    assert Contents(d) == files;
  }

  /** The place a bundle is written to. */
  class Target {
    var dir: Option<Dir>

    constructor (dir: Option<Dir>)
      ensures this.dir == dir
    {
      this.dir := dir;
    }

    method WriteListed(order: seq<string>, files: Files, fails: string -> bool) returns (ok: bool)
      requires dir == Some(Dir(map[], None))
      requires AllIn(order, files.Keys) && Distinct(order) && forall rel :: rel in order ==> IsPlaced(rel)
      modifies this
      ensures ok <==> forall rel :: rel in order ==> !fails(rel)
      ensures ok ==> dir.Some? && Written(dir.value, order, files)
      ensures !ok ==> dir == None
    {
      for i := 0 to |order|
        invariant dir.Some?
        invariant forall j :: 0 <= j < i ==> !fails(order[j])
        invariant AllIn(order[..i], files.Keys) && Written(dir.value, order[..i], files)
      {
        var rel := order[i];
        var taken := Lookup(dir.value, rel).Some?;
        if taken || fails(rel) {
          dir := None;
          return false;
        }
        WrittenPut(dir.value, order[..i], rel, files);
        assert order[..i + 1] == order[..i] + [rel];
        dir := Some(Put(dir.value, rel, files[rel]));
      }
      assert order[..|order|] == order;
      return true;
    }

    /** All or nothing: the bundle reads back whole, or the target is as it was. */
    method WriteBundle(files: Files, printable: char -> bool, fails: string -> bool) returns (ok: bool)
      modifies this
      ensures ok <==> AllValid(files, printable) && old(dir).None? && forall rel :: rel in files ==> !fails(rel)
      ensures ok ==> dir.Some? && BundleOf(dir.value, printable) == Ok(files)
      ensures !ok ==> dir == old(dir)
    {
      if !AllValid(files, printable) || dir.Some? {
        return false;
      }
      dir := Some(Dir(map[], None));
      ValidIsPlaced(files, printable);
      var order := BundleOrder(files.Keys);
      OrderServes(files);
      ok := WriteListed(order, files, fails);
      if ok { WrittenReadsBack(dir.value, order, files, printable); }
    }
  }

  lemma OrderServes(files: Files)
    requires Placed(files.Keys)
    ensures AllIn(BundleOrder(files.Keys), files.Keys) && SameMembers(files.Keys, BundleOrder(files.Keys))
    ensures Distinct(BundleOrder(files.Keys))
    ensures forall rel :: rel in BundleOrder(files.Keys) ==> IsPlaced(rel)
  {
    BundleOrderIsInKeys(files.Keys);
    BundleOrderIsDistinct(files.Keys);
    forall k ensures k in files <==> k in BundleOrder(files.Keys) { BundleOrderHolds(files.Keys, k); }
  }

  /** A snapshot staged from a bundle hashes as the bundle did. */
  lemma WrittenHashesAlike(H: string -> string, d: Dir, files: Files, printable: char -> bool)
    requires BundleOf(d, printable) == Ok(files)
    ensures DirHash(H, d) == FilesHash(H, files, printable)
  {
    BundleHashesAsItsDirectory(H, d, printable);
  }

  // ---------------------------------------------------------------- what is listed, in what order, and how framed

  ghost predicate Extends(name: string, ext: string) { exists stem :: name == stem + ext }

  /** A configuration file's name is anything before .yaml or .yml. */
  lemma ConfigExtExactly(name: string)
    ensures HasConfigExt(name) <==> Extends(name, ".yaml") || Extends(name, ".yml")
  {
    if HasConfigExt(name) {
      if |name| >= 5 && name[|name| - 5..] == ".yaml" {
        assert name == name[..|name| - 5] + ".yaml";
      } else {
        assert name == name[..|name| - 4] + ".yml";
      }
    }
    if stem :| name == stem + ".yaml" { assert name[|name| - 5..] == ".yaml"; }
    if stem :| name == stem + ".yml" { assert name[|name| - 4..] == ".yml"; }
  }

  /** Listed exactly: the entries of a group that are not directories and have either extension, and gateway.yaml. */
  lemma ListedExactly(d: Dir, g: Group, name: string)
    ensures Prefix(g) + name in ConfigFiles(d) <==>
              && g in d.groups && name in d.groups[g] && !d.groups[g][name].Subdir?
              && (Extends(name, ".yaml") || Extends(name, ".yml"))
    ensures "gateway.yaml" in ConfigFiles(d) <==> d.gateway.Some?
  {
    PathIsPrefixAndName(Prefix(g) + name, g, name);
    ListedInGroup(d, g, Prefix(g) + name);
    GroupFilesHold(d, g, Prefix(g) + name);
    ConfigExtExactly(name);
    ListedGateway(d);
  }

  /** Nothing else is listed. */
  lemma ListedIsPlaced(d: Dir, k: string)
    requires k in ConfigFiles(d)
    ensures k == "gateway.yaml" || exists g: Group, name :: k == Prefix(g) + name
  {
    ConfigFilesHold(d, k);
    GroupFilesHold(d, Agents, k);
    GroupFilesHold(d, Workflows, k);
    GroupFilesHold(d, Roles, k);
    if k != GATEWAY {
      var g := if InGroup(k, Agents) then Agents else if InGroup(k, Workflows) then Workflows else Roles;
      PathIsPrefixAndName(k, g, NameIn(k, g));
    }
  }

  function Rank(g: Group): nat { match g case Agents => 0 case Workflows => 1 case Roles => 2 }

  /** One group's keys, sorted, and where they begin in the order of all keys. */
  function Part(keys: set<string>, g: Group): seq<string> { Ordered(KeysIn(keys, g)) }

  function StartOf(keys: set<string>, g: Group): nat {
    match g
    case Agents => 0
    case Workflows => |Part(keys, Agents)|
    case Roles => |Part(keys, Agents)| + |Part(keys, Workflows)|
  }

  predicate IsAt(keys: set<string>, i: nat, g: Group) {
    && StartOf(keys, g) <= i < StartOf(keys, g) + |Part(keys, g)| && i < |BundleOrder(keys)|
    && BundleOrder(keys)[i] == Part(keys, g)[i - StartOf(keys, g)]
  }

  /** Each position of the order lies in one group's part, or is the gateway's at the end. */
  lemma PartOfOrder(keys: set<string>, i: nat)
    requires i < |BundleOrder(keys)|
    ensures || IsAt(keys, i, Agents) || IsAt(keys, i, Workflows) || IsAt(keys, i, Roles)
            || (BundleOrder(keys)[i] == GATEWAY && i == |BundleOrder(keys)| - 1)
  {
  }

  lemma AtIsInGroup(keys: set<string>, i: nat, g: Group)
    requires IsAt(keys, i, g)
    ensures InGroup(BundleOrder(keys)[i], g)
  {
    OrderedHolds(KeysIn(keys, g));
    assert Part(keys, g)[i - StartOf(keys, g)] in Part(keys, g);
  }

  lemma PlaceInOrder(keys: set<string>, i: nat, g: Group)
    requires i < |BundleOrder(keys)| && InGroup(BundleOrder(keys)[i], g)
    ensures IsAt(keys, i, g)
  {
    PartOfOrder(keys, i);
    GroupsAreApart(BundleOrder(keys)[i], g, g);
    if h :| IsAt(keys, i, h) {
      AtIsInGroup(keys, i, h);
      GroupsAreApart(BundleOrder(keys)[i], g, h);
    }
  }

  lemma GroupsInOrder(keys: set<string>, i: nat, j: nat, g: Group, h: Group)
    requires i < j && IsAt(keys, i, g) && IsAt(keys, j, h)
    ensures Rank(g) < Rank(h) || (g == h && Leq(BundleOrder(keys)[i], BundleOrder(keys)[j]))
  {
    if g == h { OrderedIsIncreasing(KeysIn(keys, g), i - StartOf(keys, g), j - StartOf(keys, g)); }
  }

  /** The canonical order: agents, then workflows, then roles, then the gateway; within a group, by the full path. */
  lemma OrderIsCanonical(keys: set<string>, i: nat, j: nat)
    requires i < j < |BundleOrder(keys)|
    ensures BundleOrder(keys)[i] != GATEWAY
    ensures forall g, h :: InGroup(BundleOrder(keys)[i], g) && InGroup(BundleOrder(keys)[j], h) ==>
              Rank(g) < Rank(h) || (g == h && Leq(BundleOrder(keys)[i], BundleOrder(keys)[j]))
  {
    forall g, h | InGroup(BundleOrder(keys)[i], g) && InGroup(BundleOrder(keys)[j], h)
      ensures Rank(g) < Rank(h) || (g == h && Leq(BundleOrder(keys)[i], BundleOrder(keys)[j]))
    {
      PlaceInOrder(keys, i, g);
      PlaceInOrder(keys, j, h);
      GroupsInOrder(keys, i, j, g, h);
    }
    if BundleOrder(keys)[i] == GATEWAY { GatewayIsLast(keys, i); }
  }

  lemma GatewayIsLast(keys: set<string>, i: nat)
    requires i < |BundleOrder(keys)| && BundleOrder(keys)[i] == GATEWAY
    ensures i == |BundleOrder(keys)| - 1
  {
    PartOfOrder(keys, i);
    if g :| IsAt(keys, i, g) {
      AtIsInGroup(keys, i, g);
      GroupsAreApart(GATEWAY, g, g);
    }
  }

  /** A file's frame is the digest of its path and then the digest of its bytes. */
  lemma FrameOfOne(H: string -> string, rel: string, data: Files)
    requires rel in data
    ensures Frames(H, [rel], data) == H(rel) + H(data[rel])
  {
    assert [rel][..0] == [];
    assert "" + (H(rel) + H(data[rel])) == H(rel) + H(data[rel]);
  }

  /** And the frames of a list follow one another. */
  lemma {:induction false} FramesOfMany(H: string -> string, a: seq<string>, b: seq<string>, data: Files)
    requires AllIn(a, data.Keys) && AllIn(b, data.Keys) && AllIn(a + b, data.Keys)
    ensures Frames(H, a + b, data) == Frames(H, a, data) + Frames(H, b, data)
    decreases |b|
  {
    if b == [] {
      assert a + b == a;
    } else {
      var n := |b| - 1;
      var front, last := b[..n], H(b[n]) + H(data[b[n]]);
      assert (a + b)[..|a + b| - 1] == a + front && (a + b)[|a + b| - 1] == b[n];
      FramesOfMany(H, a, front, data);
      Associate(Frames(H, a, data), Frames(H, front, data), last);
    }
  }

  lemma Associate(x: string, y: string, z: string)
    ensures x + y + z == x + (y + z)
  {
  }

  predicate Plain(name: string, printable: char -> bool) {
    forall i :: 0 <= i < |name| ==> name[i] != '/' && name[i] != '\\' && name[i] != '\U{FFFD}' && printable(name[i])
  }

  predicate IsBundleName(name: string, printable: char -> bool) {
    |name| <= 200 && Plain(name, printable) && HasConfigExt(name)
  }

  lemma ValidNameExactly(name: string, printable: char -> bool)
    ensures ValidName(name, printable) <==> IsBundleName(name, printable)
  {
  }

  predicate IsBundleFile(rel: string, g: Group, name: string, printable: char -> bool) {
    rel == Prefix(g) + name && IsBundleName(name, printable)
  }

  lemma FileIsValid(rel: string, g: Group, name: string, printable: char -> bool)
    requires IsBundleFile(rel, g, name, printable)
    ensures ValidBundlePath(rel, printable)
  {
    PathIsPrefixAndName(rel, g, name);
    ValidNameExactly(name, printable);
    assert ValidIn(rel, g, printable);
    match g case Agents => case Workflows => case Roles =>
  }

  lemma ValidIsFile(rel: string, g: Group, printable: char -> bool)
    requires ValidIn(rel, g, printable)
    ensures IsBundleFile(rel, g, NameIn(rel, g), printable)
  {
    PathIsPrefixAndName(rel, g, NameIn(rel, g));
    ValidNameExactly(NameIn(rel, g), printable);
  }

  /**
    A bundle path is exactly gateway.yaml, or a group, a slash and a name of at most 200 characters, plain,
    with either extension.
   */
  lemma ValidExactly(rel: string, printable: char -> bool)
    ensures ValidBundlePath(rel, printable) <==>
              rel == "gateway.yaml" || exists g, name :: IsBundleFile(rel, g, name, printable)
  {
    if g, name :| IsBundleFile(rel, g, name, printable) { FileIsValid(rel, g, name, printable); }
    if ValidIn(rel, Agents, printable) {
      ValidIsFile(rel, Agents, printable);
    } else if ValidIn(rel, Workflows, printable) {
      ValidIsFile(rel, Workflows, printable);
    } else if ValidIn(rel, Roles, printable) {
      ValidIsFile(rel, Roles, printable);
    }
  }
}
