/**
  The walk of a delegation tree (internal/completeness/tree.go): from one run, through the
  spawn events that name its children, judging each ledger and the links both ways.
 */
module DelegationTree {
  import opened Prelude
  import opened Completeness

  datatype Integrity = Verified | Torn | Broken | Unreadable

  /** What reading one run ledger yields: the decoded prefix and the integrity word. */
  datatype Ledger = Ledger(events: seq<Event>, integrity: Integrity)

  /**
    A log directory: its ledgers, and the parent each scanned ledger's first line names
    ("" for a root or an undecodable line). `parents` is None when the scan failed.
   */
  datatype LogDir = LogDir(ledgers: map<string, Ledger>, parents: Option<map<string, string>>)

  datatype Node = Node(runID: string, integrity: Integrity, report: Report)

  datatype Tree = Tree(root: Node, children: seq<Node>)

  const NOT_JUDGED := Report(NotJudged, 0)

  function Downgrade(rep: Report): Report {
    if rep.verdict == Gap then rep else Report(Gap, 0)
  }

  predicate MakesNoClaim(dir: LogDir, id: string)
    requires id in dir.ledgers
  {
    Judge(dir.ledgers[id].events).verdict == NoClaim
  }

  // ---------------------------------------------------------------- what a good walk means

  predicate NamesChild(e: Event, child: string, depth: int) {
    e.kind == Spawn && e.childRunID == child && child != "" && e.depth == depth
  }

  predicate IsSpawnOf(e: Event, id: string, depth: int) { e.kind == Spawn && e.childRunID == id && e.depth == depth }

  /** c's own first event names p as its parent, and a spawn event of p names c at the depth c records. */
  ghost predicate Spawned(dir: LogDir, p: string, c: string) {
    && p in dir.ledgers && c in dir.ledgers
    && !MakesNoClaim(dir, p)
    && dir.ledgers[c].events != []
    && var b := dir.ledgers[c].events[0].binding;
    && b.parentRunID == p
    && exists i :: 0 <= i < |dir.ledgers[p].events| && NamesChild(dir.ledgers[p].events[i], c, b.depth)
  }

  /** A chain of spawns from one run down to another. */
  ghost predicate Descent(dir: LogDir, path: seq<string>, from: string, to: string) {
    && path != [] && path[0] == from && path[|path| - 1] == to
    && forall i :: 0 <= i < |path| - 1 ==> Spawned(dir, path[i], path[i + 1])
  }

  ghost predicate Descends(dir: LogDir, from: string, to: string) {
    exists path :: Descent(dir, path, from, to)
  }

  /** A chain of parent links alone, from `to` up to `from`, that passes below no no-claim run. */
  ghost predicate ParentPath(dir: LogDir, path: seq<string>, from: string, to: string)
    requires dir.parents.Some?
  {
    && path != [] && path[0] == from && path[|path| - 1] == to
    && forall i :: 0 <= i < |path| - 1 ==> LinksUp(dir, path[i], path[i + 1])
  }

  /** The scan says c's parent is p, and p is a run whose children are walked. */
  ghost predicate LinksUp(dir: LogDir, p: string, c: string)
    requires dir.parents.Some?
  {
    && c in dir.parents.value && dir.parents.value[c] == p
    && p in dir.ledgers && !MakesNoClaim(dir, p)
  }

  /**
    The one-line scan and the full read agree: every ledger is scanned, and the parent the scan
    found is the one its first decoded event names.
   */
  ghost predicate ScanAgrees(dir: LogDir) {
    && dir.parents.Some?
    && forall id :: id in dir.ledgers ==>
         && id in dir.parents.value
         && (dir.ledgers[id].events != [] ==>
               dir.parents.value[id] == dir.ledgers[id].events[0].binding.parentRunID)
  }

  /** Every scanned ledger that names x as its parent has been seen. */
  ghost predicate Closed(dir: LogDir, x: string, seen: set<string>) {
    dir.parents.Some? && forall id :: id in dir.parents.value && dir.parents.value[id] == x ==> id in seen
  }

  predicate NamesSome(e: Event) {
    e.kind == Spawn && e.childRunID != ""
  }

  /**
    Nothing to find: every ledger verifies and accounts for itself, every spawn event names a
    ledger that links back at its depth, and every ledger is named by its scanned parent.
   */
  ghost predicate WellLinked(dir: LogDir) {
    && dir.parents.Some?
    && (forall id :: id in dir.ledgers ==>
          && dir.ledgers[id].integrity == Verified
          && Judge(dir.ledgers[id].events).verdict in {Complete, NoClaim}
          && forall i :: 0 <= i < |dir.ledgers[id].events| && NamesSome(dir.ledgers[id].events[i]) ==>
               LinksBack(dir, id, dir.ledgers[id].events[i]))
    && (forall id :: id in dir.parents.value && dir.parents.value[id] in dir.ledgers ==>
          exists i :: 0 <= i < |dir.ledgers[dir.parents.value[id]].events| &&
            NamesSome(dir.ledgers[dir.parents.value[id]].events[i]) &&
            dir.ledgers[dir.parents.value[id]].events[i].childRunID == id)
  }

  /** The child a spawn event names has a ledger whose first event, if any, names p at the event's depth. */
  predicate FollowsWell(dir: LogDir, p: string, e: Event) {
    && e.childRunID in dir.ledgers
    && (dir.ledgers[e.childRunID].events != [] ==>
          && dir.ledgers[e.childRunID].events[0].binding.parentRunID == p
          && dir.ledgers[e.childRunID].events[0].binding.depth == e.depth)
  }

  ghost predicate NamesWell(dir: LogDir, p: string)
    requires p in dir.ledgers
  {
    forall i :: 0 <= i < |dir.ledgers[p].events| && NamesSome(dir.ledgers[p].events[i]) ==>
                  FollowsWell(dir, p, dir.ledgers[p].events[i])
  }

  /** Every scanned ledger that names p as its parent is named by a spawn event of p. */
  ghost predicate IsNamedByAll(dir: LogDir, p: string)
    requires p in dir.ledgers
  {
    dir.parents.Some? && forall c :: c in dir.parents.value && dir.parents.value[c] == p ==> IsNamed(dir, p, c)
  }

  ghost predicate IsNamed(dir: LogDir, p: string, c: string)
    requires p in dir.ledgers
  {
    exists i :: 0 <= i < |dir.ledgers[p].events| && NamesSome(dir.ledgers[p].events[i]) &&
                dir.ledgers[p].events[i].childRunID == c
  }

  /** The children the first n events name. */
  function NamedIn(events: seq<Event>, n: nat): set<string>
    requires n <= |events|
  {
    if n == 0 then {}
    else NamedIn(events, n - 1) + if NamesSome(events[n - 1]) then {events[n - 1].childRunID} else {}
  }

  lemma {:induction false} NamedInMeans(events: seq<Event>, n: nat, c: string)
    requires n <= |events|
    ensures c in NamedIn(events, n) <==> exists i :: 0 <= i < n && NamesSome(events[i]) && events[i].childRunID == c
  {
    if n > 0 { NamedInMeans(events, n - 1, c); }
  }

  predicate LinksBack(dir: LogDir, p: string, e: Event) {
    && e.childRunID in dir.ledgers && dir.ledgers[e.childRunID].events != []
    && dir.ledgers[e.childRunID].events[0].binding == Binding(p, e.depth)
  }

  function Ids(nodes: seq<Node>): set<string> {
    set i | 0 <= i < |nodes| :: nodes[i].runID
  }

  ghost predicate Distinct(nodes: seq<Node>) {
    forall i, j :: 0 <= i < j < |nodes| ==> nodes[i].runID != nodes[j].runID
  }

  ghost predicate CleanNode(n: Node) {
    n.integrity == Verified && (n.report.verdict == Complete || n.report.verdict == NoClaim)
  }

  ghost predicate Clean(rep: Report, added: seq<Node>) {
    rep.verdict == Complete && forall n :: n in added ==> CleanNode(n)
  }

  /** A node carries its ledger's integrity, and NoClaim exactly when its ledger makes no claim. */
  ghost predicate Faithful(dir: LogDir, n: Node) {
    && n.runID in dir.ledgers
    && n.integrity == dir.ledgers[n.runID].integrity
    && (n.integrity == Verified ==>
          n.report.verdict != NotJudged && (n.report.verdict == NoClaim <==> MakesNoClaim(dir, n.runID)))
  }

  /** What a clean walk below runID has established. */
  ghost predicate Settled(dir: LogDir, runID: string, added: seq<Node>, seen: set<string>) {
    forall n :: n in added ==>
      && Descends(dir, runID, n.runID)
      && (n.report.verdict == Complete ==> Closed(dir, n.runID, seen))
  }

  lemma DescendsFrom(dir: LogDir, p: string, c: string, to: string)
    requires Spawned(dir, p, c) && Descends(dir, c, to)
    ensures Descends(dir, p, to)
  {
    var path :| Descent(dir, path, c, to);
    var longer := [p] + path;
    forall i | 0 <= i < |longer| - 1 ensures Spawned(dir, longer[i], longer[i + 1]) {
      if i > 0 { assert longer[i] == path[i - 1] && longer[i + 1] == path[i]; }
    }
    assert Descent(dir, longer, p, to);
  }

  lemma DescendsSelf(dir: LogDir, p: string)
    ensures Descends(dir, p, p)
  {
    assert Descent(dir, [p], p, p);
  }

  /**
    One stretch of the walk below runID, from the marks seen0 to the marks seen: the nodes it
    added are new and distinct and, if nothing was found wrong, settled and exactly what it marked.
   */
  ghost predicate Progress(
    dir: LogDir, runID: string, rep: Report, added: seq<Node>, seen0: set<string>, seen: set<string>)
  {
    && seen0 <= seen
    && Distinct(added) && Ids(added) <= seen - seen0
    && (forall n :: n in added ==> Faithful(dir, n))
    && (Clean(rep, added) ==> seen == seen0 + Ids(added) && Settled(dir, runID, added, seen))
    && (WellLinked(dir) ==> forall n :: n in added ==> CleanNode(n))
  }

  lemma IdsOfJoin(a: seq<Node>, b: seq<Node>)
    ensures Ids(a + b) == Ids(a) + Ids(b)
  {
    forall id | id in Ids(a) + Ids(b) ensures id in Ids(a + b) {
      if id in Ids(a) {
        var i :| 0 <= i < |a| && a[i].runID == id;
        assert (a + b)[i].runID == id;
      } else {
        var i :| 0 <= i < |b| && b[i].runID == id;
        assert (a + b)[|a| + i].runID == id;
      }
    }
  }

  lemma DistinctJoin(a: seq<Node>, b: seq<Node>)
    requires Distinct(a) && Distinct(b) && Ids(a) !! Ids(b)
    ensures Distinct(a + b)
  {
    var all := a + b;
    forall i, j | 0 <= i < j < |all| ensures all[i].runID != all[j].runID {
      if i < |a| <= j { assert a[i].runID in Ids(a) && b[j - |a|].runID in Ids(b); }
    }
  }

  lemma CleanParts(rep: Report, a: seq<Node>, b: seq<Node>)
    requires Clean(rep, a + b)
    ensures Clean(rep, a) && Clean(rep, b)
  {
    forall n | n in a || n in b ensures CleanNode(n) { assert n in a + b; }
  }

  lemma ProgressJoins(dir: LogDir, runID: string, rep: Report, a: seq<Node>, seen0: set<string>, seen1: set<string>,
                      rep': Report, b: seq<Node>, seen2: set<string>)
    requires Progress(dir, runID, rep, a, seen0, seen1) && Progress(dir, runID, rep', b, seen1, seen2)
    requires rep' == rep || rep'.verdict == Gap
    ensures Progress(dir, runID, rep', a + b, seen0, seen2)
  {
    IdsOfJoin(a, b);
    DistinctJoin(a, b);
    if Clean(rep', a + b) {
      CleanParts(rep', a, b);
    }
  }

  /** Below runID: child c, and what was walked below c. */
  lemma SettleChild(dir: LogDir, runID: string, c: Node, below: seq<Node>, seen: set<string>)
    requires Spawned(dir, runID, c.runID) && Settled(dir, c.runID, below, seen)
    requires c.report.verdict == Complete ==> Closed(dir, c.runID, seen)
    ensures Settled(dir, runID, below + [c], seen)
  {
    forall n | n in below + [c]
      ensures Descends(dir, runID, n.runID) && (n.report.verdict == Complete ==> Closed(dir, n.runID, seen))
    {
      if n in below {
        DescendsFrom(dir, runID, c.runID, n.runID);
      } else {
        DescendsSelf(dir, c.runID);
        DescendsFrom(dir, runID, c.runID, c.runID);
      }
    }
  }

  // ---------------------------------------------------------------- the walk

  class Walker {
    var seen: set<string>
    var children: seq<Node>

    constructor (root: string)
      ensures seen == {root} && children == []
    {
      seen, children := {root}, [];
    }

    /**
      Judges runID's links: every child it names, and then every scanned ledger that names it.
      Ends on any graph of links: a ledger is marked before it is walked.
     */
    method Link(dir: LogDir, runID: string, events: seq<Event>, report: Report) returns (rep: Report)
      requires runID in dir.ledgers && dir.ledgers[runID].events == events && !MakesNoClaim(dir, runID)
      requires report.verdict != NoClaim && report.verdict != NotJudged
      modifies this
      ensures rep == report || (rep.verdict == Gap && !WellLinked(dir))
      ensures NamesWell(dir, runID) && (report.verdict == Unterminated || IsNamedByAll(dir, runID)) ==> rep == report
      ensures dir.parents.None? && report.verdict != Unterminated ==> rep.verdict == Gap
      ensures report.verdict != Unterminated && dir.parents.Some? && !IsNamedByAll(dir, runID) ==> rep.verdict == Gap
      ensures old(children) <= children
      ensures Progress(dir, runID, rep, children[|old(children)|..], old(seen), seen)
      ensures rep.verdict == Complete ==> Closed(dir, runID, seen)
      decreases dir.ledgers.Keys - seen, 2
    {
      var named;
      rep, named := LinkForward(dir, runID, events, report);
      forall c ensures c in named <==> IsNamed(dir, runID, c) { NamedInMeans(events, |events|, c); }
      if rep.verdict == Unterminated {
        return;
      }
      if dir.parents.None? {
        rep := Downgrade(rep);
        return;
      }
      rep := ReverseCheck(dir.parents.value, runID, named, rep);
    }

    /** The forward check: every child a spawn event of runID names. */
    method LinkForward(dir: LogDir, runID: string, events: seq<Event>, report: Report)
      returns (rep: Report, named: set<string>)
      requires runID in dir.ledgers && dir.ledgers[runID].events == events && !MakesNoClaim(dir, runID)
      modifies this
      ensures rep == report || (rep.verdict == Gap && !WellLinked(dir))
      ensures NamesWell(dir, runID) ==> rep == report
      ensures named == NamedIn(events, |events|)
      ensures old(children) <= children && named <= seen
      ensures Progress(dir, runID, rep, children[|old(children)|..], old(seen), seen)
      decreases dir.ledgers.Keys - seen, 1
    {
      rep, named := report, {};
      ghost var added: seq<Node> := [];
      for i := 0 to |events|
        invariant rep == report || (rep.verdict == Gap && !WellLinked(dir))
        invariant NamesWell(dir, runID) ==> rep == report
        invariant named == NamedIn(events, i)
        invariant named <= seen && children == old(children) + added
        invariant Progress(dir, runID, rep, added, old(seen), seen)
      {
        var e := events[i];
        if e.kind != Spawn || e.childRunID == "" {
          continue;
        }
        named := named + {e.childRunID};
        if e.childRunID in seen {
          continue;
        }
        ghost var rep0, seen1 := rep, seen;
        ghost var more: seq<Node>;
        rep, more := Follow(dir, runID, i, rep);
        ProgressJoins(dir, runID, rep0, added, old(seen), seen1, rep, more, seen);
        added := added + more;
      }
      assert children[|old(children)|..] == added;
    }

    /** Follows the spawn event at i to a child not seen before. */
    method Follow(dir: LogDir, runID: string, i: nat, report: Report) returns (rep: Report, ghost added: seq<Node>)
      requires runID in dir.ledgers && !MakesNoClaim(dir, runID)
      requires i < |dir.ledgers[runID].events| && dir.ledgers[runID].events[i].kind == Spawn
      requires dir.ledgers[runID].events[i].childRunID !in seen + {""}
      modifies this
      ensures rep == report || (rep.verdict == Gap && !WellLinked(dir))
      ensures rep == if FollowsWell(dir, runID, dir.ledgers[runID].events[i]) then report else Downgrade(report)
      ensures dir.ledgers[runID].events[i].childRunID in seen
      ensures children == old(children) + added
      ensures Progress(dir, runID, rep, added, old(seen), seen)
      decreases dir.ledgers.Keys - seen, 0
    {
      var e := dir.ledgers[runID].events[i];
      var child := e.childRunID;
      rep, added := report, [];
      seen := seen + {child};
      if child !in dir.ledgers {
        rep := Downgrade(rep);
        return;
      }
      var cl := dir.ledgers[child];
      if cl.events != [] {
        var b := cl.events[0].binding;
        if b.parentRunID != runID {
          rep := Downgrade(rep);
        } else if b.depth != e.depth {
          rep := Downgrade(rep);
        } else {
          assert NamesChild(dir.ledgers[runID].events[i], child, b.depth);
        }
      }
      ghost var seen1 := seen;
      var node;
      node, added := Visit(dir, child, cl);
      children := children + [node];
      IdsOfJoin(added, [node]);
      DistinctJoin(added, [node]);
      if Clean(rep, added + [node]) {
        CleanParts(rep, added, [node]);
        SettleChild(dir, runID, node, added, seen);
      }
      added := added + [node];
    }

    /** A child that has a ledger: judged when its chain verified, and walked unless it makes no claim. */
    method Visit(dir: LogDir, child: string, cl: Ledger) returns (node: Node, ghost below: seq<Node>)
      requires child in dir.ledgers && dir.ledgers[child] == cl && child in seen
      modifies this
      ensures node.runID == child && Faithful(dir, node)
      ensures children == old(children) + below
      ensures Progress(dir, child, Report(Complete, 0), below, old(seen), seen) || !CleanNode(node)
      ensures old(seen) <= seen && Distinct(below) && Ids(below) <= seen - old(seen)
      ensures forall n :: n in below ==> Faithful(dir, n)
      ensures WellLinked(dir) ==> CleanNode(node)
      ensures CleanNode(node) ==> cl.events != [] && (node.report.verdict == Complete ==> Closed(dir, child, seen))
      decreases dir.ledgers.Keys - seen, 3
    {
      node, below := Node(child, cl.integrity, NOT_JUDGED), [];
      if cl.integrity == Verified {
        var report := Check(cl.events);
        if report.verdict != NoClaim {
          report := Link(dir, child, cl.events, report);
          below := children[|old(children)|..];
        }
        node := node.(report := report);
      }
    }
  }

  /** Downgrades once some scanned ledger names runID and no spawn event named it. */
  method ReverseCheck(parents: map<string, string>, runID: string, named: set<string>, report: Report)
    returns (rep: Report)
    ensures rep == report || rep.verdict == Gap
    ensures rep.verdict != Gap ==> forall id :: id in parents && parents[id] == runID ==> id in named
    ensures (forall id :: id in parents && parents[id] == runID ==> id in named) ==> rep == report
    ensures (exists id :: id in parents && parents[id] == runID && id !in named) ==> rep.verdict == Gap
  {
    rep := report;
    var rest := parents.Keys;
    while rest != {}
      invariant rest <= parents.Keys
      invariant rep == report || rep.verdict == Gap
      invariant (forall id :: id in parents && parents[id] == runID ==> id in named) ==> rep == report
      invariant rep.verdict != Gap ==> forall id :: id in parents && id !in rest && parents[id] == runID ==> id in named
    {
      var id :| id in rest;
      if parents[id] == runID && id !in named {
        rep := Downgrade(rep);
      }
      rest := rest - {id};
    }
  }

  // ---------------------------------------------------------------- the exit code

  function ExitCode(t: Tree): int {
    if t.root.integrity != Verified || exists n :: n in t.children && n.integrity != Verified then 1
    else if exists n :: n in [t.root] + t.children && n.report.verdict == Gap then 11
    else if exists n :: n in [t.root] + t.children && n.report.verdict == Unterminated then 12
    else 0
  }

  /** The precedence loops: integrity first, then a gap anywhere, then an unterminated run. */
  method ComputeExitCode(t: Tree) returns (code: int)
    ensures code == ExitCode(t)
    ensures code == 1 <==> exists n :: n in [t.root] + t.children && n.integrity != Verified
    ensures code == 11 <==>
              && (forall n :: n in [t.root] + t.children ==> n.integrity == Verified)
              && exists n :: n in [t.root] + t.children && n.report.verdict == Gap
    ensures code == 12 <==>
              && (forall n :: n in [t.root] + t.children ==> n.integrity == Verified && n.report.verdict != Gap)
              && exists n :: n in [t.root] + t.children && n.report.verdict == Unterminated
    ensures code in {0, 1, 11, 12}
  {
    if t.root.integrity != Verified {
      return 1;
    }
    for i := 0 to |t.children|
      invariant forall j :: 0 <= j < i ==> t.children[j].integrity == Verified
    {
      if t.children[i].integrity != Verified {
        return 1;
      }
    }
    var all := [t.root] + t.children;
    for i := 0 to |all|
      invariant forall j :: 0 <= j < i ==> all[j].report.verdict != Gap
    {
      if all[i].report.verdict == Gap {
        return 11;
      }
    }
    for i := 0 to |all|
      invariant forall j :: 0 <= j < i ==> all[j].report.verdict != Unterminated
    {
      if all[i].report.verdict == Unterminated {
        return 12;
      }
    }
    return 0;
  }

  function Walked(t: Tree): set<string> {
    {t.root.runID} + Ids(t.children)
  }

  /** What exit code 0 certifies: the walk is exactly the tree of runs the root is responsible for. */
  ghost predicate ExactTree(dir: LogDir, t: Tree) {
    && Distinct(t.children) && t.root.runID !in Ids(t.children)
    && (forall id :: id in Walked(t) ==> Descends(dir, t.root.runID, id))
    && (dir.parents.Some? ==> forall path, id :: ParentPath(dir, path, t.root.runID, id) ==> id in Walked(t))
  }

  lemma ExactFromSettled(dir: LogDir, t: Tree)
    requires t.root.runID in dir.ledgers && Faithful(dir, t.root) && CleanNode(t.root)
    requires Distinct(t.children) && t.root.runID !in Ids(t.children)
    requires forall n :: n in t.children ==> CleanNode(n) && Faithful(dir, n)
    requires Settled(dir, t.root.runID, t.children, Walked(t))
    requires t.root.report.verdict == Complete ==> Closed(dir, t.root.runID, Walked(t))
    ensures ExactTree(dir, t)
  {
    DescendsSelf(dir, t.root.runID);
    forall id | id in Ids(t.children) ensures Descends(dir, t.root.runID, id) {
      var i :| 0 <= i < |t.children| && t.children[i].runID == id;
      assert t.children[i] in t.children;
    }
    if dir.parents.Some? {
      forall path, id | ParentPath(dir, path, t.root.runID, id) ensures id in Walked(t) {
        PathIsWalked(dir, t, path, |path| - 1);
      }
    }
  }

  /** A parent path stays inside the walk, one link at a time. */
  lemma {:induction false} PathIsWalked(dir: LogDir, t: Tree, path: seq<string>, i: nat)
    requires dir.parents.Some? && i < |path| && ParentPath(dir, path, t.root.runID, path[|path| - 1])
    requires Faithful(dir, t.root) && CleanNode(t.root)
    requires forall n :: n in t.children ==> CleanNode(n) && Faithful(dir, n)
    requires Settled(dir, t.root.runID, t.children, Walked(t))
    requires t.root.report.verdict == Complete ==> Closed(dir, t.root.runID, Walked(t))
    ensures path[i] in Walked(t)
  {
    if i > 0 {
      var p := path[i - 1];
      PathIsWalked(dir, t, path, i - 1);
      assert LinksUp(dir, p, path[i - 1 + 1]);
      if p != t.root.runID {
        var k :| 0 <= k < |t.children| && t.children[k].runID == p;
        assert t.children[k] in t.children;
      }
    }
  }

  /** A spawn chain is a parent path, when the scan agrees with the ledgers. */
  lemma DescentIsParentPath(dir: LogDir, path: seq<string>, from: string, to: string)
    requires ScanAgrees(dir) && Descent(dir, path, from, to)
    ensures ParentPath(dir, path, from, to)
  {
    forall i | 0 <= i < |path| - 1 ensures LinksUp(dir, path[i], path[i + 1]) {
      assert Spawned(dir, path[i], path[i + 1]);
    }
  }

  /** With exit code 0 the walked runs are exactly those whose parent links lead to the root. */
  lemma WalkIsTheParentTree(dir: LogDir, t: Tree, id: string)
    requires ScanAgrees(dir) && ExactTree(dir, t)
    ensures id in Walked(t) <==> exists path :: ParentPath(dir, path, t.root.runID, id)
  {
    if id in Walked(t) {
      var path :| Descent(dir, path, t.root.runID, id);
      DescentIsParentPath(dir, path, t.root.runID, id);
    }
  }

  /** Each walked run but the root is named by a spawn event of its own parent, which was walked too. */
  lemma WalkedChildIsSpawned(dir: LogDir, t: Tree, id: string)
    requires ScanAgrees(dir) && ExactTree(dir, t) && id in Walked(t) && id != t.root.runID
    ensures exists p :: p in Walked(t) && Spawned(dir, p, id)
    ensures id in dir.ledgers && dir.ledgers[id].events != []
    ensures var first := dir.ledgers[id].events[0].binding;
            && first.parentRunID in Walked(t) && first.parentRunID in dir.ledgers
            && exists i :: 0 <= i < |dir.ledgers[first.parentRunID].events| &&
                           IsSpawnOf(dir.ledgers[first.parentRunID].events[i], id, first.depth)
  {
    var path :| Descent(dir, path, t.root.runID, id);
    var n := |path| - 2;
    assert Spawned(dir, path[n], path[n + 1]);
    var up := path[..n + 1];
    forall i | 0 <= i < |up| - 1 ensures Spawned(dir, up[i], up[i + 1]) {
      assert Spawned(dir, path[i], path[i + 1]);
    }
    DescentIsParentPath(dir, up, t.root.runID, path[n]);
    var b := dir.ledgers[id].events[0].binding;
    var i :| 0 <= i < |dir.ledgers[path[n]].events| && NamesChild(dir.ledgers[path[n]].events[i], id, b.depth);
    assert IsSpawnOf(dir.ledgers[path[n]].events[i], id, b.depth);
  }

  /** A walk that found nothing wrong is the exact tree. */
  lemma ZeroIsExact(dir: LogDir, t: Tree, seen: set<string>)
    requires Faithful(dir, t.root) && ExitCode(t) == 0
    requires t.root.report.verdict == NoClaim ==> t.children == []
    requires t.root.report.verdict != NoClaim ==>
               && Progress(dir, t.root.runID, t.root.report, t.children, {t.root.runID}, seen)
               && (t.root.report.verdict == Complete ==> Closed(dir, t.root.runID, seen))
    ensures ExactTree(dir, t)
  {
    assert t.root in [t.root] + t.children;
    forall n | n in t.children ensures CleanNode(n) {
      assert n in [t.root] + t.children;
      assert Faithful(dir, n);
    }
    ExactFromSettled(dir, t);
  }

  /** In a directory with nothing to find, nothing is found. */
  lemma WellLinkedIsZero(dir: LogDir, t: Tree)
    requires WellLinked(dir) && CleanNode(t.root) && forall n :: n in t.children ==> CleanNode(n)
    ensures ExitCode(t) == 0
  {
    forall n | n in [t.root] + t.children ensures CleanNode(n) { }
  }

  method VerifyTree(dir: LogDir, runID: string, ledger: Ledger) returns (t: Tree)
    requires runID in dir.ledgers && dir.ledgers[runID] == ledger
    ensures t.root.runID == runID && Faithful(dir, t.root)
    ensures Distinct(t.children) && runID !in Ids(t.children)
    ensures ExitCode(t) == 0 ==> ExactTree(dir, t)
    ensures WellLinked(dir) ==> ExitCode(t) == 0
    ensures ledger.integrity == Verified && Judge(ledger.events).verdict == Unterminated && NamesWell(dir, runID) ==>
              t.root.report.verdict == Unterminated
  {
    t := Tree(Node(runID, ledger.integrity, NOT_JUDGED), []);
    if ledger.integrity != Verified {
      return;
    }
    var report := Check(ledger.events);
    t := t.(root := t.root.(report := report));
    var walker := new Walker(runID);
    if report.verdict != NoClaim {
      report := walker.Link(dir, runID, ledger.events, report);
      t := Tree(t.root.(report := report), walker.children);
    }
    if ExitCode(t) == 0 { ZeroIsExact(dir, t, walker.seen); }
    if WellLinked(dir) { WellLinkedIsZero(dir, t); }
  }
}
