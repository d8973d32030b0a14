/**
  The tree-aware retention sweep of `runs prune` (cmd/agenthof/main.go, pruneRuns).

  A directory's run ledgers form a graph by the parent each first line names ("" for none).
  The sweep removes every root past the cutoff together with its whole tree.
 */
module Retention {

  /** What deleting one ledger file comes to; Kept is every way the file stays, the control ledger's own included. */
  datatype Outcome = Deleted | AlreadyGone | Kept

  predicate HasParent(parents: map<string, string>, id: string) {
    id in parents && parents[id] != "" && parents[id] in parents
  }

  predicate IsRoot(parents: map<string, string>, id: string) {
    id in parents && !HasParent(parents, id)
  }

  /** A walk down parent links: each entry is the parent of the next. */
  ghost predicate Line(parents: map<string, string>, line: seq<string>, from: string, to: string) {
    && line != [] && line[0] == from && line[|line| - 1] == to && from in parents
    && forall i :: 0 <= i < |line| - 1 ==> ChildOf(parents, line[i], line[i + 1])
  }

  predicate ChildOf(parents: map<string, string>, p: string, c: string) {
    HasParent(parents, c) && parents[c] == p
  }

  ghost predicate Under(parents: map<string, string>, from: string, to: string) {
    exists line :: Line(parents, line, from, to)
  }

  /** The runs a sweep is to take: those under a root past the cutoff. */
  ghost predicate Doomed(parents: map<string, string>, expired: set<string>, id: string) {
    exists r :: IsRoot(parents, r) && r in expired && Under(parents, r, id)
  }

  lemma UnderSelf(parents: map<string, string>, id: string)
    requires id in parents
    ensures Under(parents, id, id)
  {
    assert Line(parents, [id], id, id);
  }

  lemma UnderStep(parents: map<string, string>, a: string, b: string, c: string)
    requires Under(parents, a, b) && ChildOf(parents, b, c)
    ensures Under(parents, a, c)
  {
    var line :| Line(parents, line, a, b);
    var longer := line + [c];
    forall i | 0 <= i < |longer| - 1 ensures ChildOf(parents, longer[i], longer[i + 1]) {
      if i < |line| - 1 { assert ChildOf(parents, line[i], line[i + 1]); }
    }
    assert Line(parents, longer, a, c);
  }

  lemma UnderJoin(parents: map<string, string>, a: string, b: string, c: string)
    requires Under(parents, a, b) && Under(parents, b, c)
    ensures Under(parents, a, c)
  {
    var line :| Line(parents, line, b, c);
    UnderLine(parents, a, b, c, line);
  }

  lemma {:induction false} UnderLine(parents: map<string, string>, a: string, b: string, c: string, line: seq<string>)
    requires Under(parents, a, b) && Line(parents, line, b, c)
    ensures Under(parents, a, c)
    decreases |line|
  {
    if |line| > 1 {
      var n := |line| - 2;
      assert ChildOf(parents, line[n], line[n + 1]);
      UnderLine(parents, a, b, line[n], line[..n + 1]);
      UnderStep(parents, a, line[n], c);
    }
  }

  /** The last step of a walk down to a child comes from that child's parent. */
  lemma UnderParent(parents: map<string, string>, a: string, c: string)
    requires Under(parents, a, c) && a != c
    ensures HasParent(parents, c) && Under(parents, a, parents[c])
  {
    var line :| Line(parents, line, a, c);
    var n := |line| - 2;
    assert ChildOf(parents, line[n], line[n + 1]);
    assert Line(parents, line[..n + 1], a, line[n]);
  }

  /** Trees stay whole: a run with a present parent goes exactly when the parent goes. */
  lemma DoomedWithParent(parents: map<string, string>, expired: set<string>, id: string)
    requires id in parents && parents[id] != "" && parents[id] in parents
    ensures Doomed(parents, expired, id) <==> Doomed(parents, expired, parents[id])
  {
    if Doomed(parents, expired, parents[id]) {
      var r :| IsRoot(parents, r) && r in expired && Under(parents, r, parents[id]);
      UnderStep(parents, r, parents[id], id);
    }
    if Doomed(parents, expired, id) {
      var r :| IsRoot(parents, r) && r in expired && Under(parents, r, id);
      UnderParent(parents, r, id);
    }
  }

  /** A root goes exactly when it is past the cutoff. */
  lemma DoomedRoot(parents: map<string, string>, expired: set<string>, id: string)
    requires id in parents && (parents[id] == "" || parents[id] !in parents)
    ensures Doomed(parents, expired, id) <==> id in expired
  {
    UnderSelf(parents, id);
    if Doomed(parents, expired, id) {
      var r :| IsRoot(parents, r) && r in expired && Under(parents, r, id);
      if r != id { UnderParent(parents, r, id); }
    }
  }

  /** A group whose parent links close on themselves has no root above it, and is never taken. */
  lemma CycleIsNeverDoomed(parents: map<string, string>, expired: set<string>, group: set<string>, id: string)
    requires forall c :: c in group ==> c in parents && parents[c] != "" && parents[c] in parents && parents[c] in group
    requires id in group
    ensures !Doomed(parents, expired, id)
  {
    forall r, line | IsRoot(parents, r) && Line(parents, line, r, id) ensures false {
      CycleHasNoWayIn(parents, group, line, |line| - 1);
    }
  }

  lemma {:induction false} CycleHasNoWayIn(parents: map<string, string>, group: set<string>, line: seq<string>, i: nat)
    requires i < |line| && line[i] in group
    requires forall c :: c in group ==> HasParent(parents, c) && parents[c] in group
    requires forall j :: 0 <= j < |line| - 1 ==> ChildOf(parents, line[j], line[j + 1])
    ensures line[0] in group
  {
    if i > 0 {
      assert ChildOf(parents, line[i - 1], line[i - 1 + 1]);
      CycleHasNoWayIn(parents, group, line, i - 1);
    }
  }

  // ---------------------------------------------------------------- the sweep

  type Index = map<string, seq<string>>

  /** children[p] lists exactly the runs whose present parent is p. */
  ghost predicate Indexes(parents: map<string, string>, children: Index) {
    forall p, c :: (p in children && c in children[p]) <==> ChildOf(parents, p, c)
  }

  method IndexChildren(parents: map<string, string>) returns (children: Index)
    ensures Indexes(parents, children)
  {
    children := map[];
    var rest := parents.Keys;
    while rest != {}
      invariant rest <= parents.Keys
      invariant forall p, c :: (p in children && c in children[p]) <==> (ChildOf(parents, p, c) && c !in rest)
    {
      var id :| id in rest;
      rest := rest - {id};
      if HasParent(parents, id) {
        var parent := parents[id];
        children := children[parent := (if parent in children then children[parent] else []) + [id]];
      }
    }
  }

  ghost function Erased(marked: set<string>, outcome: string -> Outcome): set<string> {
    set id | id in marked && outcome(id) == Deleted
  }

  /** From the marks `before` to the marks `after`: what was marked is under top, with all its children. */
  ghost predicate Took(parents: map<string, string>, top: string, before: set<string>, after: set<string>) {
    && before <= after <= parents.Keys
    && (forall x :: x in after - before ==> Under(parents, top, x))
    && (forall x, c :: x in after - before && ChildOf(parents, x, c) ==> c in after)
  }

  lemma TookJoins(
    parents: map<string, string>, top: string, kid: string, a: set<string>, b: set<string>, c: set<string>)
    requires Took(parents, top, a, b) && Took(parents, kid, b, c) && Under(parents, top, kid)
    ensures Took(parents, top, a, c)
  {
    forall x | x in c - b ensures Under(parents, top, x) {
      UnderJoin(parents, top, kid, x);
    }
  }

  /** Between two points of the sweep, the files gone are the deletable ones marked, each counted once. */
  ghost predicate Counted(
    outcome: string -> Outcome, newly: set<string>, l0: set<string>, l1: set<string>, p0: nat, p1: nat)
  {
    l1 == l0 - Erased(newly, outcome) && p1 == p0 + |Erased(newly, outcome)|
  }

  lemma CountedJoins(
    outcome: string -> Outcome, n0: set<string>, n1: set<string>,
    l0: set<string>, l1: set<string>, l2: set<string>, p0: nat, p1: nat, p2: nat)
    requires n0 !! n1 && Counted(outcome, n0, l0, l1, p0, p1) && Counted(outcome, n1, l1, l2, p1, p2)
    ensures Counted(outcome, n0 + n1, l0, l2, p0, p2)
  {
    assert Erased(n0, outcome) !! Erased(n1, outcome);
    assert Erased(n0 + n1, outcome) == Erased(n0, outcome) + Erased(n1, outcome);
  }

  class Sweep {
    /** The ledgers in the directory. */
    var ledgers: set<string>
    var removed: set<string>
    var pruned: nat

    constructor (ledgers: set<string>)
      ensures this.ledgers == ledgers && removed == {} && pruned == 0
    {
      this.ledgers, removed, pruned := ledgers, {}, 0;
    }

    /** The whole tree below id: children first, then id's own ledger. */
    method Remove(parents: map<string, string>, children: Index, outcome: string -> Outcome, id: string)
      requires Indexes(parents, children) && id in parents && removed <= parents.Keys
      modifies this
      ensures id in removed && Took(parents, id, old(removed), removed)
      ensures Counted(outcome, removed - old(removed), old(ledgers), ledgers, old(pruned), pruned)
      decreases parents.Keys - removed, 1
    {
      if id in removed {
        assert Erased(removed - old(removed), outcome) == {};
        return;
      }
      removed := removed + {id};
      RemoveAll(parents, children, outcome, id);
      ghost var ledgers1, pruned1 := ledgers, pruned;
      if outcome(id) == Deleted {
        ledgers := ledgers - {id};
        pruned := pruned + 1;
      }
      assert Erased({id}, outcome) == if outcome(id) == Deleted then {id} else {};
      CountedJoins(outcome, removed - (old(removed) + {id}), {id},
                   old(ledgers), ledgers1, ledgers, old(pruned), pruned1, pruned);
      assert removed - (old(removed) + {id}) + {id} == removed - old(removed);
      UnderSelf(parents, id);
    }

    /** The recursion over id's children. */
    method RemoveAll(parents: map<string, string>, children: Index, outcome: string -> Outcome, id: string)
      requires Indexes(parents, children) && id in removed && removed <= parents.Keys
      modifies this
      ensures Took(parents, id, old(removed), removed)
      ensures forall c :: ChildOf(parents, id, c) ==> c in removed
      ensures Counted(outcome, removed - old(removed), old(ledgers), ledgers, old(pruned), pruned)
      decreases parents.Keys - removed, 2
    {
      var kids := if id in children then children[id] else [];
      assert Erased(removed - old(removed), outcome) == {};
      UnderSelf(parents, id);
      for i := 0 to |kids|
        invariant Took(parents, id, old(removed), removed)
        invariant forall j :: 0 <= j < i ==> kids[j] in removed
        invariant Counted(outcome, removed - old(removed), old(ledgers), ledgers, old(pruned), pruned)
      {
        ghost var mid, ledgers1, pruned1 := removed, ledgers, pruned;
        assert kids[i] in children[id] && ChildOf(parents, id, kids[i]);
        UnderStep(parents, id, id, kids[i]);
        Remove(parents, children, outcome, kids[i]);
        TookJoins(parents, id, kids[i], old(removed), mid, removed);
        CountedJoins(outcome, mid - old(removed), removed - mid,
                     old(ledgers), ledgers1, ledgers, old(pruned), pruned1, pruned);
        assert mid - old(removed) + (removed - mid) == removed - old(removed);
      }
    }
  }

  /**
    The sweep over a directory listing. `expired` holds the ids whose file is past the cutoff.
    Whatever the deletions come to, the runs marked are exactly the doomed ones; each file that
    could be deleted is gone, and counted once.
   */
  method PruneRuns(entries: seq<string>, parents: map<string, string>, expired: set<string>, outcome: string -> Outcome)
    returns (pruned: nat, left: set<string>, removed: set<string>)
    requires forall id :: id in entries <==> id in parents
    ensures forall id :: id in removed <==> id in parents && Doomed(parents, expired, id)
    ensures left == parents.Keys - Erased(removed, outcome)
    ensures pruned == |Erased(removed, outcome)|
    ensures (forall id :: id in parents ==> outcome(id) == Deleted) ==>
              forall id :: id in left <==> id in parents && !Doomed(parents, expired, id)
  {
    var children := IndexChildren(parents);
    var sweep := new Sweep(parents.Keys);
    assert Erased({}, outcome) == {};
    for i := 0 to |entries|
      invariant sweep.removed <= parents.Keys
      invariant forall j ::
                  0 <= j < i && IsRoot(parents, entries[j]) && entries[j] in expired ==> entries[j] in sweep.removed
      invariant forall x :: x in sweep.removed ==> Doomed(parents, expired, x)
      invariant forall x, c :: x in sweep.removed && ChildOf(parents, x, c) ==> c in sweep.removed
      invariant Counted(outcome, sweep.removed, parents.Keys, sweep.ledgers, 0, sweep.pruned)
    {
      var id := entries[i];
      if !IsRoot(parents, id) {
        continue;
      }
      if id in expired {
        ghost var before, ledgers1, pruned1 := sweep.removed, sweep.ledgers, sweep.pruned;
        sweep.Remove(parents, children, outcome, id);
        CountedJoins(outcome, before, sweep.removed - before,
                     parents.Keys, ledgers1, sweep.ledgers, 0, pruned1, sweep.pruned);
        assert before + (sweep.removed - before) == sweep.removed;
      }
    }
    DoomedAreMarked(parents, expired, sweep.removed);
    pruned, left, removed := sweep.pruned, sweep.ledgers, sweep.removed;
  }

  lemma DoomedAreMarked(parents: map<string, string>, expired: set<string>, marked: set<string>)
    requires forall id :: id in parents && IsRoot(parents, id) && id in expired ==> id in marked
    requires forall x, c :: x in marked && ChildOf(parents, x, c) ==> c in marked
    ensures forall id :: id in parents && Doomed(parents, expired, id) ==> id in marked
  {
    forall id | id in parents && Doomed(parents, expired, id) ensures id in marked {
      var r :| IsRoot(parents, r) && r in expired && Under(parents, r, id);
      var line :| Line(parents, line, r, id);
      ClosedDown(parents, marked, line, |line| - 1);
    }
  }

  lemma {:induction false} ClosedDown(parents: map<string, string>, marked: set<string>, line: seq<string>, i: nat)
    requires i < |line| && line[0] in marked
    requires forall x, c :: x in marked && ChildOf(parents, x, c) ==> c in marked
    requires forall j :: 0 <= j < |line| - 1 ==> ChildOf(parents, line[j], line[j + 1])
    ensures line[i] in marked
  {
    if i > 0 {
      ClosedDown(parents, marked, line, i - 1);
      assert ChildOf(parents, line[i - 1], line[i - 1 + 1]);
    }
  }
}
