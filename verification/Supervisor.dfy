/**
  The spawn supervisor (deploy/refspawn/supervisor.go, podman.go): slots, compartment names and the
  directories and stores of every child's set, under any interleaving of provisions and teardowns.
 */
module Supervisor {
  import opened Prelude

  const PREFIX := "agenthof-spawn-"
  const EXEC_SUFFIX := "-exec"
  const MAX_NAME := 64

  // ---------------------------------------------------------------- names

  predicate IsAlnum(c: char) { 'a' <= c <= 'z' || 'A' <= c <= 'Z' || '0' <= c <= '9' }

  predicate IsName(s: string) {
    && 0 < |s| <= MAX_NAME && IsAlnum(s[0])
    && forall i :: 0 <= i < |s| ==> IsAlnum(s[i]) || s[i] == '_' || s[i] == '.' || s[i] == '-'
  }

  predicate EndsInExec(id: string) { |id| >= |EXEC_SUFFIX| && id[|id| - |EXEC_SUFFIX|..] == EXEC_SUFFIX }

  predicate ValidID(id: string) { IsName(id) && !EndsInExec(id) }

  function CompartmentName(id: string, agent: string): string { PREFIX + id + "-" + agent }

  function StoreName(id: string): string { PREFIX + id + "-work" }

  function ChildDir(id: string): string { id }

  function ExecDir(id: string): string { id + EXEC_SUFFIX }

  function DirOf(id: string, exec: bool): string { if exec then ExecDir(id) else ChildDir(id) }

  /** One id's names are as distinct as its agents. */
  lemma NameFixesAgent(id: string, a: string, b: string)
    requires CompartmentName(id, a) == CompartmentName(id, b)
    ensures a == b
  {
    assert a == CompartmentName(id, a)[|PREFIX + id + "-"|..];
    assert b == CompartmentName(id, b)[|PREFIX + id + "-"|..];
  }

  lemma SameBodySameName(m: string, n: string)
    ensures PREFIX + m == PREFIX + n <==> m == n
  {
    assert m == (PREFIX + m)[|PREFIX|..] && n == (PREFIX + n)[|PREFIX|..];
  }

  lemma DashedMeet(i: string, a: string, j: string, b: string)
    requires |i| <= |j| && i + "-" + a == j + "-" + b
    ensures (i == j && a == b) || (exists x :: j == i + "-" + x && a == x + "-" + b)
  {
    var m, n := i + "-" + a, j + "-" + b;
    assert i == m[..|i|] == n[..|i|] == j[..|i|];
    if |i| == |j| {
      assert a == m[|i| + 1..] && b == n[|i| + 1..];
    } else {
      var x := j[|i| + 1..];
      assert j[|i|] == n[|i|] == m[|i|] == '-';
      assert j == i + "-" + x;
      assert a == m[|i| + 1..] == n[|i| + 1..] == x + "-" + b;
    }
  }

  /** Two children's names meet exactly when the longer id has the other's agent's beginning in it. */
  lemma NamesMeet(i: string, a: string, j: string, b: string)
    requires |i| <= |j|
    ensures CompartmentName(i, a) == CompartmentName(j, b) <==>
              (i == j && a == b) || (exists x :: j == i + "-" + x && a == x + "-" + b)
  {
    var m, n := i + "-" + a, j + "-" + b;
    assert CompartmentName(i, a) == PREFIX + m && CompartmentName(j, b) == PREFIX + n;
    SameBodySameName(m, n);
    if m == n { DashedMeet(i, a, j, b); }
    if x :| j == i + "-" + x && a == x + "-" + b {
      assert m == i + "-" + x + "-" + b == n;
    }
  }

  /** Names alone are not owners: these two sets would share a compartment. */
  lemma NamesAloneCollide()
    ensures ValidID("r-1") && ValidID("r-1-a") && IsName("a-b") && IsName("b")
    ensures CompartmentName("r-1", "a-b") == CompartmentName("r-1-a", "b")
  {
  }

  /** Directories of different children never meet, as no id ends in the exec suffix. */
  lemma DirsApart(i: string, j: string, e: bool, f: bool)
    requires ValidID(i) && ValidID(j) && DirOf(i, e) == DirOf(j, f)
    ensures i == j && e == f
  {
    if e {
      assert ExecDir(i)[|ExecDir(i)| - |EXEC_SUFFIX|..] == EXEC_SUFFIX;
      assert i == ExecDir(i)[..|ExecDir(i)| - |EXEC_SUFFIX|];
    }
    if f {
      assert ExecDir(j)[|ExecDir(j)| - |EXEC_SUFFIX|..] == EXEC_SUFFIX;
      assert j == ExecDir(j)[..|ExecDir(j)| - |EXEC_SUFFIX|];
    }
  }

  lemma StoresApart(i: string, j: string)
    requires StoreName(i) == StoreName(j)
    ensures i == j
  {
    assert i == StoreName(i)[|PREFIX|..|StoreName(i)| - 5];
    assert j == StoreName(j)[|PREFIX|..|StoreName(j)| - 5];
  }

  // ---------------------------------------------------------------- the request

  predicate Distinct(s: seq<string>) { forall i, j :: 0 <= i < j < |s| ==> s[i] != s[j] }

  predicate ValidRequest(images: map<string, string>, id: string, agents: seq<string>) {
    && ValidID(id) && agents != [] && Distinct(agents)
    && forall i :: 0 <= i < |agents| ==> IsName(agents[i]) && agents[i] in images
  }

  function NamesOf(id: string, agents: seq<string>): seq<string> {
    seq(|agents|, i requires 0 <= i < |agents| => CompartmentName(id, agents[i]))
  }

  /** The compartment names a request needs, or a refusal of the whole set. */
  method Names(images: map<string, string>, id: string, agents: seq<string>) returns (names: Result<seq<string>>)
    ensures names == if ValidRequest(images, id, agents) then Ok(NamesOf(id, agents)) else Err
    ensures names.Ok? <==>
              && IsName(id) && !EndsInExec(id) && agents != []
              && (forall i, j :: 0 <= i < j < |agents| ==> agents[i] != agents[j])
              && forall i :: 0 <= i < |agents| ==> IsName(agents[i]) && agents[i] in images
    ensures names.Ok? ==>
              && |names.value| == |agents|
              && forall i :: 0 <= i < |agents| ==> names.value[i] == "agenthof-spawn-" + id + "-" + agents[i]
  {
    if !IsName(id) || EndsInExec(id) || |agents| == 0 {
      return Err;
    }
    var seen: set<string> := {};
    var out: seq<string> := [];
    for k := 0 to |agents|
      invariant seen == set i | 0 <= i < k :: agents[i]
      invariant Distinct(agents[..k])
      invariant forall i :: 0 <= i < k ==> IsName(agents[i]) && agents[i] in images
      invariant out == NamesOf(id, agents[..k])
    {
      var a := agents[k];
      if !IsName(a) || a in seen || a !in images {
        return Err;
      }
      seen, out := seen + {a}, out + [CompartmentName(id, a)];
      assert agents[..k + 1] == agents[..k] + [a];
    }
    assert agents[..|agents|] == agents;
    return Ok(out);
  }

  // ---------------------------------------------------------------- the supervisor's own table

  datatype Verdict = Admitted | ChildLive | NameTaken | CapReached

  datatype Table = Table(used: int, live: set<string>, names: set<string>)

  function SetOf(s: seq<string>): set<string> { set x | x in s }

  function Judge(max: int, t: Table, id: string, names: seq<string>): Verdict {
    if id in t.live then ChildLive
    else if SetOf(names) * t.names != {} then NameTaken
    else if t.used + |names| > max then CapReached
    else Admitted
  }

  lemma JudgeExactly(max: int, t: Table, id: string, names: seq<string>)
    ensures Judge(max, t, id, names) == NameTaken <==> id !in t.live && exists n :: n in names && n in t.names
    ensures Judge(max, t, id, names) == CapReached <==>
              id !in t.live && (forall n :: n in names ==> n !in t.names) && t.used + |names| > max
    ensures Judge(max, t, id, names) == Admitted <==>
              id !in t.live && (forall n :: n in names ==> n !in t.names) && t.used + |names| <= max
  {
    if n :| n in names && n in t.names { assert n in SetOf(names) * t.names; }
    if SetOf(names) * t.names != {} { var n :| n in SetOf(names) * t.names; }
  }

  function Claim(t: Table, id: string, names: seq<string>): Table {
    Table(t.used + |names|, t.live + {id}, t.names + SetOf(names))
  }

  function Drop(t: Table, id: string, names: seq<string>): Table {
    Table(t.used - |names|, t.live - {id}, t.names - SetOf(names))
  }

  class Slots {
    const max: int
    var used: int
    var live: set<string>
    var names: set<string>

    function Now(): Table reads this { Table(used, live, names) }

    constructor (max: int)
      ensures this.max == max && Now() == Table(0, {}, {})
    {
      this.max, used, live, names := max, 0, {}, {};
    }

    /** Claims the child, its names and one slot a name, or none of them. */
    method Admit(id: string, wanted: seq<string>) returns (v: Verdict)
      modifies this
      ensures v == Judge(max, old(Now()), id, wanted)
      ensures v == ChildLive <==> id in old(live)
      ensures v == NameTaken <==> id !in old(live) && exists n :: n in wanted && n in old(names)
      ensures v == CapReached <==>
                id !in old(live) && (forall n :: n in wanted ==> n !in old(names)) && old(used) + |wanted| > max
      ensures v == Admitted <==>
                id !in old(live) && (forall n :: n in wanted ==> n !in old(names)) && old(used) + |wanted| <= max
      ensures Now() == if v == Admitted then Claim(old(Now()), id, wanted) else old(Now())
      ensures v == Admitted ==>
                && used == old(used) + |wanted| && live == old(live) + {id}
                && forall n :: n in names <==> n in old(names) || n in wanted
    {
      JudgeExactly(max, Now(), id, wanted);
      if id in live {
        return ChildLive;
      }
      for k := 0 to |wanted|
        invariant SetOf(wanted[..k]) * names == {}
        invariant Now() == old(Now())
      {
        if wanted[k] in names {
          assert wanted[k] in SetOf(wanted) * names;
          return NameTaken;
        }
        assert wanted[..k + 1] == wanted[..k] + [wanted[k]];
        assert SetOf(wanted[..k + 1]) == SetOf(wanted[..k]) + {wanted[k]};
      }
      assert wanted[..|wanted|] == wanted;
      if used + |wanted| > max {
        return CapReached;
      }
      live := live + {id};
      for k := 0 to |wanted|
        invariant names == old(names) + SetOf(wanted[..k])
        invariant live == old(live) + {id} && used == old(used)
      {
        assert wanted[..k + 1] == wanted[..k] + [wanted[k]];
        names := names + {wanted[k]};
      }
      assert wanted[..|wanted|] == wanted;
      used := used + |wanted|;
      return Admitted;
    }

    method Release(id: string, held: seq<string>)
      modifies this
      ensures Now() == Drop(old(Now()), id, held)
      ensures used == old(used) - |held| && live == old(live) - {id}
      ensures forall n :: n in names <==> n in old(names) && n !in held
    {
      live := live - {id};
      for k := 0 to |held|
        invariant names == old(names) - SetOf(held[..k])
        invariant live == old(live) - {id} && used == old(used)
      {
        assert held[..k + 1] == held[..k] + [held[k]];
        names := names - {held[k]};
      }
      assert held[..|held|] == held;
      used := used - |held|;
    }
  }

  // ---------------------------------------------------------------- every interleaving

  /** One child's set, with what it has made so far; `stopping` once its teardown has begun. */
  datatype Child = Child(agents: seq<string>, comps: set<string>, store: bool, dirs: set<bool>, stopping: bool)

  /** The supervisor and the host: who last made each compartment, store and directory that exists. */
  datatype State = State(
    table: Table, children: map<string, Child>,
    comps: map<string, string>, stores: map<string, string>, dirs: map<string, string>)

  /**
    Each handler's steps, in the order it takes them. Stop covers every reason to tear down: a failed
    start, the gateway hanging up, an agent or the executor exiting. A removal that fails (`gone` false)
    leaves its thing behind and is not retried: the handler goes on.
   */
  datatype Step =
    | Admit(id: string, agents: seq<string>)
    | MakeDir(id: string, exec: bool)
    | MakeStore(id: string)
    | Launch(id: string, agent: string)
    | Stop(id: string)
    | Remove(id: string, agent: string, gone: bool)
    | RemoveStore(id: string, gone: bool)
    | RemoveDir(id: string, exec: bool, gone: bool)
    | Release(id: string)

  predicate Enabled(max: int, images: map<string, string>, s: State, step: Step) {
    && (step.Admit? ==> Judge(max, s.table, step.id, NamesOf(step.id, step.agents)) == Admitted)
    && (step.Admit? ==> ValidRequest(images, step.id, step.agents))
    && (!step.Admit? ==> step.id in s.children && Next(s.children[step.id], step))
  }

  /** The order within one handler: directories, store, agents; then agents, store, directories, and last the slots. */
  predicate Next(c: Child, step: Step)
    requires !step.Admit?
  {
    match step
    case MakeDir(_, exec) => !c.stopping && !c.store && (exec ==> false in c.dirs)
    case MakeStore(_) => !c.stopping && true in c.dirs && !c.store
    case Launch(_, a) => !c.stopping && c.store && a in c.agents && a !in c.comps
    case Stop(_) => !c.stopping
    case Remove(_, a, _) => c.stopping && a in c.comps
    case RemoveStore(_, _) => c.stopping && c.comps == {} && c.store
    case RemoveDir(_, exec, _) => c.stopping && c.comps == {} && !c.store && (exec ==> false !in c.dirs)
    case Release(_) => c.stopping && c.comps == {} && !c.store && c.dirs == {}
  }

  /** What the step makes of its own child. */
  function After(c: Child, step: Step): Child
    requires !step.Admit?
  {
    match step
    case MakeDir(_, exec) => c.(dirs := c.dirs + {exec})
    case MakeStore(_) => c.(store := true)
    case Launch(_, a) => c.(comps := c.comps + {a})
    case Stop(_) => c.(stopping := true)
    case Remove(_, a, _) => c.(comps := c.comps - {a})
    case RemoveStore(_, _) => c.(store := false)
    case RemoveDir(_, exec, _) => c.(dirs := c.dirs - {exec})
    case Release(_) => c
  }

  function Effect(s: State, step: Step): State
    requires step.Admit? || step.id in s.children
  {
    var id := step.id;
    match step
    case Admit(_, agents) =>
      s.(table := Claim(s.table, id, NamesOf(id, agents)),
         children := s.children[id := Child(agents, {}, false, {}, false)])
    case Release(_) =>
      s.(table := Drop(s.table, id, NamesOf(id, s.children[id].agents)), children := s.children - {id})
    case _ =>
      s.(children := s.children[id := After(s.children[id], step)],
         comps := CompsAfter(s.comps, step), stores := StoresAfter(s.stores, step), dirs := DirsAfter(s.dirs, step))
  }

  function CompsAfter(comps: map<string, string>, step: Step): map<string, string> {
    match step
    case Launch(id, a) => comps[CompartmentName(id, a) := id]
    case Remove(id, a, true) => comps - {CompartmentName(id, a)}
    case _ => comps
  }

  function StoresAfter(stores: map<string, string>, step: Step): map<string, string> {
    match step
    case MakeStore(id) => stores[StoreName(id) := id]
    case RemoveStore(id, true) => stores - {StoreName(id)}
    case _ => stores
  }

  /** A directory is cleared before it is made, whatever was there. */
  function DirsAfter(dirs: map<string, string>, step: Step): map<string, string> {
    match step
    case MakeDir(id, exec) => dirs[DirOf(id, exec) := id]
    case RemoveDir(id, exec, true) => dirs - {DirOf(id, exec)}
    case _ => dirs
  }

  const INIT := State(Table(0, {}, {}), map[], map[], map[], map[])

  // ---------------------------------------------------------------- the invariant

  /** Slots claimed by all the children together. */
  ghost function Total(children: map<string, Child>): nat
    decreases |children.Keys|
  {
    if children == map[] then 0
    else
      var k :| k in children;
      assert (children - {k}).Keys == children.Keys - {k};
      |children[k].agents| + Total(children - {k})
  }

  lemma {:induction false} TotalOf(children: map<string, Child>, k: string)
    requires k in children
    ensures Total(children) == |children[k].agents| + Total(children - {k})
    decreases |children.Keys|
  {
    var p :| p in children && Total(children) == |children[p].agents| + Total(children - {p});
    assert (children - {p}).Keys == children.Keys - {p};
    assert (children - {k}).Keys == children.Keys - {k};
    if p != k {
      TotalOf(children - {p}, k);
      TotalOf(children - {k}, p);
      assert children - {p} - {k} == children - {k} - {p};
    }
  }

  ghost predicate Claims(s: State, id: string, n: string)
    requires id in s.children
  {
    n in NamesOf(id, s.children[id].agents)
  }

  ghost predicate Claimed(s: State, n: string) { exists id :: id in s.children && Claims(s, id, n) }

  /** The table says what the children hold: who is live, which names, how many slots. */
  ghost predicate TableFits(s: State) {
    && s.table.live == s.children.Keys
    && (forall n :: n in s.table.names <==> Claimed(s, n))
    && s.table.used == |s.table.names| == Total(s.children)
  }

  ghost predicate NamesApart(s: State) {
    forall i, j, n :: i in s.children && j in s.children && Claims(s, i, n) && Claims(s, j, n) ==> i == j
  }

  ghost predicate WellFormed(id: string, c: Child) {
    ValidID(id) && Distinct(c.agents) && forall a :: a in c.comps ==> a in c.agents
  }

  /** What a child has made is there and is its own. */
  ghost predicate Holds(s: State, id: string)
    requires id in s.children
  {
    var c := s.children[id];
    && (forall a :: a in c.comps ==> CompartmentName(id, a) in s.comps && s.comps[CompartmentName(id, a)] == id)
    && (c.store ==> StoreName(id) in s.stores && s.stores[StoreName(id)] == id)
    && (forall e :: e in c.dirs ==> DirOf(id, e) in s.dirs && s.dirs[DirOf(id, e)] == id)
  }

  ghost predicate Inv(max: int, s: State) {
    && TableFits(s) && NamesApart(s) && s.table.used <= max
    && (forall id :: id in s.children ==> WellFormed(id, s.children[id]))
    && (forall id :: id in s.children ==> Holds(s, id))
  }

  // ---------------------------------------------------------------- one step: the table

  lemma InNames(id: string, agents: seq<string>, n: string)
    ensures n in NamesOf(id, agents) <==> exists a :: a in agents && n == CompartmentName(id, a)
  {
    if n in NamesOf(id, agents) {
      var i :| 0 <= i < |agents| && NamesOf(id, agents)[i] == n;
      assert agents[i] in agents;
    }
    forall a | a in agents && n == CompartmentName(id, a) ensures n in NamesOf(id, agents) {
      var i :| 0 <= i < |agents| && agents[i] == a;
      assert NamesOf(id, agents)[i] == n;
    }
  }

  lemma {:induction false} SizeOfDistinct(s: seq<string>)
    requires Distinct(s)
    ensures |SetOf(s)| == |s|
  {
    if s != [] {
      var t := s[..|s| - 1];
      SizeOfDistinct(t);
      assert s == t + [s[|s| - 1]];
      assert SetOf(s) == SetOf(t) + {s[|s| - 1]};
      assert s[|s| - 1] !in SetOf(t);
    }
  }

  lemma NamesAreDistinct(id: string, agents: seq<string>)
    requires Distinct(agents)
    ensures |SetOf(NamesOf(id, agents))| == |agents|
  {
    var names := NamesOf(id, agents);
    forall i, j | 0 <= i < j < |names| ensures names[i] != names[j] {
      if names[i] == names[j] { NameFixesAgent(id, agents[i], agents[j]); }
    }
    SizeOfDistinct(names);
  }

  lemma TotalWith(children: map<string, Child>, id: string, c: Child)
    ensures id in children && children[id].agents == c.agents ==> Total(children[id := c]) == Total(children)
    ensures id !in children ==> Total(children[id := c]) == Total(children) + |c.agents|
  {
    TotalOf(children[id := c], id);
    assert children[id := c] - {id} == children - {id};
    if id in children {
      TotalOf(children, id);
    } else {
      assert children - {id} == children;
    }
  }

  /** Steps other than admit and release leave the table and every claim alone. */
  lemma InnerKeepsTable(max: int, images: map<string, string>, s: State, step: Step)
    requires TableFits(s) && NamesApart(s) && Enabled(max, images, s, step) && !step.Admit? && !step.Release?
    ensures TableFits(Effect(s, step)) && NamesApart(Effect(s, step))
  {
    var s' := Effect(s, step);
    TotalWith(s.children, step.id, After(s.children[step.id], step));
    assert s'.children.Keys == s.children.Keys;
    forall id, n | id in s'.children ensures Claims(s', id, n) <==> Claims(s, id, n) { }
    forall n ensures Claimed(s', n) <==> Claimed(s, n) { }
  }

  lemma AdmittedClaims(s: State, id: string, agents: seq<string>, i: string, n: string)
    requires id !in s.children && i in Effect(s, Admit(id, agents)).children
    ensures Claims(Effect(s, Admit(id, agents)), i, n) <==>
              if i == id then n in NamesOf(id, agents) else Claims(s, i, n)
  {
  }

  lemma AdmittedNames(s: State, id: string, agents: seq<string>, n: string)
    requires id !in s.children
    ensures Claimed(Effect(s, Admit(id, agents)), n) <==> Claimed(s, n) || n in NamesOf(id, agents)
  {
    var s' := Effect(s, Admit(id, agents));
    AdmittedClaims(s, id, agents, id, n);
    forall i | i in s.children ensures i in s'.children && (Claims(s', i, n) <==> Claims(s, i, n)) {
      AdmittedClaims(s, id, agents, i, n);
    }
  }

  lemma AdmittedIsFresh(max: int, t: Table, id: string, agents: seq<string>)
    requires Distinct(agents) && Judge(max, t, id, NamesOf(id, agents)) == Admitted
    ensures forall n :: n in NamesOf(id, agents) ==> n !in t.names
    ensures |t.names + SetOf(NamesOf(id, agents))| == |t.names| + |agents|
  {
    var wanted := SetOf(NamesOf(id, agents));
    NamesAreDistinct(id, agents);
    forall n | n in NamesOf(id, agents) ensures n !in t.names { assert n in t.names ==> n in wanted * t.names; }
    assert wanted !! t.names;
  }

  lemma AdmitKeepsCounts(max: int, s: State, id: string, agents: seq<string>)
    requires s.table.used == |s.table.names| == Total(s.children) && s.table.live == s.children.Keys
    requires Distinct(agents) && Judge(max, s.table, id, NamesOf(id, agents)) == Admitted
    ensures var s' := Effect(s, Admit(id, agents)); s'.table.used == |s'.table.names| == Total(s'.children)
  {
    TotalWith(s.children, id, Child(agents, {}, false, {}, false));
    AdmittedIsFresh(max, s.table, id, agents);
  }

  lemma AdmitKeepsTable(max: int, s: State, id: string, agents: seq<string>)
    requires TableFits(s) && Distinct(agents) && Judge(max, s.table, id, NamesOf(id, agents)) == Admitted
    ensures TableFits(Effect(s, Admit(id, agents))) && Effect(s, Admit(id, agents)).table.used <= max
  {
    var s' := Effect(s, Admit(id, agents));
    AdmitKeepsCounts(max, s, id, agents);
    forall n ensures n in s'.table.names <==> Claimed(s', n) {
      AdmittedNames(s, id, agents, n);
      assert n in s.table.names <==> Claimed(s, n);
    }
  }

  lemma AdmitKeepsNamesApart(max: int, s: State, id: string, agents: seq<string>)
    requires TableFits(s) && NamesApart(s) && Distinct(agents)
    requires Judge(max, s.table, id, NamesOf(id, agents)) == Admitted
    ensures NamesApart(Effect(s, Admit(id, agents)))
  {
    var s' := Effect(s, Admit(id, agents));
    AdmittedIsFresh(max, s.table, id, agents);
    forall i, j, n | i in s'.children && j in s'.children && Claims(s', i, n) && Claims(s', j, n) ensures i == j {
      AdmittedClaims(s, id, agents, i, n);
      AdmittedClaims(s, id, agents, j, n);
      assert i != id ==> Claimed(s, n);
      assert j != id ==> Claimed(s, n);
    }
  }

  lemma ReleaseKeepsTable(max: int, images: map<string, string>, s: State, step: Step)
    requires TableFits(s) && NamesApart(s) && Enabled(max, images, s, step) && step.Release?
    requires Distinct(s.children[step.id].agents)
    ensures TableFits(Effect(s, step)) && NamesApart(Effect(s, step)) && Effect(s, step).table.used <= s.table.used
  {
    var s', id := Effect(s, step), step.id;
    var names := NamesOf(id, s.children[id].agents);
    TotalOf(s.children, id);
    NamesAreDistinct(id, s.children[id].agents);
    forall n | n in SetOf(names) ensures n in s.table.names { assert Claims(s, id, n) && Claimed(s, n); }
    assert SetOf(names) <= s.table.names;
    forall i, n | i in s'.children ensures Claims(s', i, n) <==> Claims(s, i, n) { }
    forall n ensures n in s'.table.names <==> Claimed(s', n) {
      if n in s'.table.names {
        var i :| i in s.children && Claims(s, i, n);
        assert i != id && Claims(s', i, n);
      }
      if i :| i in s'.children && Claims(s', i, n) {
        assert Claims(s, i, n) && Claimed(s, n);
        assert n in names ==> Claims(s, id, n);
      }
    }
  }

  // ---------------------------------------------------------------- one step: what the others hold

  lemma OthersNameIsApart(s: State, i: string, a: string, j: string, b: string)
    requires NamesApart(s) && i in s.children && j in s.children && i != j
    requires a in s.children[i].agents && b in s.children[j].agents
    ensures CompartmentName(i, a) != CompartmentName(j, b)
  {
    var n := CompartmentName(i, a);
    if n == CompartmentName(j, b) {
      InNames(i, s.children[i].agents, n);
      InNames(j, s.children[j].agents, n);
      assert Claims(s, i, n) && Claims(s, j, n);
    }
  }

  /** Everything one child has made, as the host shows it. */
  ghost predicate SameHoldings(s: State, s': State, j: string)
    requires j in s.children
  {
    var c := s.children[j];
    && j in s'.children && s'.children[j] == c
    && (forall a :: a in c.agents ==> Entry(s'.comps, CompartmentName(j, a)) == Entry(s.comps, CompartmentName(j, a)))
    && Entry(s'.stores, StoreName(j)) == Entry(s.stores, StoreName(j))
    && (forall e :: Entry(s'.dirs, DirOf(j, e)) == Entry(s.dirs, DirOf(j, e)))
  }

  function Entry(m: map<string, string>, k: string): Option<string> { if k in m then Some(m[k]) else None }

  lemma CompUntouched(s: State, step: Step, j: string, a: string)
    requires NamesApart(s) && Follows(s, step) && j in s.children && j != step.id && a in s.children[j].agents
    requires step.Remove? ==> step.agent in s.children[step.id].agents
    ensures Entry(Effect(s, step).comps, CompartmentName(j, a)) == Entry(s.comps, CompartmentName(j, a))
  {
    if step.Launch? || step.Remove? { OthersNameIsApart(s, step.id, step.agent, j, a); }
  }

  lemma StoreUntouched(s: State, step: Step, j: string)
    requires Follows(s, step) && j != step.id
    ensures Entry(Effect(s, step).stores, StoreName(j)) == Entry(s.stores, StoreName(j))
  {
    if StoreName(j) == StoreName(step.id) { StoresApart(j, step.id); }
  }

  lemma DirUntouched(s: State, step: Step, j: string, e: bool)
    requires Follows(s, step) && j != step.id && ValidID(j) && ValidID(step.id)
    ensures Entry(Effect(s, step).dirs, DirOf(j, e)) == Entry(s.dirs, DirOf(j, e))
  {
    if (step.MakeDir? || step.RemoveDir?) && DirOf(j, e) == DirOf(step.id, step.exec) {
      DirsApart(j, step.id, e, step.exec);
    }
  }

  /** No step of one child, its teardown included, touches anything that belongs to another. */
  lemma SiblingsUntouched(max: int, images: map<string, string>, s: State, step: Step, j: string)
    requires Inv(max, s) && Enabled(max, images, s, step) && j in s.children && j != step.id
    ensures SameHoldings(s, Effect(s, step), j)
  {
    assert WellFormed(j, s.children[j]);
    assert step.id in s.children ==> WellFormed(step.id, s.children[step.id]);
    forall a | a in s.children[j].agents
      ensures Entry(Effect(s, step).comps, CompartmentName(j, a)) == Entry(s.comps, CompartmentName(j, a))
    {
      CompUntouched(s, step, j, a);
    }
    StoreUntouched(s, step, j);
    forall e ensures Entry(Effect(s, step).dirs, DirOf(j, e)) == Entry(s.dirs, DirOf(j, e)) {
      DirUntouched(s, step, j, e);
    }
  }

  lemma HoldsStays(s: State, s': State, j: string)
    requires j in s.children && SameHoldings(s, s', j) && Holds(s, j) && WellFormed(j, s.children[j])
    ensures Holds(s', j)
  {
    var c := s.children[j];
    forall a | a in c.comps ensures CompartmentName(j, a) in s'.comps && s'.comps[CompartmentName(j, a)] == j {
      assert Entry(s'.comps, CompartmentName(j, a)) == Entry(s.comps, CompartmentName(j, a));
    }
    assert Entry(s'.stores, StoreName(j)) == Entry(s.stores, StoreName(j));
    forall e | e in c.dirs ensures DirOf(j, e) in s'.dirs && s'.dirs[DirOf(j, e)] == j {
      assert Entry(s'.dirs, DirOf(j, e)) == Entry(s.dirs, DirOf(j, e));
    }
  }

  lemma OwnHoldings(max: int, images: map<string, string>, s: State, step: Step)
    requires Inv(max, s) && Enabled(max, images, s, step) && !step.Release?
    ensures WellFormed(step.id, Effect(s, step).children[step.id]) && Holds(Effect(s, step), step.id)
  {
    if !step.Admit? {
      var id, c, s' := step.id, s.children[step.id], Effect(s, step);
      assert WellFormed(id, c) && Holds(s, id);
      if step.Remove? {
        forall a | a in c.comps && a != step.agent
          ensures CompartmentName(id, a) in s'.comps && s'.comps[CompartmentName(id, a)] == id
        {
          if CompartmentName(id, a) == CompartmentName(id, step.agent) { NameFixesAgent(id, a, step.agent); }
        }
      }
      if step.RemoveDir? {
        forall e | e in c.dirs && e != step.exec ensures DirOf(id, e) in s'.dirs && s'.dirs[DirOf(id, e)] == id {
          if DirOf(id, e) == DirOf(id, step.exec) { DirsApart(id, id, e, step.exec); }
        }
      }
    }
  }

  lemma StepKeepsInv(max: int, images: map<string, string>, s: State, step: Step)
    requires Inv(max, s) && Enabled(max, images, s, step)
    ensures Inv(max, Effect(s, step))
  {
    var s' := Effect(s, step);
    if step.Admit? {
      AdmitKeepsTable(max, s, step.id, step.agents);
      AdmitKeepsNamesApart(max, s, step.id, step.agents);
    } else if step.Release? {
      assert WellFormed(step.id, s.children[step.id]);
      ReleaseKeepsTable(max, images, s, step);
    } else {
      InnerKeepsTable(max, images, s, step);
    }
    forall j | j in s'.children ensures WellFormed(j, s'.children[j]) && Holds(s', j) {
      if j == step.id {
        OwnHoldings(max, images, s, step);
      } else {
        SiblingsUntouched(max, images, s, step, j);
        HoldsStays(s, s', j);
      }
    }
  }

  // ---------------------------------------------------------------- every run

  ghost predicate CanRun(max: int, images: map<string, string>, s: State, steps: seq<Step>)
    decreases |steps|
  {
    steps == [] || (Enabled(max, images, s, steps[0]) && CanRun(max, images, Effect(s, steps[0]), steps[1..]))
  }

  ghost function Run(max: int, images: map<string, string>, s: State, steps: seq<Step>): State
    requires CanRun(max, images, s, steps)
    decreases |steps|
  {
    if steps == [] then s else Run(max, images, Effect(s, steps[0]), steps[1..])
  }

  lemma {:induction false} RunKeepsInv(max: int, images: map<string, string>, s: State, steps: seq<Step>)
    requires Inv(max, s) && CanRun(max, images, s, steps)
    ensures Inv(max, Run(max, images, s, steps))
    decreases |steps|
  {
    if steps != [] {
      StepKeepsInv(max, images, s, steps[0]);
      RunKeepsInv(max, images, Effect(s, steps[0]), steps[1..]);
    }
  }

  /**
    In every interleaving: used slots are the held names and the sum over live sets, within the cap,
    none when no set is live; and no name is held by two children.
   */
  lemma SlotsAreAccounted(max: nat, images: map<string, string>, steps: seq<Step>)
    requires CanRun(max, images, INIT, steps)
    ensures var s := Run(max, images, INIT, steps);
            && s.table.used == |s.table.names| == Total(s.children) && s.table.used <= max
            && s.table.live == s.children.Keys
            && (s.children == map[] ==> s.table == Table(0, {}, {}))
            && NamesApart(s)
  {
    RunKeepsInv(max, images, INIT, steps);
    var s := Run(max, images, INIT, steps);
    if s.children == map[] { assert |s.table.names| == 0; }
  }

  lemma HoldingsJoin(s: State, t: State, u: State, j: string)
    requires j in s.children && SameHoldings(s, t, j) && SameHoldings(t, u, j)
    ensures SameHoldings(s, u, j)
  {
    forall a | a in s.children[j].agents
      ensures Entry(u.comps, CompartmentName(j, a)) == Entry(s.comps, CompartmentName(j, a))
    {
      assert Entry(t.comps, CompartmentName(j, a)) == Entry(s.comps, CompartmentName(j, a));
    }
    forall e ensures Entry(u.dirs, DirOf(j, e)) == Entry(s.dirs, DirOf(j, e)) {
      assert Entry(t.dirs, DirOf(j, e)) == Entry(s.dirs, DirOf(j, e));
    }
  }

  /** However many siblings come and go, a child that takes no step keeps all it has, and the same entries for it. */
  lemma {:induction false} RunLeavesOthersAlone(
    max: int, images: map<string, string>, s: State, steps: seq<Step>, j: string)
    requires Inv(max, s) && CanRun(max, images, s, steps) && j in s.children
    requires forall i :: 0 <= i < |steps| ==> steps[i].id != j
    ensures SameHoldings(s, Run(max, images, s, steps), j)
    decreases |steps|
  {
    if steps != [] {
      SiblingsUntouched(max, images, s, steps[0], j);
      StepKeepsInv(max, images, s, steps[0]);
      RunLeavesOthersAlone(max, images, Effect(s, steps[0]), steps[1..], j);
      HoldingsJoin(s, Effect(s, steps[0]), Run(max, images, s, steps), j);
    }
  }

  // ---------------------------------------------------------------- nothing is left behind

  ghost predicate HasOwner(s: State, n: string) {
    exists id, a :: id in s.children && a in s.children[id].comps && n == CompartmentName(id, a)
  }

  ghost predicate HasStoreOwner(s: State, n: string) {
    exists id :: id in s.children && s.children[id].store && n == StoreName(id)
  }

  ghost predicate HasDirOwner(s: State, n: string) {
    exists id, e :: id in s.children && e in s.children[id].dirs && n == DirOf(id, e)
  }

  /** Everything there is has a live owner that knows of it. */
  ghost predicate NothingStray(s: State) {
    && (forall n :: n in s.comps ==> HasOwner(s, n))
    && (forall n :: n in s.stores ==> HasStoreOwner(s, n))
    && (forall n :: n in s.dirs ==> HasDirOwner(s, n))
  }

  /** A new child, or the next step of one that is there. */
  predicate Follows(s: State, step: Step) {
    if step.Admit? then step.id !in s.children else step.id in s.children && Next(s.children[step.id], step)
  }

  predicate Succeeds(step: Step) {
    (step.Remove? ==> step.gone) && (step.RemoveStore? ==> step.gone) && (step.RemoveDir? ==> step.gone)
  }

  lemma CompOwnerStays(s: State, step: Step, n: string)
    requires Follows(s, step) && Succeeds(step) && (n in s.comps ==> HasOwner(s, n))
    requires n in Effect(s, step).comps
    ensures HasOwner(Effect(s, step), n)
  {
    var s' := Effect(s, step);
    if step.Launch? && n == CompartmentName(step.id, step.agent) {
      assert step.agent in s'.children[step.id].comps;
    } else {
      assert HasOwner(s, n);
      var id, a :| id in s.children && a in s.children[id].comps && n == CompartmentName(id, a);
      assert id in s'.children && a in s'.children[id].comps;
    }
  }

  lemma StoreOwnerStays(s: State, step: Step, n: string)
    requires Follows(s, step) && Succeeds(step) && (n in s.stores ==> HasStoreOwner(s, n))
    requires n in Effect(s, step).stores
    ensures HasStoreOwner(Effect(s, step), n)
  {
    var s' := Effect(s, step);
    if step.MakeStore? && n == StoreName(step.id) {
      assert s'.children[step.id].store;
    } else {
      assert HasStoreOwner(s, n);
      var id :| id in s.children && s.children[id].store && n == StoreName(id);
      assert id in s'.children && s'.children[id].store;
    }
  }

  lemma DirOwnerStays(s: State, step: Step, n: string)
    requires Follows(s, step) && Succeeds(step) && (n in s.dirs ==> HasDirOwner(s, n))
    requires n in Effect(s, step).dirs
    ensures HasDirOwner(Effect(s, step), n)
  {
    var s' := Effect(s, step);
    if step.MakeDir? && n == DirOf(step.id, step.exec) {
      assert step.exec in s'.children[step.id].dirs;
    } else {
      assert HasDirOwner(s, n);
      var id, e :| id in s.children && e in s.children[id].dirs && n == DirOf(id, e);
      assert id in s'.children && e in s'.children[id].dirs;
    }
  }

  lemma StepStraysNothing(s: State, step: Step)
    requires Follows(s, step) && Succeeds(step) && NothingStray(s)
    ensures NothingStray(Effect(s, step))
  {
    var s' := Effect(s, step);
    forall n | n in s'.comps ensures HasOwner(s', n) { CompOwnerStays(s, step, n); }
    forall n | n in s'.stores ensures HasStoreOwner(s', n) { StoreOwnerStays(s, step, n); }
    forall n | n in s'.dirs ensures HasDirOwner(s', n) { DirOwnerStays(s, step, n); }
  }

  ghost predicate Clean(max: int, s: State) { Inv(max, s) && NothingStray(s) }

  ghost predicate AllSucceed(steps: seq<Step>) { forall i :: 0 <= i < |steps| ==> Succeeds(steps[i]) }

  lemma CleanStep(max: int, images: map<string, string>, s: State, step: Step)
    requires Clean(max, s) && Enabled(max, images, s, step) && Succeeds(step)
    ensures Clean(max, Effect(s, step))
  {
    StepStraysNothing(s, step);
    StepKeepsInv(max, images, s, step);
  }

  lemma CleanFirst(max: int, images: map<string, string>, s: State, steps: seq<Step>) returns (s': State)
    requires Clean(max, s) && steps != [] && CanRun(max, images, s, steps) && AllSucceed(steps)
    ensures Clean(max, s') && CanRun(max, images, s', steps[1..]) && AllSucceed(steps[1..])
    ensures Run(max, images, s, steps) == Run(max, images, s', steps[1..])
  {
    s' := Effect(s, steps[0]);
    assert Succeeds(steps[0]);
    CleanStep(max, images, s, steps[0]);
  }

  lemma {:induction false} NothingStrays(max: int, images: map<string, string>, s: State, steps: seq<Step>)
    requires Clean(max, s) && CanRun(max, images, s, steps) && AllSucceed(steps)
    ensures Clean(max, Run(max, images, s, steps))
    decreases |steps|
  {
    if steps != [] {
      var s' := CleanFirst(max, images, s, steps);
      NothingStrays(max, images, s', steps[1..]);
    }
  }

  /** When removals succeed, the host is empty whenever no set is live. */
  lemma AllGoneWhenNoneLive(max: nat, images: map<string, string>, steps: seq<Step>)
    requires CanRun(max, images, INIT, steps) && AllSucceed(steps)
    requires Run(max, images, INIT, steps).children == map[]
    ensures var s := Run(max, images, INIT, steps); s.comps == map[] && s.stores == map[] && s.dirs == map[]
  {
    NothingStrays(max, images, INIT, steps);
    var s := Run(max, images, INIT, steps);
    assert forall n :: !HasOwner(s, n) && !HasStoreOwner(s, n) && !HasDirOwner(s, n);
    assert forall n :: n !in s.comps && n !in s.stores && n !in s.dirs;
  }

  // ---------------------------------------------------------------- the order of a teardown

  lemma NoCompartmentLeft(s: State, id: string, a: string)
    requires NamesApart(s) && NothingStray(s) && id in s.children && a in s.children[id].agents
    requires forall i :: i in s.children ==> WellFormed(i, s.children[i])
    requires s.children[id].comps == {}
    ensures CompartmentName(id, a) !in s.comps
  {
    var n := CompartmentName(id, a);
    if n in s.comps {
      assert HasOwner(s, n);
      var i, b :| i in s.children && b in s.children[i].comps && n == CompartmentName(i, b);
      assert WellFormed(i, s.children[i]);
      if i != id { OthersNameIsApart(s, i, b, id, a); }
    }
  }

  /** When removals succeed, a store is removed only once no compartment of its set is there to hold it. */
  lemma StoreGoesAfterCompartments(
    max: int, images: map<string, string>, s: State, id: string, gone: bool, a: string)
    requires Clean(max, s) && Enabled(max, images, s, RemoveStore(id, gone)) && a in s.children[id].agents
    ensures CompartmentName(id, a) !in s.comps
  {
    NoCompartmentLeft(s, id, a);
  }

  /** And slots, names and the child's place are given back only once nothing of the set is left on the host. */
  lemma SlotsAreFreedLast(max: int, images: map<string, string>, s: State, id: string)
    requires Clean(max, s) && Enabled(max, images, s, Release(id))
    ensures forall a :: a in s.children[id].agents ==> CompartmentName(id, a) !in s.comps
    ensures StoreName(id) !in s.stores && ChildDir(id) !in s.dirs && ExecDir(id) !in s.dirs
  {
    forall a | a in s.children[id].agents ensures CompartmentName(id, a) !in s.comps { NoCompartmentLeft(s, id, a); }
    assert WellFormed(id, s.children[id]);
    if StoreName(id) in s.stores {
      assert HasStoreOwner(s, StoreName(id));
      var i :| i in s.children && s.children[i].store && StoreName(id) == StoreName(i);
      StoresApart(id, i);
    }
    NoDirLeft(s, id, false);
    NoDirLeft(s, id, true);
  }

  lemma NoDirLeft(s: State, id: string, e: bool)
    requires NothingStray(s) && id in s.children && s.children[id].dirs == {}
    requires forall i :: i in s.children ==> WellFormed(i, s.children[i])
    ensures DirOf(id, e) !in s.dirs
  {
    if DirOf(id, e) in s.dirs {
      assert HasDirOwner(s, DirOf(id, e));
      var i, f :| i in s.children && f in s.children[i].dirs && DirOf(id, e) == DirOf(i, f);
      assert WellFormed(i, s.children[i]) && WellFormed(id, s.children[id]);
      DirsApart(id, i, e, f);
    }
  }
}
