/** The byte order sort.Strings sorts by, and the sorted sequence of a set of names. */
module Order {

  predicate Leq(a: string, b: string) {
    a == "" || (b != "" && (a[0] < b[0] || (a[0] == b[0] && Leq(a[1..], b[1..]))))
  }

  lemma {:induction false} LeqTotal(a: string, b: string)
    ensures Leq(a, b) || Leq(b, a)
  {
    if a != "" && b != "" && a[0] == b[0] { LeqTotal(a[1..], b[1..]); }
  }

  lemma {:induction false} LeqAntisymmetric(a: string, b: string)
    requires Leq(a, b) && Leq(b, a)
    ensures a == b
  {
    if a != "" && b != "" {
      LeqAntisymmetric(a[1..], b[1..]);
      assert a == [a[0]] + a[1..] && b == [b[0]] + b[1..];
    }
  }

  lemma {:induction false} LeqTransitive(a: string, b: string, c: string)
    requires Leq(a, b) && Leq(b, c)
    ensures Leq(a, c)
  {
    if a != "" && a[0] == b[0] == c[0] { LeqTransitive(a[1..], b[1..], c[1..]); }
  }

  lemma {:induction false} LeqUnderPrefix(p: string, a: string, b: string)
    ensures Leq(p + a, p + b) <==> Leq(a, b)
  {
    if p == "" {
      assert p + a == a && p + b == b;
    } else {
      LeqUnderPrefix(p[1..], a, b);
      assert (p + a)[1..] == p[1..] + a && (p + b)[1..] == p[1..] + b;
    }
  }

  predicate IsLeast(m: string, s: set<string>) {
    m in s && forall x :: x in s ==> Leq(m, x)
  }

  lemma {:induction false} LeastExists(s: set<string>)
    requires s != {}
    ensures exists m :: IsLeast(m, s)
    decreases |s|
  {
    var x :| x in s;
    var rest := s - {x};
    if rest == {} {
      LeqTotal(x, x);
      assert s == {x} && IsLeast(x, s);
    } else {
      LeastExists(rest);
      var m :| IsLeast(m, rest);
      LeqTotal(x, x);
      LeqTotal(x, m);
      if Leq(x, m) {
        forall y | y in rest ensures Leq(x, y) { LeqTransitive(x, m, y); }
        assert IsLeast(x, s);
      } else {
        assert IsLeast(m, s);
      }
    }
  }

  lemma LeastIsOne(m: string, n: string, s: set<string>)
    requires IsLeast(m, s) && IsLeast(n, s)
    ensures m == n
  {
    LeqAntisymmetric(m, n);
  }

  function Least(s: set<string>): (m: string)
    requires s != {}
    ensures IsLeast(m, s)
  {
    LeastExists(s);
    assert forall m, n :: IsLeast(m, s) && IsLeast(n, s) ==> m == n by {
      forall m, n | IsLeast(m, s) && IsLeast(n, s) ensures m == n { LeastIsOne(m, n, s); }
    }
    var m :| m in s && IsLeast(m, s);
    m
  }

  function Ordered(s: set<string>): seq<string>
    decreases |s|
  {
    if s == {} then [] else [Least(s)] + Ordered(s - {Least(s)})
  }

  lemma {:induction false} OrderedHolds(s: set<string>)
    ensures forall x :: x in Ordered(s) <==> x in s
    ensures |Ordered(s)| == |s|
    decreases |s|
  {
    if s != {} {
      OrderedHolds(s - {Least(s)});
    }
  }

  /** The order is a sort: increasing throughout. */
  lemma {:induction false} OrderedIsIncreasing(s: set<string>, i: nat, j: nat)
    requires i < j < |Ordered(s)|
    ensures Leq(Ordered(s)[i], Ordered(s)[j]) && Ordered(s)[i] != Ordered(s)[j]
    decreases |s|
  {
    var rest := s - {Least(s)};
    OrderedHolds(rest);
    if i == 0 {
      assert Ordered(s)[j] == Ordered(rest)[j - 1] && Ordered(rest)[j - 1] in Ordered(rest);
    } else {
      OrderedIsIncreasing(rest, i - 1, j - 1);
    }
  }

  function Prefixed(p: string, names: seq<string>): seq<string> {
    seq(|names|, i requires 0 <= i < |names| => p + names[i])
  }

  function PrefixedSet(p: string, s: set<string>): set<string> {
    set n | n in s :: p + n
  }

  lemma InPrefixedSet(p: string, s: set<string>, n: string)
    ensures p + n in PrefixedSet(p, s) <==> n in s
  {
    forall m | m in s && p + n == p + m ensures n == m {
      assert (p + n)[|p|..] == n && (p + m)[|p|..] == m;
    }
  }

  lemma LeastUnderPrefix(p: string, s: set<string>)
    requires s != {}
    ensures PrefixedSet(p, s) != {} && Least(PrefixedSet(p, s)) == p + Least(s)
  {
    var ps, m := PrefixedSet(p, s), Least(s);
    assert p + m in ps;
    forall x | x in ps ensures Leq(p + m, x) {
      var n :| n in s && x == p + n;
      LeqUnderPrefix(p, m, n);
    }
    LeastIsOne(p + m, Least(ps), ps);
  }

  lemma RestUnderPrefix(p: string, s: set<string>, m: string)
    ensures PrefixedSet(p, s) - {p + m} == PrefixedSet(p, s - {m})
  {
    forall x ensures x in PrefixedSet(p, s) - {p + m} <==> x in PrefixedSet(p, s - {m}) {
      InPrefixedSet(p, s - {m}, m);
      forall n | n in s && x == p + n ensures n == m <==> x == p + m {
        assert (p + n)[|p|..] == n && (p + m)[|p|..] == m;
      }
    }
  }

  /** Sorting names and then prefixing them is sorting the prefixed names. */
  lemma {:induction false} OrderedUnderPrefix(p: string, s: set<string>)
    ensures Ordered(PrefixedSet(p, s)) == Prefixed(p, Ordered(s))
    decreases |s|
  {
    if s == {} {
      assert PrefixedSet(p, s) == {};
    } else {
      var m := Least(s);
      LeastUnderPrefix(p, s);
      RestUnderPrefix(p, s, m);
      OrderedUnderPrefix(p, s - {m});
    }
  }

  lemma PrefixShifts(a: string, b: string)
    requires a != "" && b != "" && a[0] == b[0]
    ensures a <= b <==> a[1..] <= b[1..]
  {
    assert a == [a[0]] + a[1..] && b == [b[0]] + b[1..];
  }

  lemma DifferenceShifts(a: string, b: string, k: nat)
    requires a != "" && b != "" && a[0] == b[0]
    ensures FirstDifference(a, b, k + 1) <==> FirstDifference(a[1..], b[1..], k)
  {
    if k < |a| - 1 && k < |b| - 1 {
      assert a[..k + 1] == [a[0]] + a[1..][..k] && b[..k + 1] == [b[0]] + b[1..][..k];
      assert a[1..][..k] == a[..k + 1][1..] && b[1..][..k] == b[..k + 1][1..];
    }
  }

  predicate Precedes(a: string, b: string, k: int) { FirstDifference(a, b, k) && a[k] < b[k] }

  /** The order, read off the strings: a prefix comes first, else the first difference decides. */
  lemma {:induction false} LeqExactly(a: string, b: string)
    ensures Leq(a, b) <==> a <= b || exists k :: Precedes(a, b, k)
  {
    if a != "" && b != "" && a[0] == b[0] {
      LeqExactly(a[1..], b[1..]);
      PrefixShifts(a, b);
      if k :| Precedes(a, b, k) {
        DifferenceShifts(a, b, k - 1);
        assert Precedes(a[1..], b[1..], k - 1);
      }
      if k :| Precedes(a[1..], b[1..], k) {
        DifferenceShifts(a, b, k);
        assert Precedes(a, b, k + 1);
      }
    } else if a != "" && b != "" {
      assert FirstDifference(a, b, 0);
      assert a[0] < b[0] ==> Precedes(a, b, 0);
      forall k | FirstDifference(a, b, k) ensures k == 0 {
        if k > 0 { SharesFirst(a, b, k); }
      }
    }
  }

  lemma SharesFirst(a: string, b: string, k: int)
    requires FirstDifference(a, b, k) && k > 0
    ensures a[0] == b[0]
  {
    assert a[0] == a[..k][0] == b[..k][0] == b[0];
  }

  predicate FirstDifference(a: string, b: string, k: int) {
    0 <= k < |a| && k < |b| && a[..k] == b[..k] && a[k] != b[k]
  }
}
