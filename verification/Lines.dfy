/** Splitting and joining text, and shortest decimals: the pieces the file formats are made of. */
module Lines {
  import opened Text

  function Split(s: string, c: char): (parts: seq<string>)
    ensures |parts| >= 1
  {
    if s == "" then [""]
    else
      var rest := Split(s[1..], c);
      if s[0] == c then [""] + rest else [[s[0]] + rest[0]] + rest[1..]
  }

  function Join(parts: seq<string>, c: char): string
    requires |parts| >= 1
  {
    if |parts| == 1 then parts[0] else parts[0] + [c] + Join(parts[1..], c)
  }

  predicate NoneHas(parts: seq<string>, c: char) {
    forall i :: 0 <= i < |parts| ==> c !in parts[i]
  }

  lemma {:induction false} JoinSplit(s: string, c: char)
    ensures Join(Split(s, c), c) == s && NoneHas(Split(s, c), c)
  {
    if s != "" {
      JoinSplit(s[1..], c);
      var rest, all := Split(s[1..], c), Split(s, c);
      assert s == [s[0]] + s[1..];
      if s[0] == c {
        assert all[1..] == rest;
        forall i | 0 <= i < |all| ensures c !in all[i] { if i > 0 { assert all[i] == rest[i - 1]; } }
      } else {
        assert all[1..] == rest[1..];
        forall i | 0 <= i < |all| ensures c !in all[i] { if i > 0 { assert all[i] == rest[i]; } }
        if |rest| > 1 {
          assert Join(all, c) == [s[0]] + rest[0] + [c] + Join(rest[1..], c);
        }
      }
    }
  }

  lemma {:induction false} SplitOne(s: string, c: char)
    requires c !in s
    ensures Split(s, c) == [s]
  {
    if s != "" {
      SplitOne(s[1..], c);
      assert [s[0]] + s[1..] == s;
    }
  }

  lemma {:induction false} SplitCut(a: string, c: char, b: string)
    requires c !in a
    ensures Split(a + [c] + b, c) == [a] + Split(b, c)
  {
    var s := a + [c] + b;
    if a == "" {
      assert s[1..] == b;
    } else {
      SplitCut(a[1..], c, b);
      assert s[1..] == a[1..] + [c] + b;
      assert [a[0]] + a[1..] == a;
    }
  }

  lemma {:induction false} SplitJoin(parts: seq<string>, c: char)
    requires |parts| >= 1 && NoneHas(parts, c)
    ensures Split(Join(parts, c), c) == parts
    decreases |parts|
  {
    if |parts| == 1 {
      SplitOne(parts[0], c);
    } else {
      SplitJoin(parts[1..], c);
      SplitCut(parts[0], c, Join(parts[1..], c));
    }
  }

  lemma {:induction false} JoinLast(parts: seq<string>, last: string, c: char)
    requires |parts| >= 1
    ensures Join(parts + [last], c) == Join(parts, c) + [c] + last
    decreases |parts|
  {
    if |parts| == 1 {
      assert (parts + [last])[1..] == [last];
    } else {
      JoinLast(parts[1..], last, c);
      assert (parts + [last])[1..] == parts[1..] + [last];
    }
  }

  /** A character in a joined text is in a part or is the separator. */
  lemma {:induction false} JoinHas(parts: seq<string>, c: char, x: char)
    requires |parts| >= 1 && x != c && NoneHas(parts, x)
    ensures x !in Join(parts, c)
    decreases |parts|
  {
    if |parts| > 1 {
      assert NoneHas(parts[1..], x);
      JoinHas(parts[1..], c, x);
    }
  }

  // ---------------------------------------------------------------- shortest decimals

  const MAX_INT := 0x7fff_ffff_ffff_ffff

  /** No sign, no leading zero, no fraction. */
  predicate IsShortestDecimal(s: string) {
    |s| > 0 && s[0] != '0' && forall i :: 0 <= i < |s| ==> IsDigit(s[i])
  }

  function DigitOf(n: nat): char
    requires n < 10
  {
    '0' + n as char
  }

  function ValueOf(c: char): nat
    requires IsDigit(c)
  {
    (c - '0') as nat
  }

  function Itoa(n: nat): string {
    if n < 10 then [DigitOf(n)] else Itoa(n / 10) + [DigitOf(n % 10)]
  }

  function Value(s: string): nat
    requires forall i :: 0 <= i < |s| ==> IsDigit(s[i])
  {
    if s == "" then 0 else Value(s[..|s| - 1]) * 10 + ValueOf(s[|s| - 1])
  }

  lemma {:induction false} ItoaIsShortest(n: nat)
    requires n >= 1
    ensures IsShortestDecimal(Itoa(n)) && Value(Itoa(n)) == n
  {
    if n >= 10 {
      ItoaIsShortest(n / 10);
      var s := Itoa(n);
      assert s[..|s| - 1] == Itoa(n / 10);
    } else {
      assert Itoa(n)[..0] == "";
    }
  }

  lemma {:induction false} ValueIsReprinted(s: string)
    requires IsShortestDecimal(s)
    ensures Value(s) >= 1 && Itoa(Value(s)) == s
    decreases |s|
  {
    if |s| == 1 {
      assert s[..0] == "";
    } else {
      var front, d := s[..|s| - 1], ValueOf(s[|s| - 1]);
      ValueIsReprinted(front);
      assert Value(s) == Value(front) * 10 + d;
      assert Value(s) / 10 == Value(front) && Value(s) % 10 == d;
      assert s == front + [s[|s| - 1]];
    }
  }

  /** Neither separators nor blanks occur in digits. */
  lemma DigitsAreClean(s: string, c: char)
    requires (forall i :: 0 <= i < |s| ==> IsLowerHex(s[i])) && !IsLowerHex(c)
    ensures c !in s
  {
  }

  /** A number in exactly `width` digits, zeros in front; its last digits when it has more. */
  function Padded(n: nat, width: nat): string {
    if width == 0 then "" else Padded(n / 10, width - 1) + [DigitOf(n % 10)]
  }

  function Pow10(width: nat): nat { if width == 0 then 1 else 10 * Pow10(width - 1) }

  lemma {:induction false} ValueOfPadded(n: nat, width: nat)
    requires n < Pow10(width)
    ensures |Padded(n, width)| == width && (forall i :: 0 <= i < width ==> IsDigit(Padded(n, width)[i]))
    ensures Value(Padded(n, width)) == n
  {
    if width > 0 {
      ValueOfPadded(n / 10, width - 1);
      var s := Padded(n, width);
      assert s[..width - 1] == Padded(n / 10, width - 1);
    }
  }

  lemma {:induction false} PaddedOfValue(s: string)
    requires forall i :: 0 <= i < |s| ==> IsDigit(s[i])
    ensures Value(s) < Pow10(|s|) && Padded(Value(s), |s|) == s
  {
    if s != "" {
      PaddedOfValue(s[..|s| - 1]);
      assert s == s[..|s| - 1] + [s[|s| - 1]];
    }
  }
}
