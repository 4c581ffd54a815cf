/** The string operations the program takes from its standard library, with the
    facts the encoders and decoders rest on. */
module Text {

  /** Position of the first `c`, or -1. */
  function IndexOf(s: string, c: char): (i: int)
    ensures -1 <= i < |s|
    ensures i >= 0 ==> s[i] == c && c !in s[..i]
    ensures i < 0 <==> c !in s
  {
    if s == "" then -1
    else if s[0] == c then 0
    else
      var i := IndexOf(s[1..], c);
      assert s == [s[0]] + s[1..];
      if i < 0 then -1 else assert s[..i + 1] == [s[0]] + s[1..][..i]; i + 1
  }

  predicate HasSuffix(s: string, t: string) {
    |t| <= |s| && s[|s| - |t|..] == t
  }

  /** Elements separated by `sep`. */
  function Join(parts: seq<string>, sep: string): string {
    if |parts| == 0 then ""
    else if |parts| == 1 then parts[0]
    else parts[0] + sep + Join(parts[1..], sep)
  }

  lemma JoinThree(a: string, b: string, c: string, sep: string)
    ensures Join([a, b, c], sep) == a + sep + (b + sep + c)
  {
    assert [a, b, c][1..] == [b, c] && [b, c][1..] == [c];
    assert Join([c], sep) == c && Join([b, c], sep) == b + sep + c;
  }

  /** A delimiter that occurs in neither prefix cuts a string in one place only. */
  lemma CutUnique(a: string, b: string, a': string, b': string, c: char)
    requires c !in a && c !in a'
    requires a + [c] + b == a' + [c] + b'
    ensures a == a' && b == b'
  {
    var s := a + [c] + b;
    var s' := a' + [c] + b';
    assert s[|a|] == c && s'[|a'|] == c;
    assert |a| == |a'|;
    assert a == s[..|a|] && a' == s'[..|a'|];
    assert b == s[|a| + 1..] && b' == s'[|a'| + 1..];
  }

  /** Every element is nonempty and free of `c`. */
  predicate Delimited(p: seq<string>, c: char) {
    forall i | 0 <= i < |p| :: p[i] != "" && c !in p[i]
  }

  /** Joining is injective on nonempty elements free of the separator. */
  lemma {:induction false} JoinInjective(p: seq<string>, q: seq<string>, c: char)
    requires Delimited(p, c) && Delimited(q, c)
    requires Join(p, [c]) == Join(q, [c])
    ensures p == q
  {
    if p == [] || q == [] {
      JoinEmpty(p, c);
      JoinEmpty(q, c);
    } else {
      var tp, tq := Join(p[1..], [c]), Join(q[1..], [c]);
      assert |p| == 1 <==> |q| == 1;
      if |p| > 1 {
        CutUnique(p[0], tp, q[0], tq, c);
        JoinInjective(p[1..], q[1..], c);
        assert p == [p[0]] + p[1..] && q == [q[0]] + q[1..];
      }
    }
  }

  lemma JoinEmpty(p: seq<string>, c: char)
    requires Delimited(p, c)
    ensures Join(p, [c]) == "" <==> p == []
  {}

  lemma {:induction false} JoinFree(p: seq<string>, c: char, d: char)
    requires c != d && forall i | 0 <= i < |p| :: d !in p[i]
    ensures d !in Join(p, [c])
  {
    if |p| > 1 {
      JoinFree(p[1..], c, d);
    }
  }

  /** Lexicographic order, as the sort compares strings. */
  predicate Le(a: string, b: string) {
    a == "" || (b != "" && (a[0] < b[0] || (a[0] == b[0] && Le(a[1..], b[1..]))))
  }

  lemma LeTotal(a: string, b: string)
    ensures Le(a, b) || Le(b, a)
  {}

  lemma {:induction false} LeAntisymmetric(a: string, b: string)
    requires Le(a, b) && Le(b, a)
    ensures a == b
  {
    if a != "" && b != "" {
      LeAntisymmetric(a[1..], b[1..]);
      assert a == [a[0]] + a[1..] && b == [b[0]] + b[1..];
    }
  }

  lemma LeTransitive(a: string, b: string, c: string)
    requires Le(a, b) && Le(b, c)
    ensures Le(a, c)
  {}

  predicate Sorted(s: seq<string>) {
    forall i, j | 0 <= i < j < |s| :: Le(s[i], s[j])
  }

  function Insert(x: string, s: seq<string>): (r: seq<string>)
    requires Sorted(s)
    ensures Sorted(r)
    ensures multiset(r) == multiset(s) + multiset{x}
  {
    if s == [] then [x]
    else if Le(x, s[0]) then
      assert forall j | 0 <= j < |s| :: Le(x, s[j]) by {
        forall j | 0 < j < |s| ensures Le(x, s[j]) { LeTransitive(x, s[0], s[j]); }
      }
      [x] + s
    else
      var t := Insert(x, s[1..]);
      assert s == [s[0]] + s[1..];
      assert forall y | y in t :: Le(s[0], y) by {
        LeTotal(x, s[0]);
        forall y | y in t ensures Le(s[0], y) {
          assert y in multiset(t);
          assert y == x || y in s[1..];
        }
      }
      [s[0]] + t
  }

  /** The library sort: the sorted rearrangement of `s`. */
  function Sort(s: seq<string>): (r: seq<string>)
    ensures Sorted(r)
    ensures multiset(r) == multiset(s)
  {
    if s == [] then []
    else
      assert s == [s[0]] + s[1..];
      Insert(s[0], Sort(s[1..]))
  }

  /** Two sorted rearrangements of the same strings agree at every position. */
  lemma {:induction false} SameSorted(p: seq<string>, q: seq<string>)
    requires Sorted(p) && Sorted(q) && multiset(p) == multiset(q)
    ensures p == q
  {
    SameLength(p, q);
    if p != [] {
      SameHead(p, q);
      HeadApart(p);
      HeadApart(q);
      SameSorted(p[1..], q[1..]);
    }
  }

  lemma SameLength(p: seq<string>, q: seq<string>)
    requires multiset(p) == multiset(q)
    ensures |p| == |q|
  {
    assert |multiset(p)| == |p| && |multiset(q)| == |q|;
  }

  lemma HeadApart(p: seq<string>)
    requires p != []
    ensures p == [p[0]] + p[1..] && multiset(p[1..]) == multiset(p) - multiset{p[0]}
  {
    assert p == [p[0]] + p[1..];
  }

  lemma SameHead(p: seq<string>, q: seq<string>)
    requires Sorted(p) && Sorted(q) && multiset(p) == multiset(q) && p != [] && q != []
    ensures p[0] == q[0]
  {
    HeadLeast(p, q[0]) by { assert q[0] in multiset(q); }
    HeadLeast(q, p[0]) by { assert p[0] in multiset(p); }
    LeAntisymmetric(p[0], q[0]);
  }

  lemma HeadLeast(p: seq<string>, x: string)
    requires Sorted(p) && x in p
    ensures Le(p[0], x)
  {
    LeReflexive(x);
  }

  lemma LeReflexive(a: string)
    ensures Le(a, a)
  {}

  /** Decimal text of a version number. */
  function Decimal(n: nat): (s: string)
    ensures s != ""
    ensures |s| == 1 <==> n < 10
  {
    var d := ["0123456789"[n % 10]];
    if n < 10 then d else Decimal(n / 10) + d
  }

  lemma {:induction false} DecimalInjective(m: nat, n: nat)
    requires Decimal(m) == Decimal(n)
    ensures m == n
  {
    var s, t := Decimal(m), Decimal(n);
    assert s[|s| - 1] == "0123456789"[m % 10] && t[|t| - 1] == "0123456789"[n % 10];
    assert m % 10 == n % 10;
    if m >= 10 {
      assert s[..|s| - 1] == Decimal(m / 10) && t[..|t| - 1] == Decimal(n / 10);
      DecimalInjective(m / 10, n / 10);
    }
  }

  /** Case folding that is exact when one side of the comparison is ASCII: the
      Kelvin sign folds with `k` and the long s with `s`. */
  function FoldChar(c: char): char {
    if 'A' <= c <= 'Z' then (c as int + 32) as char
    else if c == '\U{212A}' then 'k'
    else if c == '\U{017F}' then 's'
    else c
  }

  /** Two characters fold together with a lower-case ASCII letter as they should. */
  lemma FoldCharExact(c: char, d: char)
    requires 'a' <= d <= 'z'
    ensures FoldChar(c) == FoldChar(d) <==>
      || c == d || c as int == d as int - 32
      || (d == 'k' && c == '\U{212A}') || (d == 's' && c == '\U{017F}')
  {}

  predicate EqualFold(a: string, b: string) {
    |a| == |b| && forall i | 0 <= i < |a| :: FoldChar(a[i]) == FoldChar(b[i])
  }
}
