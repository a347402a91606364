/** Python's ordering on `str`: lexicographic comparison of code points, where a
    proper prefix is smaller than the longer string. Dafny's `<` on sequences means
    "proper prefix", so the order is defined here. */
module Lex {

  /** `a < b` on Python strings. */
  predicate Less(a: string, b: string)
    decreases |a|
  {
    if |a| == 0 then |b| > 0
    else if |b| == 0 then false
    else if a[0] != b[0] then a[0] < b[0]
    else Less(a[1..], b[1..])
  }

  /** `a <= b` on Python strings. */
  predicate LessEq(a: string, b: string) {
    !Less(b, a)
  }

  /** Python's slice `s[:n]`, which never fails on a short string. */
  function Take(s: string, n: nat): (r: string)
    ensures |r| == if |s| < n then |s| else n
    ensures r == s[..|r|]
  {
    if |s| <= n then s else s[..n]
  }

  lemma {:induction false} Irreflexive(a: string)
    ensures !Less(a, a)
  {
    if |a| > 0 {
      Irreflexive(a[1..]);
    }
  }

  lemma {:induction false} Asymmetric(a: string, b: string)
    ensures !(Less(a, b) && Less(b, a))
    decreases |a|
  {
    if |a| > 0 && |b| > 0 && a[0] == b[0] {
      Asymmetric(a[1..], b[1..]);
    }
  }

  lemma {:induction false} Total(a: string, b: string)
    ensures a == b || Less(a, b) || Less(b, a)
    decreases |a|
  {
    if |a| > 0 && |b| > 0 && a[0] == b[0] {
      Total(a[1..], b[1..]);
      if a[1..] == b[1..] {
        assert a == [a[0]] + a[1..] && b == [b[0]] + b[1..];
      }
    }
  }

  lemma {:induction false} Transitive(a: string, b: string, c: string)
    requires Less(a, b) && Less(b, c)
    ensures Less(a, c)
    decreases |a|
  {
    if |a| > 0 && a[0] == b[0] && b[0] == c[0] {
      Transitive(a[1..], b[1..], c[1..]);
    }
  }

  /** `<=` is the reflexive closure of `<`. */
  lemma LessEqCases(a: string, b: string)
    ensures LessEq(a, b) <==> a == b || Less(a, b)
  {
    Total(a, b);
    Irreflexive(a);
    Asymmetric(a, b);
  }

  lemma LessLessEqTransitive(a: string, b: string, c: string)
    requires Less(a, b) && LessEq(b, c)
    ensures Less(a, c)
  {
    LessEqCases(b, c);
    if b != c {
      Transitive(a, b, c);
    }
  }

  /** A common prefix does not change the comparison. */
  lemma {:induction false} CommonPrefix(p: string, s: string, t: string)
    requires Less(s, t)
    ensures Less(p + s, p + t)
    decreases |p|
  {
    if |p| > 0 {
      assert (p + s)[1..] == p[1..] + s;
      assert (p + t)[1..] == p[1..] + t;
      CommonPrefix(p[1..], s, t);
    } else {
      assert p + s == s && p + t == t;
    }
  }

  /** Between strings of equal length the comparison is settled before either ends,
      so whatever follows does not change it. */
  lemma {:induction false} EqualLengthHead(u: string, v: string, s: string, t: string)
    requires |u| == |v| && Less(u, v)
    ensures Less(u + s, v + t)
    decreases |u|
  {
    assert |u| > 0;
    if u[0] == v[0] {
      assert (u + s)[1..] == u[1..] + s;
      assert (v + t)[1..] == v[1..] + t;
      EqualLengthHead(u[1..], v[1..], s, t);
    }
  }
}
