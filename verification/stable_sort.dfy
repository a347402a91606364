/** `list.sort(key=lambda x: x["date"])`: a stable sort of ledger entries by their
    date string, modelled as an insertion sort. */
module StableSort {
  import opened Ledger
  import Lex

  /** Non-decreasing by date string. */
  predicate SortedByDate(s: seq<Entry>) {
    forall i, j :: 0 <= i < j < |s| ==> Lex.LessEq(s[i].date, s[j].date)
  }

  /** The entries dated exactly `d`, in their order in `s`; a sort is stable when it
      keeps each of these subsequences unchanged. */
  function WithDate(s: seq<Entry>, d: string): seq<Entry> {
    if |s| == 0 then [] else (if s[0].date == d then [s[0]] else []) + WithDate(s[1..], d)
  }

  lemma {:induction false} WithDateSnoc(s: seq<Entry>, e: Entry, d: string)
    ensures WithDate(s + [e], d) == WithDate(s, d) + (if e.date == d then [e] else [])
  {
    if |s| > 0 {
      assert (s + [e])[1..] == s[1..] + [e];
      WithDateSnoc(s[1..], e, d);
    } else {
      assert s + [e] == [e];
      assert [e][1..] == [];
    }
  }

  lemma {:induction false} WithDateConcat(a: seq<Entry>, b: seq<Entry>, d: string)
    ensures WithDate(a + b, d) == WithDate(a, d) + WithDate(b, d)
  {
    if |a| > 0 {
      assert (a + b)[1..] == a[1..] + b;
      WithDateConcat(a[1..], b, d);
    } else {
      assert a + b == b;
    }
  }

  lemma {:induction false} WithDateAbsent(s: seq<Entry>, d: string)
    requires forall i :: 0 <= i < |s| ==> s[i].date != d
    ensures WithDate(s, d) == []
  {
    if |s| > 0 {
      WithDateAbsent(s[1..], d);
    }
  }

  lemma Cons(x: Entry, t: seq<Entry>)
    ensures Sum([x] + t) == x.amount + Sum(t)
    ensures forall k :: Count([x] + t, k) == (if x.kind == k then 1 else 0) + Count(t, k)
    ensures forall d :: WithDate([x] + t, d) == (if x.date == d then [x] else []) + WithDate(t, d)
  {
    assert ([x] + t)[1..] == t;
  }

  /** Inserts `e` after every entry of the sorted `s` whose date is not later. */
  function InsertByDate(e: Entry, s: seq<Entry>): (r: seq<Entry>)
    requires SortedByDate(s)
    ensures multiset(r) == multiset(s) + multiset{e}
    ensures SortedByDate(r)
    ensures forall d :: WithDate(r, d) == WithDate(s, d) + (if e.date == d then [e] else [])
    ensures Sum(r) == Sum(s) + e.amount
    ensures forall k :: Count(r, k) == Count(s, k) + (if e.kind == k then 1 else 0)
  {
    if |s| == 0 then
      Cons(e, []);
      [e]
    else if Lex.Less(e.date, s[0].date) then
      InsertFrontSorted(e, s);
      InsertFrontStable(e, s);
      Cons(e, s);
      [e] + s
    else
      var rest := InsertByDate(e, s[1..]);
      HeadSorted(e, s, rest);
      HeadMultiset(e, s, rest);
      HeadStable(e, s, rest);
      HeadTotals(e, s, rest);
      [s[0]] + rest
  }

  /** The recursive case of the insertion keeps `s[0]` in front: the per-date
      subsequences and the totals carry over from the recursive call. */
  lemma HeadStable(e: Entry, s: seq<Entry>, rest: seq<Entry>)
    requires |s| > 0
    requires forall d :: WithDate(rest, d) == WithDate(s[1..], d) + (if e.date == d then [e] else [])
    ensures forall d :: WithDate([s[0]] + rest, d) == WithDate(s, d) + (if e.date == d then [e] else [])
  {
    forall d
      ensures WithDate([s[0]] + rest, d) == WithDate(s, d) + (if e.date == d then [e] else [])
    {
      var h := if s[0].date == d then [s[0]] else [];
      assert ([s[0]] + rest)[1..] == rest;
      assert WithDate(s, d) == h + WithDate(s[1..], d);
      assert WithDate([s[0]] + rest, d) == h + (WithDate(s[1..], d) + (if e.date == d then [e] else []));
    }
  }

  lemma HeadTotals(e: Entry, s: seq<Entry>, rest: seq<Entry>)
    requires |s| > 0
    requires Sum(rest) == Sum(s[1..]) + e.amount
    requires forall k :: Count(rest, k) == Count(s[1..], k) + (if e.kind == k then 1 else 0)
    ensures Sum([s[0]] + rest) == Sum(s) + e.amount
    ensures forall k :: Count([s[0]] + rest, k) == Count(s, k) + (if e.kind == k then 1 else 0)
  {
    assert ([s[0]] + rest)[1..] == rest;
  }

  lemma HeadMultiset(e: Entry, s: seq<Entry>, rest: seq<Entry>)
    requires |s| > 0
    requires multiset(rest) == multiset(s[1..]) + multiset{e}
    ensures multiset([s[0]] + rest) == multiset(s) + multiset{e}
  {
    assert s == [s[0]] + s[1..];
  }

  lemma InsertFrontSorted(e: Entry, s: seq<Entry>)
    requires SortedByDate(s) && |s| > 0 && Lex.Less(e.date, s[0].date)
    ensures forall j :: 0 <= j < |s| ==> Lex.Less(e.date, s[j].date)
    ensures SortedByDate([e] + s)
  {
    forall j | 0 <= j < |s|
      ensures Lex.Less(e.date, s[j].date)
    {
      if j > 0 {
        Lex.LessLessEqTransitive(e.date, s[0].date, s[j].date);
      }
    }
    forall j | 0 <= j < |s|
      ensures Lex.LessEq(e.date, s[j].date)
    {
      Lex.Asymmetric(e.date, s[j].date);
    }
  }

  lemma InsertFrontStable(e: Entry, s: seq<Entry>)
    requires forall j :: 0 <= j < |s| ==> Lex.Less(e.date, s[j].date)
    ensures forall d :: WithDate([e] + s, d) == WithDate(s, d) + (if e.date == d then [e] else [])
  {
    Cons(e, s);
    forall d | e.date == d
      ensures WithDate(s, d) == []
    {
      Lex.Irreflexive(d);
      WithDateAbsent(s, d);
    }
  }

  lemma HeadSorted(e: Entry, s: seq<Entry>, rest: seq<Entry>)
    requires SortedByDate(s) && |s| > 0 && !Lex.Less(e.date, s[0].date)
    requires multiset(rest) == multiset(s[1..]) + multiset{e}
    requires SortedByDate(rest)
    ensures SortedByDate([s[0]] + rest)
  {
    var r := [s[0]] + rest;
    forall j | 1 <= j < |r|
      ensures Lex.LessEq(s[0].date, r[j].date)
    {
      assert r[j] in multiset(rest);
      if r[j] != e {
        assert r[j] in multiset(s[1..]);
        var k :| 0 <= k < |s[1..]| && s[1..][k] == r[j];
        assert s[k + 1] == r[j];
      }
    }
  }

  /** The stable sort: entries in date order, entries of equal date in their
      original order. */
  function SortByDate(s: seq<Entry>): (r: seq<Entry>)
    ensures multiset(r) == multiset(s)
    ensures SortedByDate(r)
    ensures forall d :: WithDate(r, d) == WithDate(s, d)
    ensures Sum(r) == Sum(s)
    ensures forall k :: Count(r, k) == Count(s, k)
  {
    if |s| == 0 then
      []
    else
      var init := s[..|s| - 1];
      var last := s[|s| - 1];
      assert s == init + [last];
      SumConcat(init, [last]);
      forall k
        ensures Count(s, k) == Count(init, k) + (if last.kind == k then 1 else 0)
      {
        CountConcat(init, [last], k);
      }
      forall d
        ensures WithDate(s, d) == WithDate(init, d) + (if last.date == d then [last] else [])
      {
        WithDateSnoc(init, last, d);
      }
      InsertByDate(last, SortByDate(init))
  }
}
