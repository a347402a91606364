/** Ledger entries: one dictionary per transaction in the source, with a `type`
    of "start", "buy", "sell", "login_bonus" or "achievement_bonus". */
module Ledger {

  datatype Kind = Start | Buy | Sell | LoginBonus | AchievementBonus

  datatype Entry = Entry(date: string, kind: Kind, description: string, amount: int)

  /** An entry with its running balance (`saldo`) filled in. */
  datatype Posting = Posting(entry: Entry, saldo: int)

  /** Sum of the amounts. */
  function Sum(s: seq<Entry>): int {
    if |s| == 0 then 0 else s[0].amount + Sum(s[1..])
  }

  /** Number of entries of kind `k`. */
  function Count(s: seq<Entry>, k: Kind): nat {
    if |s| == 0 then 0 else (if s[0].kind == k then 1 else 0) + Count(s[1..], k)
  }

  function Entries(p: seq<Posting>): (s: seq<Entry>)
    ensures |s| == |p| && forall i :: 0 <= i < |p| ==> s[i] == p[i].entry
  {
    seq(|p|, i requires 0 <= i < |p| => p[i].entry)
  }

  lemma {:induction false} SumConcat(a: seq<Entry>, b: seq<Entry>)
    ensures Sum(a + b) == Sum(a) + Sum(b)
  {
    if |a| > 0 {
      assert (a + b)[1..] == a[1..] + b;
      SumConcat(a[1..], b);
    } else {
      assert a + b == b;
    }
  }

  lemma {:induction false} CountConcat(a: seq<Entry>, b: seq<Entry>, k: Kind)
    ensures Count(a + b, k) == Count(a, k) + Count(b, k)
  {
    if |a| > 0 {
      assert (a + b)[1..] == a[1..] + b;
      CountConcat(a[1..], b, k);
    } else {
      assert a + b == b;
    }
  }

  /** Every entry has exactly one kind. */
  lemma {:induction false} CountsAddUp(s: seq<Entry>)
    ensures |s| == Count(s, Start) + Count(s, Buy) + Count(s, Sell) + Count(s, LoginBonus) + Count(s, AchievementBonus)
  {
    if |s| > 0 {
      CountsAddUp(s[1..]);
    }
  }

  lemma {:induction false} CountAbsent(s: seq<Entry>, k: Kind)
    requires forall i :: 0 <= i < |s| ==> s[i].kind != k
    ensures Count(s, k) == 0
  {
    if |s| > 0 {
      CountAbsent(s[1..], k);
    }
  }
}
