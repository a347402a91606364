/** The running balance (`saldo`) written onto each entry of a sorted ledger: a
    total that starts at 0 and adds each entry's amount in turn. */
module Balance {
  import opened Ledger

  /** Postings whose balances continue from `opening`. */
  function PostFrom(s: seq<Entry>, opening: int): (r: seq<Posting>)
    ensures |r| == |s|
    ensures forall i :: 0 <= i < |s| ==> r[i].entry == s[i] && r[i].saldo == opening + Sum(s[..i + 1])
  {
    if |s| == 0 then
      []
    else
      var tail := PostFrom(s[1..], opening + s[0].amount);
      var r := [Posting(s[0], opening + s[0].amount)] + tail;
      assert forall i :: 1 <= i < |s| ==> s[..i + 1][1..] == s[1..][..i];
      r
  }

  /** Lines 139-142: each posting carries its own entry, and its balance is the sum
      of the amounts up to and including it. */
  function RunningBalances(s: seq<Entry>): (r: seq<Posting>)
    ensures Entries(r) == s
    ensures forall i :: 0 <= i < |s| ==> r[i].saldo == Sum(s[..i + 1])
    ensures |s| > 0 ==> r[|s| - 1].saldo == Sum(s)
  {
    var r := PostFrom(s, 0);
    assert |s| > 0 ==> s[..|s|] == s;
    r
  }

  /** Consecutive balances differ by exactly the later entry's amount, and the
      first balance is the first amount. */
  lemma BalanceSteps(s: seq<Entry>)
    ensures |s| > 0 ==> RunningBalances(s)[0].saldo == s[0].amount
    ensures forall i :: 0 <= i < |s| - 1 ==>
      RunningBalances(s)[i + 1].saldo == RunningBalances(s)[i].saldo + s[i + 1].amount
  {
    var r := RunningBalances(s);
    forall i | 0 <= i < |s| - 1
      ensures r[i + 1].saldo == r[i].saldo + s[i + 1].amount
    {
      PrefixStep(s, i);
    }
    if |s| > 0 {
      assert Sum(s[..1]) == s[0].amount + Sum(s[..1][1..]);
    }
  }

  lemma PrefixStep(s: seq<Entry>, i: nat)
    requires i + 1 < |s|
    ensures Sum(s[..i + 2]) == Sum(s[..i + 1]) + s[i + 1].amount
  {
    assert s[..i + 2] == s[..i + 1] + [s[i + 1]];
    SumConcat(s[..i + 1], [s[i + 1]]);
  }
}
