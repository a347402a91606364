/** The entries `build_user_transactions` adds for every directory entry
    (export_transactions.py lines 87-133): the starting budget, one login bonus per
    elapsed day, and an equal share of the league's achievement rewards. */
module Synthesis {
  import opened Wrappers
  import opened Ledger
  import opened Digits
  import CivilDate
  import Lex
  import Classify
  import StableSort

  const DailyLoginBonus := 100_000

  function StartEntry(leagueStart: string, startBudget: int): Entry {
    Entry(leagueStart + "T00:00:00Z", Start, "Starting budget", startBudget)
  }

  /** The bonus for the 1-based `day`, dated `date`. */
  function LoginBonusEntry(date: string, day: nat): Entry {
    Entry(date, LoginBonus, "Daily login bonus (day " + Decimal(day) + ")", DailyLoginBonus)
  }

  function AchievementEntry(leagueStart: string, share: int, description: string): Entry {
    Entry(leagueStart + "T00:00:02Z", AchievementBonus, description, share)
  }

  /** Lines 91-93: `total // num_users`, or 0 for an empty directory. Python's `//`
      floors, which for a positive divisor is Dafny's `/`. */
  function Share(total: int, numUsers: nat): (r: int)
    ensures numUsers == 0 ==> r == 0
    ensures numUsers > 0 ==> r * numUsers <= total < r * numUsers + numUsers
    ensures total >= 0 ==> r >= 0
  {
    if numUsers > 0 then total / numUsers else 0
  }

  /** Lines 118-121: the dates `start + timedelta(days=i)` printed with
      `strftime("%Y-%m-%dT00:00:00Z")` for i in range(days); None when one of the
      additions overflows, which is when the last one does. */
  function BonusDates(start: CivilDate.Date, days: nat): (r: Option<seq<string>>)
    requires CivilDate.Valid(start)
    ensures r.Some? <==> forall i :: 0 <= i < days ==> CivilDate.AddDays(start, i).Some?
    ensures r.Some? ==> |r.value| == days && forall i :: 0 <= i < days ==>
      CivilDate.AddDays(start, i).Some? && r.value[i] == CivilDate.Format(CivilDate.AddDays(start, i).value) + "T00:00:00Z"
  {
    if days == 0 || CivilDate.ToOrdinal(start) + days - 1 <= CivilDate.MaxOrdinal then
      Some(seq(days, i requires 0 <= i < days => CivilDate.Format(CivilDate.AddDays(start, i).value) + "T00:00:00Z"))
    else
      assert !CivilDate.AddDays(start, days - 1).Some?;
      None
  }

  /** The dates are missing exactly when one of the additions overflows. */
  lemma BonusDatesOverflow(start: CivilDate.Date, days: nat)
    requires CivilDate.Valid(start)
    ensures BonusDates(start, days).None? <==> exists i :: 0 <= i < days && CivilDate.AddDays(start, i).None?
  {
    if BonusDates(start, days).None? {
      assert CivilDate.AddDays(start, days - 1).None?;
    }
  }

  /** Later days get later date strings, so the bonuses are already in date order. */
  lemma BonusDatesIncreasing(start: CivilDate.Date, days: nat, i: nat, j: nat)
    requires CivilDate.Valid(start) && BonusDates(start, days).Some? && i < j < days
    ensures Lex.Less(BonusDates(start, days).value[i], BonusDates(start, days).value[j])
  {
    var a := CivilDate.AddDays(start, i).value;
    var b := CivilDate.AddDays(start, j).value;
    if !CivilDate.Before(a, b) {
      if a != b {
        assert CivilDate.Before(b, a);
        CivilDate.OrdinalMonotone(b, a);
      }
      assert false;
    }
    CivilDate.FormatOrder(a, b);
    Lex.EqualLengthHead(CivilDate.Format(a), CivilDate.Format(b), "T00:00:00Z", "T00:00:00Z");
  }

  /** Day 1's bonus carries the start entry's date when the start date is written in
      the canonical ten-character form. */
  lemma FirstBonusDate(leagueStart: string, days: nat)
    requires CivilDate.Parse(leagueStart).Some? && |leagueStart| == 10 && leagueStart[8] != ' '
    requires days > 0 && BonusDates(CivilDate.Parse(leagueStart).value, days).Some?
    ensures BonusDates(CivilDate.Parse(leagueStart).value, days).value[0] == leagueStart + "T00:00:00Z"
  {
    var start := CivilDate.Parse(leagueStart).value;
    CivilDate.FormatParse(leagueStart, start);
  }

  /** Lines 118-125: one bonus per date, numbered from 1. */
  function LoginBonuses(dates: seq<string>): (r: seq<Entry>)
    ensures |r| == |dates|
    ensures forall i :: 0 <= i < |r| ==> r[i].kind == LoginBonus && r[i].amount == DailyLoginBonus && r[i].date == dates[i]
    ensures forall i :: 0 <= i < |r| ==> r[i].description == "Daily login bonus (day " + Decimal(i + 1) + ")"
  {
    seq(|dates|, i requires 0 <= i < |dates| => LoginBonusEntry(dates[i], i + 1))
  }

  /** Lines 110-133: what one directory entry appends, in order. */
  function Block(leagueStart: string, startBudget: int, dates: seq<string>, share: int, description: string): seq<Entry> {
    [StartEntry(leagueStart, startBudget)]
    + LoginBonuses(dates)
    + (if share > 0 then [AchievementEntry(leagueStart, share, description)] else [])
  }

  /** A block holds no trade entries. */
  lemma BlockKinds(leagueStart: string, startBudget: int, dates: seq<string>, share: int, description: string, e: Entry)
    requires e in Block(leagueStart, startBudget, dates, share, description)
    ensures e.kind in {Start, LoginBonus, AchievementBonus}
  {
    var l := LoginBonuses(dates);
    if e in l {
      var i :| 0 <= i < |l| && l[i] == e;
    }
  }

  /** Each kind of block entry is what lines 110-133 write: the starting budget, a
      bonus of 100,000 on one of the dates, or the achievement share when it is
      positive. */
  lemma BlockEntry(leagueStart: string, startBudget: int, dates: seq<string>, share: int, description: string, e: Entry)
    requires e in Block(leagueStart, startBudget, dates, share, description)
    ensures e.kind == Start ==> e == StartEntry(leagueStart, startBudget)
    ensures e.kind == LoginBonus ==> e.amount == DailyLoginBonus && e.date in dates
    ensures e.kind == AchievementBonus ==> share > 0 && e == AchievementEntry(leagueStart, share, description)
  {
    var l := LoginBonuses(dates);
    if e in l {
      var i :| 0 <= i < |l| && l[i] == e;
    }
  }

  /** Entries that all have one kind and one amount. */
  lemma {:induction false} UniformTotals(s: seq<Entry>, kind: Kind, amount: int)
    requires forall i :: 0 <= i < |s| ==> s[i].kind == kind && s[i].amount == amount
    ensures Count(s, kind) == |s|
    ensures forall k :: k != kind ==> Count(s, k) == 0
    ensures Sum(s) == |s| * amount
  {
    if |s| > 0 {
      UniformTotals(s[1..], kind, amount);
    }
  }

  /** One block holds one start entry, one bonus per date, at most one achievement
      share and nothing else, and adds up accordingly. */
  lemma BlockTotals(leagueStart: string, startBudget: int, dates: seq<string>, share: int, description: string)
    ensures Count(Block(leagueStart, startBudget, dates, share, description), Start) == 1
    ensures Count(Block(leagueStart, startBudget, dates, share, description), LoginBonus) == |dates|
    ensures Count(Block(leagueStart, startBudget, dates, share, description), AchievementBonus) == (if share > 0 then 1 else 0)
    ensures Count(Block(leagueStart, startBudget, dates, share, description), Buy) == 0
    ensures Count(Block(leagueStart, startBudget, dates, share, description), Sell) == 0
    ensures Sum(Block(leagueStart, startBudget, dates, share, description))
      == startBudget + |dates| * DailyLoginBonus + (if share > 0 then share else 0)
  {
    var s := [StartEntry(leagueStart, startBudget)];
    var l := LoginBonuses(dates);
    var a := if share > 0 then [AchievementEntry(leagueStart, share, description)] else [];
    assert Block(leagueStart, startBudget, dates, share, description) == s + l + a;
    UniformTotals(l, LoginBonus, DailyLoginBonus);
    UniformTotals(s, Start, startBudget);
    UniformTotals(a, AchievementBonus, share);
    SumConcat(s, l);
    SumConcat(s + l, a);
    forall k
      ensures Count(s + l + a, k) == Count(s, k) + Count(l, k) + Count(a, k)
    {
      CountConcat(s, l, k);
      CountConcat(s + l, a, k);
    }
  }

  /** `n` copies of `b`, one after another. */
  function Repeat(b: seq<Entry>, n: nat): seq<Entry> {
    if n == 0 then [] else Repeat(b, n - 1) + b
  }

  lemma MulStep(n: nat, x: int)
    requires n > 0
    ensures n * x == (n - 1) * x + x
  {
  }

  lemma {:induction false} RepeatCount(b: seq<Entry>, n: nat, k: Kind)
    ensures Count(Repeat(b, n), k) == n * Count(b, k)
  {
    if n > 0 {
      RepeatCount(b, n - 1, k);
      CountConcat(Repeat(b, n - 1), b, k);
      MulStep(n, Count(b, k));
    }
  }

  lemma {:induction false} RepeatSum(b: seq<Entry>, n: nat)
    ensures Sum(Repeat(b, n)) == n * Sum(b)
  {
    if n > 0 {
      RepeatSum(b, n - 1);
      SumConcat(Repeat(b, n - 1), b);
      MulStep(n, Sum(b));
    }
  }

  /** How many times `k` occurs in `names`. */
  function Occurrences(names: seq<string>, k: string): nat {
    if |names| == 0 then 0
    else Occurrences(names[..|names| - 1], k) + (if names[|names| - 1] == k then 1 else 0)
  }

  lemma {:induction false} OccursWhenPresent(names: seq<string>, k: string)
    ensures Occurrences(names, k) > 0 <==> k in names
  {
    if |names| > 0 {
      var init := names[..|names| - 1];
      OccursWhenPresent(init, k);
      assert names == init + [names[|names| - 1]];
    }
  }

  /** `users[key] += b`, creating the key first if it is missing (lines 106-107). */
  function Extend(users: map<string, seq<Entry>>, key: string, b: seq<Entry>): map<string, seq<Entry>> {
    users[key := Classify.Lookup(users, key) + b]
  }

  /** The loop at line 105 over the directory's names in order. */
  function AddBlocks(users: map<string, seq<Entry>>, names: seq<string>, block: seq<Entry>): map<string, seq<Entry>> {
    if |names| == 0 then users
    else Extend(AddBlocks(users, names[..|names| - 1], block), names[|names| - 1], block)
  }

  /** A name gains one block for every directory entry carrying it, after the
      entries it already had; every other key keeps its list. */
  lemma {:induction false} AddBlocksLookup(users: map<string, seq<Entry>>, names: seq<string>, block: seq<Entry>, k: string)
    ensures Classify.Lookup(AddBlocks(users, names, block), k) == Classify.Lookup(users, k) + Repeat(block, Occurrences(names, k))
  {
    if |names| > 0 {
      var init := names[..|names| - 1];
      AddBlocksLookup(users, init, block, k);
      if names[|names| - 1] == k {
        assert Classify.Lookup(AddBlocks(users, names, block), k)
          == (Classify.Lookup(users, k) + Repeat(block, Occurrences(init, k))) + block;
      }
    }
  }

  /** The keys afterwards: the old ones and every directory name. */
  lemma {:induction false} AddBlocksKeys(users: map<string, seq<Entry>>, names: seq<string>, block: seq<Entry>)
    ensures AddBlocks(users, names, block).Keys == users.Keys + set i | 0 <= i < |names| :: names[i]
  {
    if |names| > 0 {
      var init := names[..|names| - 1];
      AddBlocksKeys(users, init, block);
      var sn := set i | 0 <= i < |names| :: names[i];
      var si := set i | 0 <= i < |init| :: init[i];
      assert sn == si + {names[|names| - 1]} by {
        forall x | x in sn ensures x in si + {names[|names| - 1]} {
          var i :| 0 <= i < |names| && names[i] == x;
          if i < |init| {
            assert init[i] == x;
          }
        }
        forall x | x in si ensures x in sn {
          var i :| 0 <= i < |init| && init[i] == x;
          assert names[i] == x;
        }
      }
    }
  }

  lemma {:induction false} RepeatWithDate(b: seq<Entry>, n: nat, d: string)
    ensures StableSort.WithDate(Repeat(b, n), d) == Repeat(StableSort.WithDate(b, d), n)
  {
    if n > 0 {
      RepeatWithDate(b, n - 1, d);
      StableSort.WithDateConcat(Repeat(b, n - 1), b, d);
    }
  }

  lemma {:induction false} RepeatMember(b: seq<Entry>, n: nat, e: Entry)
    requires e in Repeat(b, n)
    ensures e in b
  {
    if n > 0 && e !in b {
      RepeatMember(b, n - 1, e);
    }
  }

  /** Only the first bonus date is the start entry's date. */
  lemma BonusesAtStart(leagueStart: string, days: nat)
    requires CivilDate.Parse(leagueStart).Some? && |leagueStart| == 10 && leagueStart[8] != ' '
    requires days > 0 && BonusDates(CivilDate.Parse(leagueStart).value, days).Some?
    ensures var dates := BonusDates(CivilDate.Parse(leagueStart).value, days).value;
      dates[0] == leagueStart + "T00:00:00Z" && forall i :: 1 <= i < |dates| ==> dates[i] != dates[0]
  {
    var start := CivilDate.Parse(leagueStart).value;
    var dates := BonusDates(start, days).value;
    FirstBonusDate(leagueStart, days);
    forall i | 1 <= i < |dates|
      ensures dates[i] != dates[0]
    {
      BonusDatesIncreasing(start, days, 0, i);
      Lex.Irreflexive(dates[0]);
    }
  }

  /** The achievement entry is dated two seconds after the start entry. */
  lemma TimesDiffer(leagueStart: string)
    ensures leagueStart + "T00:00:00Z" != leagueStart + "T00:00:02Z"
  {
    var late: string := "T00:00:02Z";
    var early: string := "T00:00:00Z";
    assert late == ['T', '0', '0', ':', '0', '0', ':', '0', '2', 'Z'];
    assert early == ['T', '0', '0', ':', '0', '0', ':', '0', '0', 'Z'];
    assert (leagueStart + late)[|leagueStart| + 8] != (leagueStart + early)[|leagueStart| + 8];
  }

  /** Of a block's entries, exactly the start entry and the day-1 bonus carry the
      date `leagueStart + "T00:00:00Z"` when the first bonus date is that date and
      no other is, and they come in that order: the sort, being stable, keeps the
      start entry ahead of the first bonus. */
  lemma BlockStartDate(leagueStart: string, startBudget: int, dates: seq<string>, share: int, description: string)
    requires |dates| > 0 && dates[0] == leagueStart + "T00:00:00Z"
    requires forall i :: 1 <= i < |dates| ==> dates[i] != dates[0]
    ensures StableSort.WithDate(Block(leagueStart, startBudget, dates, share, description), dates[0])
      == [StartEntry(leagueStart, startBudget), LoginBonusEntry(dates[0], 1)]
  {
    var d := dates[0];
    var s := [StartEntry(leagueStart, startBudget)];
    var l := LoginBonuses(dates);
    var a := if share > 0 then [AchievementEntry(leagueStart, share, description)] else [];
    assert Block(leagueStart, startBudget, dates, share, description) == s + l + a;
    assert l == [l[0]] + l[1..];
    StableSort.WithDateAbsent(l[1..], d);
    StableSort.Cons(l[0], l[1..]);
    if share > 0 {
      TimesDiffer(leagueStart);
    }
    StableSort.WithDateAbsent(a, d);
    StableSort.Cons(s[0], []);
    StableSort.WithDateConcat(s, l, d);
    StableSort.WithDateConcat(s + l, a, d);
  }
}
