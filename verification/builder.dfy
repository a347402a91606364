/** `build_user_transactions` (export_transactions.py lines 29-144) as a whole: the
    event loop, the entries added for every directory entry, then per key a stable
    sort by date and the running balance. */
module Builder {
  import opened Wrappers
  import opened Ledger
  import opened Activity
  import CivilDate
  import Classify
  import Synthesis
  import StableSort
  import Balance
  import Directory

  /** The builder's inputs besides the feed and the directory. `daysSinceStart` is the
      value line 99 computes from the wall clock; `lookup` answers for
      `get_achievement_reward`; `describe(total, numUsers)` is the achievement entry's
      description text (line 131). */
  datatype Config = Config(
    startBudget: int,
    leagueStart: string,
    daysSinceStart: int,
    lookup: Classify.RewardLookup,
    describe: (int, nat) -> string)

  /** `range(days_since_start)` has this many elements. */
  function BonusDays(c: Config): nat {
    if c.daysSinceStart > 0 then c.daysSinceStart else 0
  }

  /** The state after the event loop (lines 36-85). */
  function Loop(c: Config, events: seq<Event>): Classify.Acc {
    Classify.ClassifyAll(c.lookup, c.leagueStart, events)
  }

  /** The trade entries filed under `k` by the event loop. */
  function Trades(c: Config, events: seq<Event>, k: string): seq<Entry> {
    Classify.Lookup(Loop(c, events).users, k)
  }

  /** `achievement_per_user` (line 93); `num_users` counts directory entries. */
  function SharePerUser(c: Config, events: seq<Event>, directory: Directory.IdMap): int {
    Synthesis.Share(Loop(c, events).achievementTotal, |directory|)
  }

  /** The login-bonus dates of lines 118-121, or None when the start date does not
      parse or a date passes 9999-12-31. */
  function Dates(c: Config): Option<seq<string>> {
    match CivilDate.Parse(c.leagueStart)
    case None => None
    case Some(start) => Synthesis.BonusDates(start, BonusDays(c))
  }

  /** What each directory entry appends (lines 109-133). */
  function DirectoryBlock(c: Config, events: seq<Event>, directory: Directory.IdMap): seq<Entry> {
    var acc := Loop(c, events);
    Synthesis.Block(c.leagueStart, c.startBudget, Dates(c).GetOr([]),
      SharePerUser(c, events, directory), c.describe(acc.achievementTotal, |directory|))
  }

  /** The `users` dictionary just before the sort (line 135), or None when an
      exception escapes: `strptime` rejects the start date (line 97), or a bonus date
      overflows (line 119), which can only happen once a directory entry is visited. */
  function Collect(c: Config, events: seq<Event>, directory: Directory.IdMap): Option<map<string, seq<Entry>>> {
    if CivilDate.Parse(c.leagueStart).None? then None
    else if |directory| > 0 && Dates(c).None? then None
    else Some(Synthesis.AddBlocks(Loop(c, events).users, Directory.Names(directory), DirectoryBlock(c, events, directory)))
  }

  /** A stable sort of `s` by date: the same entries, in date order, entries of
      equal date in their order in `s`. */
  ghost predicate StablySorted(l: seq<Entry>, s: seq<Entry>) {
    && multiset(l) == multiset(s)
    && StableSort.SortedByDate(l)
    && (forall d :: StableSort.WithDate(l, d) == StableSort.WithDate(s, d))
  }

  /** Each posting carries the sum of the amounts up to and including it. */
  predicate Balanced(p: seq<Posting>) {
    forall i :: 0 <= i < |p| ==> p[i].saldo == Sum(Entries(p)[..i + 1])
  }

  /** Lines 135-144: every key's list sorted and balanced. */
  function Build(c: Config, events: seq<Event>, directory: Directory.IdMap): (r: Option<map<string, seq<Posting>>>)
    ensures r.Some? <==> Collect(c, events, directory).Some?
    ensures r.Some? ==> r.value.Keys == Collect(c, events, directory).value.Keys
  {
    match Collect(c, events, directory)
    case None => None
    case Some(users) =>
      Some(map k | k in users :: Balance.RunningBalances(StableSort.SortByDate(users[k])))
  }

  /** Every ledger of the result is the list collected under its key, stably sorted
      by date. */
  lemma LedgerSorted(c: Config, events: seq<Event>, directory: Directory.IdMap, k: string)
    requires Build(c, events, directory).Some? && k in Build(c, events, directory).value
    ensures StablySorted(Entries(Build(c, events, directory).value[k]), Collect(c, events, directory).value[k])
  {
  }

  /** Every ledger of the result carries running balances from 0. */
  lemma LedgerBalanced(c: Config, events: seq<Event>, directory: Directory.IdMap, k: string)
    requires Build(c, events, directory).Some? && k in Build(c, events, directory).value
    ensures Balanced(Build(c, events, directory).value[k])
  {
  }

  /** The build fails exactly when the start date does not parse, or when the
      directory is not empty and some bonus date lies past 9999-12-31. */
  lemma BuildFailure(c: Config, events: seq<Event>, directory: Directory.IdMap)
    ensures Build(c, events, directory).None? <==>
      || CivilDate.Parse(c.leagueStart).None?
      || (|directory| > 0 && exists i :: 0 <= i < BonusDays(c) && CivilDate.AddDays(CivilDate.Parse(c.leagueStart).value, i).None?)
  {
    if CivilDate.Parse(c.leagueStart).Some? {
      var start := CivilDate.Parse(c.leagueStart).value;
      assert Dates(c) == Synthesis.BonusDates(start, BonusDays(c));
      Synthesis.BonusDatesOverflow(start, BonusDays(c));
      assert Build(c, events, directory).None? <==> |directory| > 0 && Dates(c).None?;
    }
  }

  /** Before the sort, each key holds its trade entries followed by one block per
      directory entry carrying that name; the keys are the traders and the names. */
  lemma CollectContents(c: Config, events: seq<Event>, directory: Directory.IdMap, k: string)
    requires Collect(c, events, directory).Some?
    ensures Collect(c, events, directory).value.Keys
      == Loop(c, events).users.Keys + set i | 0 <= i < |Directory.Names(directory)| :: Directory.Names(directory)[i]
    ensures Classify.Lookup(Collect(c, events, directory).value, k)
      == Trades(c, events, k) + Synthesis.Repeat(DirectoryBlock(c, events, directory), Synthesis.Occurrences(Directory.Names(directory), k))
  {
    var names := Directory.Names(directory);
    Synthesis.AddBlocksKeys(Loop(c, events).users, names, DirectoryBlock(c, events, directory));
    Synthesis.AddBlocksLookup(Loop(c, events).users, names, DirectoryBlock(c, events, directory), k);
  }

  /** `k`'s finished ledger lists, in date order, the entries collected under `k`. */
  lemma LedgerIsSortedCollection(c: Config, events: seq<Event>, directory: Directory.IdMap, k: string)
    requires Build(c, events, directory).Some? && k in Build(c, events, directory).value
    ensures Entries(Build(c, events, directory).value[k]) == StableSort.SortByDate(
      Trades(c, events, k) + Synthesis.Repeat(DirectoryBlock(c, events, directory), Synthesis.Occurrences(Directory.Names(directory), k)))
  {
    CollectContents(c, events, directory, k);
  }

  /** A name that the directory lists gets the real bonus dates in its block. */
  lemma ListedNameDates(c: Config, events: seq<Event>, directory: Directory.IdMap, k: string)
    requires Build(c, events, directory).Some? && Synthesis.Occurrences(Directory.Names(directory), k) > 0
    ensures Dates(c).Some? && |Dates(c).value| == BonusDays(c)
  {
    Synthesis.OccursWhenPresent(Directory.Names(directory), k);
  }

  /** The synthetic entries in `k`'s ledger: one start entry and `days` bonuses per
      directory entry named `k`, and one achievement entry per such directory entry
      when the share is positive. */
  lemma SyntheticCounts(c: Config, events: seq<Event>, directory: Directory.IdMap, k: string)
    requires Build(c, events, directory).Some? && k in Build(c, events, directory).value
    ensures var l := Entries(Build(c, events, directory).value[k]);
      Count(l, Start) == Synthesis.Occurrences(Directory.Names(directory), k)
    ensures var l := Entries(Build(c, events, directory).value[k]);
      Count(l, LoginBonus) == Synthesis.Occurrences(Directory.Names(directory), k) * BonusDays(c)
    ensures var l := Entries(Build(c, events, directory).value[k]);
      Count(l, AchievementBonus) == if SharePerUser(c, events, directory) > 0 then Synthesis.Occurrences(Directory.Names(directory), k) else 0
  {
    var t := Trades(c, events, k);
    var n := Synthesis.Occurrences(Directory.Names(directory), k);
    var b := DirectoryBlock(c, events, directory);
    LedgerIsSortedCollection(c, events, directory, k);
    TradesOnly(c, events, k);
    BlockCounts(c, events, directory, k);
    MixedCounts(t, b, n, BonusDays(c), SharePerUser(c, events, directory) > 0);
  }

  lemma MixedCounts(t: seq<Entry>, b: seq<Entry>, n: nat, days: nat, shared: bool)
    requires Count(t, Start) == 0 && Count(t, LoginBonus) == 0 && Count(t, AchievementBonus) == 0
    requires n * Count(b, Start) == n && n * Count(b, LoginBonus) == n * days
    requires n * Count(b, AchievementBonus) == if shared then n else 0
    ensures var l := StableSort.SortByDate(t + Synthesis.Repeat(b, n));
      && Count(l, Start) == n
      && Count(l, LoginBonus) == n * days
      && Count(l, AchievementBonus) == if shared then n else 0
  {
    MixCounts(t, b, n);
  }

  /** `k`'s ledger holds exactly the buy and sell entries the event loop filed
      under `k`. */
  lemma TradeCounts(c: Config, events: seq<Event>, directory: Directory.IdMap, k: string)
    requires Build(c, events, directory).Some? && k in Build(c, events, directory).value
    ensures var l := Entries(Build(c, events, directory).value[k]);
      Count(l, Buy) == Count(Trades(c, events, k), Buy) && Count(l, Sell) == Count(Trades(c, events, k), Sell)
  {
    var t := Trades(c, events, k);
    var n := Synthesis.Occurrences(Directory.Names(directory), k);
    var b := DirectoryBlock(c, events, directory);
    LedgerIsSortedCollection(c, events, directory, k);
    BlockCounts(c, events, directory, k);
    MixedTradeCounts(t, b, n);
  }

  lemma MixedTradeCounts(t: seq<Entry>, b: seq<Entry>, n: nat)
    requires Count(b, Buy) == 0 && Count(b, Sell) == 0
    ensures var l := StableSort.SortByDate(t + Synthesis.Repeat(b, n));
      Count(l, Buy) == Count(t, Buy) && Count(l, Sell) == Count(t, Sell)
  {
    MixCounts(t, b, n);
  }

  /** The counts of a sorted mix of `t` and `n` copies of `b`. */
  lemma MixCounts(t: seq<Entry>, b: seq<Entry>, n: nat)
    ensures forall kind :: Count(StableSort.SortByDate(t + Synthesis.Repeat(b, n)), kind) == Count(t, kind) + n * Count(b, kind)
  {
    forall kind
      ensures Count(t + Synthesis.Repeat(b, n), kind) == Count(t, kind) + n * Count(b, kind)
    {
      CountConcat(t, Synthesis.Repeat(b, n), kind);
      Synthesis.RepeatCount(b, n, kind);
    }
  }

  /** The block's counts, scaled by the number of directory entries named `k`. */
  lemma BlockCounts(c: Config, events: seq<Event>, directory: Directory.IdMap, k: string)
    requires Build(c, events, directory).Some?
    ensures var n := Synthesis.Occurrences(Directory.Names(directory), k);
      var b := DirectoryBlock(c, events, directory);
      && n * Count(b, Start) == n
      && n * Count(b, LoginBonus) == n * BonusDays(c)
      && n * Count(b, AchievementBonus) == (if SharePerUser(c, events, directory) > 0 then n else 0)
      && Count(b, Buy) == 0 && Count(b, Sell) == 0
  {
    var n := Synthesis.Occurrences(Directory.Names(directory), k);
    Synthesis.BlockTotals(c.leagueStart, c.startBudget, Dates(c).GetOr([]), SharePerUser(c, events, directory),
      c.describe(Loop(c, events).achievementTotal, |directory|));
    if n > 0 {
      ListedNameDates(c, events, directory, k);
    }
  }

  /** The event loop files only trade entries. */
  lemma TradesOnly(c: Config, events: seq<Event>, k: string)
    ensures forall e :: e in Trades(c, events, k) ==> Classify.FromTrade(e, c.leagueStart)
    ensures Count(Trades(c, events, k), Start) == 0
    ensures Count(Trades(c, events, k), LoginBonus) == 0
    ensures Count(Trades(c, events, k), AchievementBonus) == 0
  {
    var t := Trades(c, events, k);
    assert forall i :: 0 <= i < |t| ==> Classify.FromTrade(t[i], c.leagueStart);
    CountAbsent(t, Start);
    CountAbsent(t, LoginBonus);
    CountAbsent(t, AchievementBonus);
  }

  /** `k`'s ledger is as long as its trades plus, per directory entry named `k`, a
      start entry, the daily bonuses and the optional achievement entry; so every
      listed name has at least `1 + days` entries. */
  lemma LedgerLength(c: Config, events: seq<Event>, directory: Directory.IdMap, k: string)
    requires Build(c, events, directory).Some? && k in Build(c, events, directory).value
    ensures var n := Synthesis.Occurrences(Directory.Names(directory), k);
      |Build(c, events, directory).value[k]|
        == |Trades(c, events, k)| + n + n * BonusDays(c) + (if SharePerUser(c, events, directory) > 0 then n else 0)
    ensures k in Directory.Names(directory) ==> |Build(c, events, directory).value[k]| >= 1 + BonusDays(c)
    ensures |Build(c, events, directory).value[k]| > 0
  {
    var t := Trades(c, events, k);
    var n := Synthesis.Occurrences(Directory.Names(directory), k);
    var l := Entries(Build(c, events, directory).value[k]);
    SyntheticCounts(c, events, directory, k);
    TradeCounts(c, events, directory, k);
    TradesOnly(c, events, k);
    CountsAddUp(l);
    CountsAddUp(t);
    Synthesis.OccursWhenPresent(Directory.Names(directory), k);
    if n > 0 {
      AtLeastOnce(n, BonusDays(c));
    }
    KeyOrigin(c, events, directory, k);
  }

  lemma AtLeastOnce(n: nat, d: nat)
    requires n >= 1
    ensures n * d >= d
  {
  }

  /** A key of the result is a trader with at least one entry or a listed name. */
  lemma KeyOrigin(c: Config, events: seq<Event>, directory: Directory.IdMap, k: string)
    requires Build(c, events, directory).Some? && k in Build(c, events, directory).value
    ensures |Trades(c, events, k)| > 0 || k in Directory.Names(directory)
  {
    CollectContents(c, events, directory, k);
    var names := Directory.Names(directory);
    if k !in Loop(c, events).users {
      var i :| 0 <= i < |names| && names[i] == k;
    }
  }

  lemma MixedSum(t: seq<Entry>, b: seq<Entry>, n: nat)
    ensures Sum(StableSort.SortByDate(t + Synthesis.Repeat(b, n))) == Sum(t) + n * Sum(b)
  {
    SumConcat(t, Synthesis.Repeat(b, n));
    Synthesis.RepeatSum(b, n);
  }

  /** What one directory entry adds to the balance. */
  lemma BlockSum(c: Config, events: seq<Event>, directory: Directory.IdMap, k: string)
    requires Build(c, events, directory).Some?
    ensures var n := Synthesis.Occurrences(Directory.Names(directory), k);
      var share := SharePerUser(c, events, directory);
      n * Sum(DirectoryBlock(c, events, directory))
        == n * (c.startBudget + BonusDays(c) * Synthesis.DailyLoginBonus + (if share > 0 then share else 0))
  {
    var n := Synthesis.Occurrences(Directory.Names(directory), k);
    Synthesis.BlockTotals(c.leagueStart, c.startBudget, Dates(c).GetOr([]), SharePerUser(c, events, directory),
      c.describe(Loop(c, events).achievementTotal, |directory|));
    if n > 0 {
      ListedNameDates(c, events, directory, k);
    }
  }

  /** The last balance of `k`'s ledger: its trades' amounts plus, per directory entry
      named `k`, the starting budget, the daily bonuses and the achievement share. */
  lemma FinalBalance(c: Config, events: seq<Event>, directory: Directory.IdMap, k: string)
    requires Build(c, events, directory).Some? && k in Build(c, events, directory).value
    ensures var p := Build(c, events, directory).value[k];
      var n := Synthesis.Occurrences(Directory.Names(directory), k);
      var share := SharePerUser(c, events, directory);
      && |p| > 0
      && p[|p| - 1].saldo == Sum(Trades(c, events, k))
        + n * (c.startBudget + BonusDays(c) * Synthesis.DailyLoginBonus + (if share > 0 then share else 0))
  {
    var p := Build(c, events, directory).value[k];
    LedgerLength(c, events, directory, k);
    LedgerSum(c, events, directory, k);
    LedgerBalanced(c, events, directory, k);
    BlockSum(c, events, directory, k);
    LastSaldo(p);
  }

  /** The amounts of `k`'s ledger add up to its trades plus one block per directory
      entry named `k`. */
  lemma LedgerSum(c: Config, events: seq<Event>, directory: Directory.IdMap, k: string)
    requires Build(c, events, directory).Some? && k in Build(c, events, directory).value
    ensures Sum(Entries(Build(c, events, directory).value[k]))
      == Sum(Trades(c, events, k)) + Synthesis.Occurrences(Directory.Names(directory), k) * Sum(DirectoryBlock(c, events, directory))
  {
    LedgerIsSortedCollection(c, events, directory, k);
    MixedSum(Trades(c, events, k), DirectoryBlock(c, events, directory), Synthesis.Occurrences(Directory.Names(directory), k));
  }

  lemma LastSaldo(p: seq<Posting>)
    requires |p| > 0 && Balanced(p)
    ensures p[|p| - 1].saldo == Sum(Entries(p))
  {
    assert Entries(p)[..|p|] == Entries(p);
  }

  /** `k`'s ledger holds exactly its trade entries and one block per directory entry
      named `k`: no entry is lost, duplicated or invented by the sort. */
  lemma LedgerContents(c: Config, events: seq<Event>, directory: Directory.IdMap, k: string)
    requires Build(c, events, directory).Some? && k in Build(c, events, directory).value
    ensures multiset(Entries(Build(c, events, directory).value[k]))
      == multiset(Trades(c, events, k) + Synthesis.Repeat(DirectoryBlock(c, events, directory), Synthesis.Occurrences(Directory.Names(directory), k)))
  {
    LedgerSorted(c, events, directory, k);
    CollectContents(c, events, directory, k);
  }

  /** No block entry is a trade. */
  lemma DirectoryBlockKinds(c: Config, events: seq<Event>, directory: Directory.IdMap)
    ensures forall e :: e in DirectoryBlock(c, events, directory) ==> e.kind in {Start, LoginBonus, AchievementBonus}
  {
    forall e | e in DirectoryBlock(c, events, directory)
      ensures e.kind in {Start, LoginBonus, AchievementBonus}
    {
      Synthesis.BlockKinds(c.leagueStart, c.startBudget, Dates(c).GetOr([]), SharePerUser(c, events, directory),
        c.describe(Loop(c, events).achievementTotal, |directory|), e);
    }
  }

  lemma MixedTrade(l: seq<Entry>, t: seq<Entry>, b: seq<Entry>, n: nat, e: Entry)
    requires multiset(l) == multiset(t + Synthesis.Repeat(b, n)) && e in l && e.kind in {Buy, Sell}
    requires forall x :: x in b ==> x.kind in {Start, LoginBonus, AchievementBonus}
    ensures e in t
  {
    assert e in multiset(t + Synthesis.Repeat(b, n));
    if e !in t {
      Synthesis.RepeatMember(b, n, e);
    }
  }

  lemma MixedSynthetic(l: seq<Entry>, t: seq<Entry>, b: seq<Entry>, n: nat, e: Entry)
    requires multiset(l) == multiset(t + Synthesis.Repeat(b, n)) && e in l && e.kind !in {Buy, Sell}
    requires forall x :: x in t ==> x.kind in {Buy, Sell}
    ensures e in b && n > 0
  {
    assert e in multiset(t + Synthesis.Repeat(b, n));
    assert e in Synthesis.Repeat(b, n);
    Synthesis.RepeatMember(b, n, e);
  }

  /** Every non-trade entry of a ledger was written by the directory loop for a listed
      name: the starting budget dated at the league start, a bonus of 100,000 on one of
      the bonus dates, or the positive achievement share dated two seconds later. */
  lemma SyntheticEntries(c: Config, events: seq<Event>, directory: Directory.IdMap, k: string, e: Entry)
    requires Build(c, events, directory).Some? && k in Build(c, events, directory).value
    requires e in Entries(Build(c, events, directory).value[k]) && e.kind !in {Buy, Sell}
    ensures k in Directory.Names(directory) && Dates(c).Some?
    ensures e.kind == Start ==> e == Synthesis.StartEntry(c.leagueStart, c.startBudget)
    ensures e.kind == LoginBonus ==> e.amount == Synthesis.DailyLoginBonus && e.date in Dates(c).value
    ensures e.kind == AchievementBonus ==>
      SharePerUser(c, events, directory) > 0 && e.amount == SharePerUser(c, events, directory)
      && e.date == c.leagueStart + "T00:00:02Z"
  {
    var t := Trades(c, events, k);
    var n := Synthesis.Occurrences(Directory.Names(directory), k);
    LedgerContents(c, events, directory, k);
    TradesOnly(c, events, k);
    MixedSynthetic(Entries(Build(c, events, directory).value[k]), t, DirectoryBlock(c, events, directory), n, e);
    Synthesis.OccursWhenPresent(Directory.Names(directory), k);
    ListedNameDates(c, events, directory, k);
    Synthesis.BlockEntry(c.leagueStart, c.startBudget, Dates(c).GetOr([]), SharePerUser(c, events, directory),
      c.describe(Loop(c, events).achievementTotal, |directory|), e);
  }

  /** Line 42: every buy or sell entry of a ledger is one the event loop filed under
      that key, dated on or after the league start. */
  lemma NoEarlyTrades(c: Config, events: seq<Event>, directory: Directory.IdMap, k: string)
    requires Build(c, events, directory).Some? && k in Build(c, events, directory).value
    ensures var p := Build(c, events, directory).value[k];
      forall i :: 0 <= i < |p| && p[i].entry.kind in {Buy, Sell} ==>
        p[i].entry in Trades(c, events, k) && !Classify.BeforeLeague(p[i].entry.date, c.leagueStart)
  {
    var p := Build(c, events, directory).value[k];
    var l := Entries(p);
    LedgerContents(c, events, directory, k);
    DirectoryBlockKinds(c, events, directory);
    TradesOnly(c, events, k);
    forall i | 0 <= i < |p| && p[i].entry.kind in {Buy, Sell}
      ensures p[i].entry in Trades(c, events, k)
    {
      assert l[i] == p[i].entry;
      MixedTrade(l, Trades(c, events, k), DirectoryBlock(c, events, directory), Synthesis.Occurrences(Directory.Names(directory), k), l[i]);
    }
  }

  /** An event dated before the league start, appended at the end of the feed,
      changes nothing; `BuildUsesOnlyWindow` covers such events anywhere in the feed. */
  lemma EarlyEventIgnored(c: Config, events: seq<Event>, ev: Event, directory: Directory.IdMap)
    requires Classify.BeforeLeague(ev.dt, c.leagueStart)
    ensures Build(c, events + [ev], directory) == Build(c, events, directory)
  {
    assert (events + [ev])[..|events|] == events;
    assert Loop(c, events + [ev]) == Loop(c, events);
  }

  /** Only the events dated on or after the league start count. */
  lemma BuildUsesOnlyWindow(c: Config, events: seq<Event>, directory: Directory.IdMap)
    ensures Build(c, events, directory) == Build(c, Classify.InWindow(events, c.leagueStart), directory)
  {
    Classify.EarlyEventsIgnored(c.lookup, c.leagueStart, events);
    assert Loop(c, events) == Loop(c, Classify.InWindow(events, c.leagueStart));
  }

  /** Only trade and achievement events count; login-bonus events (code 22) and
      unknown codes are ignored. */
  lemma BuildUsesOnlyRecognised(c: Config, events: seq<Event>, directory: Directory.IdMap)
    ensures Build(c, events, directory) == Build(c, Classify.Recognised(events), directory)
  {
    Classify.OnlyTradesAndAchievementsCount(c.lookup, c.leagueStart, events);
    assert Loop(c, events) == Loop(c, Classify.Recognised(events));
  }

  lemma MixedWithDate(t: seq<Entry>, b: seq<Entry>, n: nat, d: string)
    ensures StableSort.WithDate(t + Synthesis.Repeat(b, n), d)
      == StableSort.WithDate(t, d) + Synthesis.Repeat(StableSort.WithDate(b, d), n)
  {
    StableSort.WithDateConcat(t, Synthesis.Repeat(b, n), d);
    Synthesis.RepeatWithDate(b, n, d);
  }

  /** The entries of a listed name's block dated at the league start, when the start
      date is written in the canonical ten-character form: its start entry, then
      its day-1 bonus. */
  lemma BlockAtStart(c: Config, events: seq<Event>, directory: Directory.IdMap, k: string)
    requires Build(c, events, directory).Some? && k in Directory.Names(directory)
    requires |c.leagueStart| == 10 && c.leagueStart[8] != ' ' && BonusDays(c) > 0
    ensures StableSort.WithDate(DirectoryBlock(c, events, directory), c.leagueStart + "T00:00:00Z")
      == [Synthesis.StartEntry(c.leagueStart, c.startBudget), Synthesis.LoginBonusEntry(c.leagueStart + "T00:00:00Z", 1)]
  {
    Synthesis.OccursWhenPresent(Directory.Names(directory), k);
    ListedNameDates(c, events, directory, k);
    Synthesis.BonusesAtStart(c.leagueStart, BonusDays(c));
    Synthesis.BlockStartDate(c.leagueStart, c.startBudget, Dates(c).value, SharePerUser(c, events, directory),
      c.describe(Loop(c, events).achievementTotal, |directory|));
  }

  /** Among the entries dated at the league start, the sort keeps the order in which
      they were appended: the trades stamped at that instant, then for each directory
      entry named `k` its start entry followed by its day-1 bonus. */
  lemma StartBeforeFirstBonus(c: Config, events: seq<Event>, directory: Directory.IdMap, k: string)
    requires Build(c, events, directory).Some? && k in Directory.Names(directory)
    requires |c.leagueStart| == 10 && c.leagueStart[8] != ' ' && BonusDays(c) > 0
    ensures k in Build(c, events, directory).value
    ensures StableSort.WithDate(Entries(Build(c, events, directory).value[k]), c.leagueStart + "T00:00:00Z")
      == StableSort.WithDate(Trades(c, events, k), c.leagueStart + "T00:00:00Z")
        + Synthesis.Repeat([Synthesis.StartEntry(c.leagueStart, c.startBudget), Synthesis.LoginBonusEntry(c.leagueStart + "T00:00:00Z", 1)],
            Synthesis.Occurrences(Directory.Names(directory), k))
  {
    var names := Directory.Names(directory);
    CollectContents(c, events, directory, k);
    var i :| 0 <= i < |names| && names[i] == k;
    LedgerSorted(c, events, directory, k);
    MixedWithDate(Trades(c, events, k), DirectoryBlock(c, events, directory), Synthesis.Occurrences(names, k), c.leagueStart + "T00:00:00Z");
    BlockAtStart(c, events, directory, k);
  }
}
