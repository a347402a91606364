/** The event loop of `build_user_transactions` (export_transactions.py lines 36-85):
    skip events dated before the league start, turn trades into buy and sell
    entries, total the achievement rewards, and ignore everything else. */
module Classify {
  import opened Wrappers
  import opened Activity
  import opened Ledger
  import Lex

  /** `get_achievement_reward` as an input: the (amount, reward) pair for an
      achievement type, or None where the call raises. */
  type RewardLookup = Option<int> -> Option<(int, int)>

  /** The loop's state: the `users` dictionary and the sum of the `achievements`
      list's amounts. */
  datatype Acc = Acc(users: map<string, seq<Entry>>, achievementTotal: int)

  const Empty := Acc(map[], 0)

  /** The entries under `key`, empty when the key is absent. */
  function Lookup(users: map<string, seq<Entry>>, key: string): seq<Entry> {
    if key in users then users[key] else []
  }

  /** `users.setdefault(key, []).append(e)`. */
  function Append(users: map<string, seq<Entry>>, key: string, e: Entry): (r: map<string, seq<Entry>>)
    ensures r.Keys == users.Keys + {key}
    ensures forall k :: Lookup(r, k) == Lookup(users, k) + (if k == key then [e] else [])
  {
    users[key := Lookup(users, key) + [e]]
  }

  /** The entries among `ps` filed under `key`, in order. */
  function EntriesFor(ps: seq<(string, Entry)>, key: string): (r: seq<Entry>)
    ensures forall e :: e in r ==> (key, e) in ps
  {
    if |ps| == 0 then []
    else EntriesFor(ps[..|ps| - 1], key) + (if ps[|ps| - 1].0 == key then [ps[|ps| - 1].1] else [])
  }

  /** Appends each (key, entry) pair in turn. */
  function AppendAll(users: map<string, seq<Entry>>, ps: seq<(string, Entry)>): map<string, seq<Entry>> {
    if |ps| == 0 then users else Append(AppendAll(users, ps[..|ps| - 1]), ps[|ps| - 1].0, ps[|ps| - 1].1)
  }

  /** Each key gains exactly the entries filed under it, in order; other keys keep theirs. */
  lemma {:induction false} AppendAllLookup(users: map<string, seq<Entry>>, ps: seq<(string, Entry)>, k: string)
    ensures Lookup(AppendAll(users, ps), k) == Lookup(users, k) + EntriesFor(ps, k)
  {
    if |ps| > 0 {
      var init := ps[..|ps| - 1];
      var last := ps[|ps| - 1];
      AppendAllLookup(users, init, k);
      var tail := if k == last.0 then [last.1] else [];
      assert EntriesFor(ps, k) == EntriesFor(init, k) + tail;
      assert Lookup(AppendAll(users, ps), k) == (Lookup(users, k) + EntriesFor(init, k)) + tail;
    }
  }

  /** Line 42: the event's date part `dt[:10]` sorts before the league start date. */
  predicate BeforeLeague(dt: string, leagueStart: string) {
    Lex.Less(Lex.Take(dt, 10), leagueStart)
  }

  /** Line 57. */
  function BuyDescription(p: Payload): string {
    "Bought " + p.pn.GetOr("Unknown") + (if Truthy(p.slr) then " from " + p.slr.value else " (market)")
  }

  /** Line 67. */
  function SellDescription(p: Payload): string {
    "Sold " + p.pn.GetOr("Unknown") + (if Truthy(p.byr) then " to " + p.byr.value else " (market)")
  }

  /** Lines 46-69: the (key, entry) pairs a trade appends, the buyer's first. */
  function TradePostings(dt: string, p: Payload): (r: seq<(string, Entry)>)
    ensures |r| == (if Truthy(p.byr) then 1 else 0) + (if Truthy(p.slr) then 1 else 0)
    ensures forall i :: 0 <= i < |r| ==> r[i].1.date == dt && r[i].1.kind in {Buy, Sell}
  {
    (if Truthy(p.byr) then [(p.byr.value, BuyEntry(dt, p))] else [])
    + (if Truthy(p.slr) then [(p.slr.value, SellEntry(dt, p))] else [])
  }

  /** Lines 77-85: `amount * reward` when the lookup succeeds and the product is
      positive; otherwise nothing is added. */
  function AchievementReward(lookup: RewardLookup, p: Payload): (r: int)
    ensures r >= 0
    ensures r > 0 <==> lookup(p.achievementType).Some? && lookup(p.achievementType).value.0 * lookup(p.achievementType).value.1 > 0
    ensures r > 0 ==> r == lookup(p.achievementType).value.0 * lookup(p.achievementType).value.1
  {
    match lookup(p.achievementType)
    case None => 0
    case Some((amount, reward)) => if amount * reward > 0 then amount * reward else 0
  }

  /** One iteration of the loop at line 36. A login-bonus event (code 22) only feeds a
      list that is never read, so it changes nothing here, like any other code. */
  function Step(lookup: RewardLookup, leagueStart: string, acc: Acc, ev: Event): Acc {
    if BeforeLeague(ev.dt, leagueStart) then acc
    else if ev.t == TradeCode then acc.(users := AppendAll(acc.users, TradePostings(ev.dt, ev.data)))
    else if ev.t == AchievementCode then acc.(achievementTotal := acc.achievementTotal + AchievementReward(lookup, ev.data))
    else acc
  }

  /** An entry the loop can have produced: a trade entry dated on or after the league start. */
  predicate FromTrade(e: Entry, leagueStart: string) {
    e.kind in {Buy, Sell} && !BeforeLeague(e.date, leagueStart)
  }

  /** The whole loop over the feed, in order. */
  function ClassifyAll(lookup: RewardLookup, leagueStart: string, events: seq<Event>): (r: Acc)
    ensures r.achievementTotal >= 0
    ensures OnlyTrades(r, leagueStart)
    ensures NoEmptyLists(r.users)
  {
    if |events| == 0 then
      Empty
    else
      var acc := ClassifyAll(lookup, leagueStart, events[..|events| - 1]);
      var ev := events[|events| - 1];
      var r := Step(lookup, leagueStart, acc, ev);
      StepKeepsInvariant(lookup, leagueStart, acc, ev);
      r
  }

  /** Every entry the loop has produced so far is a trade entry inside the league's dates. */
  predicate OnlyTrades(acc: Acc, leagueStart: string) {
    forall k, i :: k in acc.users && 0 <= i < |acc.users[k]| ==> FromTrade(acc.users[k][i], leagueStart)
  }

  /** A key is only ever created together with its first entry. */
  predicate NoEmptyLists(users: map<string, seq<Entry>>) {
    forall k :: k in users ==> |users[k]| > 0
  }

  lemma {:induction false} AppendAllNoEmptyLists(users: map<string, seq<Entry>>, ps: seq<(string, Entry)>)
    requires NoEmptyLists(users)
    ensures NoEmptyLists(AppendAll(users, ps))
  {
    if |ps| > 0 {
      AppendAllNoEmptyLists(users, ps[..|ps| - 1]);
    }
  }

  lemma StepKeepsInvariant(lookup: RewardLookup, leagueStart: string, acc: Acc, ev: Event)
    requires OnlyTrades(acc, leagueStart) && acc.achievementTotal >= 0 && NoEmptyLists(acc.users)
    ensures OnlyTrades(Step(lookup, leagueStart, acc, ev), leagueStart)
    ensures NoEmptyLists(Step(lookup, leagueStart, acc, ev).users)
    ensures Step(lookup, leagueStart, acc, ev).achievementTotal >= acc.achievementTotal
  {
    var r := Step(lookup, leagueStart, acc, ev);
    if !BeforeLeague(ev.dt, leagueStart) && ev.t == TradeCode {
      var ps := TradePostings(ev.dt, ev.data);
      AppendAllNoEmptyLists(acc.users, ps);
      forall k, i | k in r.users && 0 <= i < |r.users[k]|
        ensures FromTrade(r.users[k][i], leagueStart)
      {
        var e := r.users[k][i];
        AppendAllLookup(acc.users, ps, k);
        if i >= |Lookup(acc.users, k)| {
          assert e in EntriesFor(ps, k);
          assert (k, e) in ps;
        }
      }
    }
  }

  /** Lines 45-69 for a trade inside the league's dates: each key gains the trade's
      entries filed under it and nothing else changes. */
  lemma TradeStep(lookup: RewardLookup, leagueStart: string, acc: Acc, ev: Event)
    requires !BeforeLeague(ev.dt, leagueStart) && ev.t == TradeCode
    ensures Step(lookup, leagueStart, acc, ev).achievementTotal == acc.achievementTotal
    ensures forall k ::
      Lookup(Step(lookup, leagueStart, acc, ev).users, k) == Lookup(acc.users, k) + EntriesFor(TradePostings(ev.dt, ev.data), k)
  {
    forall k {
      AppendAllLookup(acc.users, TradePostings(ev.dt, ev.data), k);
    }
  }

  lemma EntriesForOne(a: (string, Entry), k: string)
    ensures EntriesFor([a], k) == if a.0 == k then [a.1] else []
  {
    assert [a][..0] == [];
  }

  lemma EntriesForTwo(a: (string, Entry), b: (string, Entry), k: string)
    ensures EntriesFor([a, b], k) == (if a.0 == k then [a.1] else []) + (if b.0 == k then [b.1] else [])
  {
    assert [a, b][..1] == [a];
    EntriesForOne(a, k);
  }

  /** The buy entry of lines 54-59. */
  function BuyEntry(dt: string, p: Payload): Entry {
    Entry(dt, Buy, BuyDescription(p), -p.trp.GetOr(0))
  }

  /** The sell entry of lines 64-69. */
  function SellEntry(dt: string, p: Payload): Entry {
    Entry(dt, Sell, SellDescription(p), p.trp.GetOr(0))
  }

  /** A trade between two named users: the buyer's list gains "Bought <player> from
      <seller>" for minus the price, the seller's gains "Sold <player> to <buyer>" for
      the price, so the two amounts cancel, and no other list changes. */
  lemma TradeBetweenUsers(lookup: RewardLookup, leagueStart: string, acc: Acc, ev: Event)
    requires !BeforeLeague(ev.dt, leagueStart) && ev.t == TradeCode
    requires Truthy(ev.data.byr) && Truthy(ev.data.slr) && ev.data.byr != ev.data.slr
    ensures Lookup(Step(lookup, leagueStart, acc, ev).users, ev.data.byr.value)
      == Lookup(acc.users, ev.data.byr.value) + [BuyEntry(ev.dt, ev.data)]
    ensures Lookup(Step(lookup, leagueStart, acc, ev).users, ev.data.slr.value)
      == Lookup(acc.users, ev.data.slr.value) + [SellEntry(ev.dt, ev.data)]
    ensures BuyEntry(ev.dt, ev.data).description == "Bought " + ev.data.pn.GetOr("Unknown") + " from " + ev.data.slr.value
    ensures SellEntry(ev.dt, ev.data).description == "Sold " + ev.data.pn.GetOr("Unknown") + " to " + ev.data.byr.value
    ensures BuyEntry(ev.dt, ev.data).kind == Buy && BuyEntry(ev.dt, ev.data).amount == -ev.data.trp.GetOr(0)
    ensures SellEntry(ev.dt, ev.data).kind == Sell && SellEntry(ev.dt, ev.data).amount == ev.data.trp.GetOr(0)
    ensures BuyEntry(ev.dt, ev.data).amount + SellEntry(ev.dt, ev.data).amount == 0
    ensures forall k :: k != ev.data.byr.value && k != ev.data.slr.value ==>
      Lookup(Step(lookup, leagueStart, acc, ev).users, k) == Lookup(acc.users, k)
  {
    var buy := (ev.data.byr.value, BuyEntry(ev.dt, ev.data));
    var sell := (ev.data.slr.value, SellEntry(ev.dt, ev.data));
    assert TradePostings(ev.dt, ev.data) == [buy, sell];
    AppendTwo(acc.users, buy, sell);
  }

  /** Appending two entries under two different keys. */
  lemma AppendTwo(users: map<string, seq<Entry>>, a: (string, Entry), b: (string, Entry))
    requires a.0 != b.0
    ensures Lookup(AppendAll(users, [a, b]), a.0) == Lookup(users, a.0) + [a.1]
    ensures Lookup(AppendAll(users, [a, b]), b.0) == Lookup(users, b.0) + [b.1]
    ensures forall k :: k != a.0 && k != b.0 ==> Lookup(AppendAll(users, [a, b]), k) == Lookup(users, k)
  {
    AppendAllLookup(users, [a, b], a.0);
    EntriesForTwo(a, b, a.0);
    AppendAllLookup(users, [a, b], b.0);
    EntriesForTwo(a, b, b.0);
    forall k | k != a.0 && k != b.0
      ensures Lookup(AppendAll(users, [a, b]), k) == Lookup(users, k)
    {
      AppendAllLookup(users, [a, b], k);
      EntriesForTwo(a, b, k);
      assert EntriesFor([a, b], k) == [];
    }
  }

  /** Appending one entry. */
  lemma AppendOne(users: map<string, seq<Entry>>, a: (string, Entry))
    ensures Lookup(AppendAll(users, [a]), a.0) == Lookup(users, a.0) + [a.1]
    ensures forall k :: k != a.0 ==> Lookup(AppendAll(users, [a]), k) == Lookup(users, k)
  {
    AppendAllLookup(users, [a], a.0);
    EntriesForOne(a, a.0);
    forall k | k != a.0
      ensures Lookup(AppendAll(users, [a]), k) == Lookup(users, k)
    {
      AppendAllLookup(users, [a], k);
      EntriesForOne(a, k);
      assert EntriesFor([a], k) == [];
    }
  }

  /** A trade whose seller is not named is a purchase from the market: the buyer's
      list gains one entry whose description ends in " (market)", and no other list
      changes. */
  lemma BoughtFromMarket(lookup: RewardLookup, leagueStart: string, acc: Acc, ev: Event)
    requires !BeforeLeague(ev.dt, leagueStart) && ev.t == TradeCode
    requires Truthy(ev.data.byr) && !Truthy(ev.data.slr)
    ensures Lookup(Step(lookup, leagueStart, acc, ev).users, ev.data.byr.value)
      == Lookup(acc.users, ev.data.byr.value) + [BuyEntry(ev.dt, ev.data)]
    ensures BuyEntry(ev.dt, ev.data).description == "Bought " + ev.data.pn.GetOr("Unknown") + " (market)"
    ensures BuyEntry(ev.dt, ev.data).kind == Buy && BuyEntry(ev.dt, ev.data).date == ev.dt
    ensures BuyEntry(ev.dt, ev.data).amount == -ev.data.trp.GetOr(0)
    ensures forall k :: k != ev.data.byr.value ==>
      Lookup(Step(lookup, leagueStart, acc, ev).users, k) == Lookup(acc.users, k)
  {
    var buy := (ev.data.byr.value, BuyEntry(ev.dt, ev.data));
    assert TradePostings(ev.dt, ev.data) == [buy];
    AppendOne(acc.users, buy);
  }

  /** A trade whose buyer is not named is a sale to the market: the seller's list
      gains one entry whose description ends in " (market)", and no other list
      changes. */
  lemma SoldToMarket(lookup: RewardLookup, leagueStart: string, acc: Acc, ev: Event)
    requires !BeforeLeague(ev.dt, leagueStart) && ev.t == TradeCode
    requires !Truthy(ev.data.byr) && Truthy(ev.data.slr)
    ensures Lookup(Step(lookup, leagueStart, acc, ev).users, ev.data.slr.value)
      == Lookup(acc.users, ev.data.slr.value) + [SellEntry(ev.dt, ev.data)]
    ensures SellEntry(ev.dt, ev.data).description == "Sold " + ev.data.pn.GetOr("Unknown") + " (market)"
    ensures SellEntry(ev.dt, ev.data).kind == Sell && SellEntry(ev.dt, ev.data).date == ev.dt
    ensures SellEntry(ev.dt, ev.data).amount == ev.data.trp.GetOr(0)
    ensures forall k :: k != ev.data.slr.value ==>
      Lookup(Step(lookup, leagueStart, acc, ev).users, k) == Lookup(acc.users, k)
  {
    var sell := (ev.data.slr.value, SellEntry(ev.dt, ev.data));
    assert TradePostings(ev.dt, ev.data) == [sell];
    AppendOne(acc.users, sell);
  }

  /** A trade with neither party named appends nothing. */
  lemma TradeWithoutParties(lookup: RewardLookup, leagueStart: string, acc: Acc, ev: Event)
    requires ev.t == TradeCode && !Truthy(ev.data.byr) && !Truthy(ev.data.slr)
    ensures Step(lookup, leagueStart, acc, ev) == acc
  {
  }

  /** Lines 76-85: an achievement inside the league's dates adds its reward to the
      total, nothing when the lookup fails, and no entry anywhere. */
  lemma AchievementStep(lookup: RewardLookup, leagueStart: string, acc: Acc, ev: Event)
    requires !BeforeLeague(ev.dt, leagueStart) && ev.t == AchievementCode
    ensures Step(lookup, leagueStart, acc, ev).users == acc.users
    ensures Step(lookup, leagueStart, acc, ev).achievementTotal == acc.achievementTotal + AchievementReward(lookup, ev.data)
    ensures lookup(ev.data.achievementType).None? ==> Step(lookup, leagueStart, acc, ev) == acc
  {
  }

  /** Lines 71-74 and the missing else branch: login-bonus events and unknown codes
      change nothing. */
  lemma OtherEventStep(lookup: RewardLookup, leagueStart: string, acc: Acc, ev: Event)
    requires ev.t != TradeCode && ev.t != AchievementCode
    ensures Step(lookup, leagueStart, acc, ev) == acc
  {
  }

  /** The events dated on or after the league start, in order. */
  function InWindow(events: seq<Event>, leagueStart: string): seq<Event> {
    if |events| == 0 then []
    else
      var last := events[|events| - 1];
      InWindow(events[..|events| - 1], leagueStart) + (if BeforeLeague(last.dt, leagueStart) then [] else [last])
  }

  /** The trade and achievement events, in order. */
  function Recognised(events: seq<Event>): seq<Event> {
    if |events| == 0 then []
    else
      var last := events[|events| - 1];
      Recognised(events[..|events| - 1]) + (if last.t == TradeCode || last.t == AchievementCode then [last] else [])
  }

  /** Line 42: removing the events dated before the league start changes nothing. */
  lemma {:induction false} EarlyEventsIgnored(lookup: RewardLookup, leagueStart: string, events: seq<Event>)
    ensures ClassifyAll(lookup, leagueStart, events) == ClassifyAll(lookup, leagueStart, InWindow(events, leagueStart))
  {
    if |events| > 0 {
      var init := events[..|events| - 1];
      var last := events[|events| - 1];
      EarlyEventsIgnored(lookup, leagueStart, init);
      assert events == init + [last];
      if !BeforeLeague(last.dt, leagueStart) {
        var w := InWindow(init, leagueStart) + [last];
        assert w[..|w| - 1] == InWindow(init, leagueStart);
      } else {
        assert InWindow(events, leagueStart) == InWindow(init, leagueStart);
      }
    }
  }

  /** Only trades (15) and achievements (26) matter: dropping every other event,
      login bonuses (22) included, changes nothing. */
  lemma {:induction false} OnlyTradesAndAchievementsCount(lookup: RewardLookup, leagueStart: string, events: seq<Event>)
    ensures ClassifyAll(lookup, leagueStart, events) == ClassifyAll(lookup, leagueStart, Recognised(events))
  {
    if |events| > 0 {
      var init := events[..|events| - 1];
      var last := events[|events| - 1];
      OnlyTradesAndAchievementsCount(lookup, leagueStart, init);
      if last.t == TradeCode || last.t == AchievementCode {
        var w := Recognised(init) + [last];
        assert w[..|w| - 1] == Recognised(init);
      } else {
        assert Recognised(events) == Recognised(init);
      }
    }
  }
}
