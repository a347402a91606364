/** Worked examples of the builder on small concrete inputs. */
module Scenarios {
  import opened Wrappers
  import opened Ledger
  import opened Activity
  import CivilDate
  import Digits
  import Lex
  import Classify
  import Synthesis
  import Directory
  import opened Builder

  /** A reward lookup that always fails, and a fixed achievement description. */
  const NoRewards: Classify.RewardLookup := (t: Option<int>) => None
  const Plain: (int, nat) -> string := (total: int, n: nat) => "Achievement bonus"

  /** League starting 2025-12-22, "now" on 2025-12-24 (three bonus days), start
      budget 50,000,000. */
  const League := Config(50_000_000, "2025-12-22", 3, NoRewards, Plain)

  /** Alice buys player X from the market for 1,000,000 on 2025-12-23. */
  const AliceBuys := Event(TradeCode, "2025-12-23T10:00:00Z", Payload(Some("Alice"), None, Some("X"), Some(1_000_000), None))

  const AliceOnly: Directory.IdMap := [("1", "Alice")]

  lemma LeagueStartParses()
    ensures CivilDate.Parse("2025-12-22") == Some(CivilDate.Date(2025, 12, 22))
  {
    var s := "2025-12-22";
    assert s[..4] == "2025";
    assert s[5..] == "12-22";
    assert Digits.Value("2025") == 2025 by {
      assert "2025"[..3] == "202" && "202"[..2] == "20" && "20"[..1] == "2" && "2"[..0] == "";
    }
    assert CivilDate.MatchMonth("12-22") == Some((12, "-22"));
    assert "-22"[1..] == "22";
    assert CivilDate.MatchDay("22") == Some((22, ""));
  }

  lemma LeagueDates()
    ensures Dates(League).Some?
  {
    LeagueStartParses();
    var start := CivilDate.Date(2025, 12, 22);
    assert CivilDate.ToOrdinal(start) + 2 <= CivilDate.MaxOrdinal;
    Synthesis.BonusDatesOverflow(start, 3);
  }

  lemma AliceBuysInWindow()
    ensures !Classify.BeforeLeague(AliceBuys.dt, "2025-12-22")
  {
    var d: string := "2025-12-23T10:00:00Z";
    assert Lex.Take(d, 10) == "2025-12-23";
    var a: string := "2025-12-23";
    var b: string := "2025-12-22";
    assert a == "2025-12-2" + "3" && b == "2025-12-2" + "2";
    Lex.CommonPrefix("2025-12-2", "2", "3");
    Lex.Asymmetric(b, a);
  }

  lemma AliceTrades()
    ensures Loop(League, [AliceBuys]).achievementTotal == 0
    ensures Trades(League, [AliceBuys], "Alice") == [Classify.BuyEntry(AliceBuys.dt, AliceBuys.data)]
  {
    AliceBuysInWindow();
    var feed := [AliceBuys];
    assert feed[..0] == [];
    assert Classify.ClassifyAll(NoRewards, "2025-12-22", feed[..0]) == Classify.Empty;
    assert Classify.ClassifyAll(NoRewards, "2025-12-22", feed)
      == Classify.Step(NoRewards, "2025-12-22", Classify.ClassifyAll(NoRewards, "2025-12-22", feed[..0]), AliceBuys);
    Classify.BoughtFromMarket(NoRewards, "2025-12-22", Classify.Empty, AliceBuys);
  }

  /** The worked example: Alice's ledger has the start entry, three daily bonuses and
      the purchase, and ends at 50,000,000 + 3 * 100,000 - 1,000,000. */
  lemma AliceScenario()
    ensures Build(League, [AliceBuys], AliceOnly).Some?
    ensures "Alice" in Build(League, [AliceBuys], AliceOnly).value
    ensures |Build(League, [AliceBuys], AliceOnly).value["Alice"]| == 5
    ensures var p := Build(League, [AliceBuys], AliceOnly).value["Alice"];
      p[|p| - 1].saldo == 49_300_000
  {
    LeagueStartParses();
    LeagueDates();
    AliceTrades();
    var names := Directory.Names(AliceOnly);
    assert names == ["Alice"];
    assert names[..0] == [];
    assert Synthesis.Occurrences(names, "Alice") == 1;
    CollectContents(League, [AliceBuys], AliceOnly, "Alice");
    LedgerLength(League, [AliceBuys], AliceOnly, "Alice");
    FinalBalance(League, [AliceBuys], AliceOnly, "Alice");
  }

  /** The same trade dated a day before the league start. */
  const AliceBuysEarly := Event(TradeCode, "2025-12-21T10:00:00Z", Payload(Some("Alice"), None, Some("X"), Some(1_000_000), None))

  lemma AliceBuysEarlyBeforeWindow()
    ensures Classify.BeforeLeague(AliceBuysEarly.dt, "2025-12-22")
  {
    var d: string := "2025-12-21T10:00:00Z";
    assert Lex.Take(d, 10) == "2025-12-21";
    var a: string := "2025-12-21";
    assert a == "2025-12-2" + "1" && "2025-12-22" == "2025-12-2" + "2";
    Lex.CommonPrefix("2025-12-2", "1", "2");
  }

  /** A trade dated before the league start leaves Alice's ledger as it was. */
  lemma EarlyTradeScenario()
    ensures Build(League, [AliceBuys, AliceBuysEarly], AliceOnly) == Build(League, [AliceBuys], AliceOnly)
  {
    AliceBuysEarlyBeforeWindow();
    assert [AliceBuys, AliceBuysEarly] == [AliceBuys] + [AliceBuysEarly];
    EarlyEventIgnored(League, [AliceBuys], AliceBuysEarly, AliceOnly);
  }

  /** Two managers with different ids and the same display name. */
  const TwoBobs := [("Bob", "1"), ("Bob", "2")]

  lemma TwoBobsDirectory()
    ensures Directory.UserIdMap(TwoBobs) == [("1", "Bob"), ("2", "Bob")]
  {
    var one := TwoBobs[..1];
    assert one[..0] == [];
    assert Directory.UserIdMap(one) == [("1", "Bob")];
    assert "1" != "2" by { assert "1"[0] != "2"[0]; }
    var d := [("1", "Bob")];
    assert d[1..] == [];
    assert Directory.Put(d, "2", "Bob") == [("1", "Bob")] + Directory.Put([], "2", "Bob");
  }

  lemma BobTwice()
    ensures Synthesis.Occurrences(Directory.Names([("1", "Bob"), ("2", "Bob")]), "Bob") == 2
  {
    var d := [("1", "Bob"), ("2", "Bob")];
    assert d[1..] == [("2", "Bob")] && d[1..][1..] == [];
    var names := Directory.Names(d);
    assert names == ["Bob", "Bob"];
    assert names[..1] == ["Bob"] && names[..1][..0] == [];
  }

  /** Both ids stay in the directory, so `num_users` is 2 and Bob's one ledger
      receives the start entry and the daily bonuses twice. */
  lemma SharedNameScenario()
    ensures Directory.UserIdMap(TwoBobs) == [("1", "Bob"), ("2", "Bob")]
    ensures Build(League, [], Directory.UserIdMap(TwoBobs)).Some?
    ensures "Bob" in Build(League, [], Directory.UserIdMap(TwoBobs)).value
    ensures Count(Entries(Build(League, [], Directory.UserIdMap(TwoBobs)).value["Bob"]), Start) == 2
    ensures Count(Entries(Build(League, [], Directory.UserIdMap(TwoBobs)).value["Bob"]), LoginBonus) == 6
  {
    TwoBobsDirectory();
    var directory := Directory.UserIdMap(TwoBobs);
    LeagueStartParses();
    LeagueDates();
    BobTwice();
    CollectContents(League, [], directory, "Bob");
    SyntheticCounts(League, [], directory, "Bob");
  }

  /** A later entry for the same id replaces the earlier name and keeps its place. */
  lemma RenamedManagerScenario()
    ensures Directory.UserIdMap([("Alice", "1"), ("Bob", "2"), ("Alicia", "1")]) == [("1", "Alicia"), ("2", "Bob")]
  {
    var m := [("Alice", "1"), ("Bob", "2"), ("Alicia", "1")];
    var two := m[..2];
    assert two == [("Alice", "1"), ("Bob", "2")];
    assert two[..1] == [("Alice", "1")] && two[..1][..0] == [];
    assert "1" != "2" by { assert "1"[0] != "2"[0]; }
    var d := [("1", "Alice")];
    assert Directory.UserIdMap(two[..1]) == d;
    assert d[1..] == [];
    assert Directory.Put(d, "2", "Bob") == [("1", "Alice")] + Directory.Put([], "2", "Bob");
    assert Directory.UserIdMap(two) == [("1", "Alice"), ("2", "Bob")];
    var e := [("1", "Alice"), ("2", "Bob")];
    assert e[1..] == [("2", "Bob")];
    assert Directory.Put(e, "1", "Alicia") == [("1", "Alicia")] + e[1..];
  }
}
