# Kickbase transaction history — a Dafny model

This project models the core of a small exporter for Kickbase fantasy-football leagues.
The core is `build_user_transactions` in `export_transactions.py`, together with
`get_user_id_map` (the manager list turned into a map from user id to display name).

Given a league's activity feed, `build_user_transactions` builds a per-manager ledger in
six steps:

1. It drops every event whose date (`dt[:10]`) sorts before the league start date.
2. It books each trade (type 15):
   - a buy entry for the buyer and a sell entry for the seller;
   - the descriptions name the counterparty, or "(market)" when there is none.
3. It ignores login-bonus events (type 22).
4. It adds up the rewards of achievements (type 26). The reward lookup may fail, and a
   failed lookup is skipped.
5. For every display name in the directory it appends:
   - a starting-budget entry;
   - one 100,000 login bonus per day since the league start;
   - an equal integer share of the achievement total, when that share is positive.
6. It sorts each ledger stably by date string and attaches a running balance ("saldo").

## How the model is built

- **Modules follow the program's structure:**
  - `Lex`: Python string order.
  - `Digits`, `CivilDate`: `strptime`/`strftime` with `%Y-%m-%d`, and date arithmetic.
  - `Activity`, `Ledger`: events, entries, sums and counts.
  - `StableSort`: `list.sort` on the date key.
  - `Balance`: running balances.
  - `Classify`: the event loop, lines 36-85.
  - `Synthesis`: the synthetic entries, lines 87-133.
  - `Directory`: `get_user_id_map`.
  - `Builder`: the whole function.
  - `Scenarios`: worked examples.
- **Inputs that are not data become parameters:**
  - The clock becomes `daysSinceStart`, the value computed on line 99.
  - `get_achievement_reward` becomes a total function `Option<int> -> Option<(int, int)>`. `None` stands for the exception that line 84 swallows.
  - The achievement description text becomes an opaque function of the total and the user count.
- **`Build` returns `None` exactly when the Python function raises.** This happens in two cases:
  - the league start date is rejected by `strptime`;
  - `date + timedelta` passes 9999-12-31 while the bonus dates are generated. This can only happen when the directory is non-empty.
- **Dates follow `datetime`, with the two differences listed under "## Left out" (ASCII digits only, four-digit years):**
  - proleptic Gregorian ordinals, where 9999-12-31 is day 3,652,059;
  - the lenient `strptime` alternatives `1[0-2]|0[1-9]|[1-9]` for the month and `3[01]|[12]\d|0[1-9]|[1-9]| [1-9]` for the day, where the first alternative that matches wins and trailing text is an error.
- **Ledger keys follow the code as written:**
  - Trade entries are keyed by the raw buyer and seller values.
  - Synthetic entries are keyed by display name.
  - When several ids share a display name, that ledger receives one synthetic block per id (`Synthesis.Repeat`). The achievement total is still divided by the number of ids.
- **A Python `dict` is an ordered association list (`Directory.IdMap`).** A later manager with the same id replaces the earlier name in place.

## Model

| member | source | states |
|---|---|---|
| Lex.Take | export_transactions.py:42 | `dt[:10]` is the first ten characters of the timestamp, or all of it when it is shorter |
| Lex.Irreflexive | export_transactions.py:137 | no date string sorts before itself |
| Lex.Asymmetric | export_transactions.py:137 | two date strings never sort before each other both ways |
| Lex.Total | export_transactions.py:137 | any two different strings are ordered one way or the other, so the sort key is a total order |
| Lex.Transitive | export_transactions.py:137 | the string order used as the sort key is transitive |
| Lex.CommonPrefix | export_transactions.py:42 | putting the same prefix on two strings keeps their order, which is how date strings compare field by field |
| Lex.EqualLengthHead | export_transactions.py:137 | of two strings whose equal-length heads differ, the one with the smaller head is smaller, whatever follows |
| Digits.PadValue | export_transactions.py:121 | the zero-padded rendering of a number below 10^width reads back as that number |
| Digits.PadMonotone | export_transactions.py:121 | zero-padded numbers of one width sort as strings in numeric order |
| Digits.DecimalValue | export_transactions.py:123 | the decimal rendering of `day + 1` reads back as the number |
| Digits.Decimal | export_transactions.py:123 | `str(n)` is a non-empty run of digits with no leading zero |
| CivilDate.OrdinalMonotone | export_transactions.py:119 | a calendar-earlier valid date has a smaller ordinal |
| CivilDate.OrdinalInjective | export_transactions.py:119 | two valid dates with the same ordinal are the same date |
| CivilDate.OrdinalBound | export_transactions.py:119 | every valid date lies between day 1 and 9999-12-31 |
| CivilDate.NextDay | export_transactions.py:119 | the following day fails only after 9999-12-31 and otherwise is a valid date one ordinal later |
| CivilDate.AddDays | export_transactions.py:119 | `date + timedelta(days=k)` succeeds iff the ordinal stays within 9999-12-31, and then lands exactly k ordinals later |
| CivilDate.Format | export_transactions.py:121 | `strftime("%Y-%m-%d")` of a valid date is ten characters long |
| CivilDate.FormatOrder | export_transactions.py:121 | formatted dates sort as strings in calendar order |
| CivilDate.Parse | export_transactions.py:97 | what `strptime` accepts is always a valid calendar date |
| CivilDate.MatchMonthPad | export_transactions.py:97 | the month pattern reads a zero-padded month back and leaves the rest of the string |
| CivilDate.MatchDayPad | export_transactions.py:97 | the day pattern reads a zero-padded day back and consumes it entirely |
| CivilDate.ParseFormat | export_transactions.py:97 | parsing a formatted valid date gives that date back |
| CivilDate.FormatParse | export_transactions.py:97 | a ten-character string that parses, without a space-padded day, is the canonical rendering of its date |
| Ledger.SumConcat | export_transactions.py:139-142 | the amount total of two lists joined is the sum of their totals |
| Ledger.CountConcat | export_transactions.py:104-133 | the number of entries of a kind in two lists joined is the sum of their counts |
| Ledger.CountsAddUp | export_transactions.py:56-133 | every entry has exactly one of the five kinds |
| StableSort.InsertByDate | export_transactions.py:137 | inserting into a date-sorted list adds the entry to the multiset, keeps the list sorted, places it after every entry with an equal date, and adds its amount and kind count |
| StableSort.SortByDate | export_transactions.py:136-137 | the sorted list is a permutation of the input, ordered by date string, keeps the input order among equal dates, and keeps the total and the per-kind counts |
| StableSort.WithDateConcat | export_transactions.py:137 | the entries with a given date in two joined lists are those of the first followed by those of the second |
| Balance.PostFrom | export_transactions.py:139-142 | each posting carries its entry and the opening balance plus the amounts up to and including it |
| Balance.RunningBalances | export_transactions.py:139-142 | the postings keep the entries in order, the saldo at i is the sum of amounts 0..i, and the last saldo is the total |
| Balance.BalanceSteps | export_transactions.py:140-142 | the first saldo is the first amount and each later saldo is the previous one plus its own amount |
| Classify.Append | export_transactions.py:52-54 | appending under a key creates the key if missing and extends only that key's list |
| Classify.AppendAllLookup | export_transactions.py:51-69 | after a series of appends each key's list is its old list followed by the entries addressed to it, in order |
| Classify.TradePostings | export_transactions.py:45-69 | a trade produces one entry per truthy party, each dated with the event date and of kind buy or sell |
| Classify.AchievementReward | export_transactions.py:79-85 | the reward counted is `amount * reward` when the lookup succeeds with a positive product, and nothing otherwise |
| Classify.ClassifyAll | export_transactions.py:36-85 | the loop leaves a non-negative achievement total, and ledgers that are non-empty and hold only in-window trade entries |
| Classify.StepKeepsInvariant | export_transactions.py:36-85 | one event keeps the ledgers trade-only and non-empty, and never lowers the achievement total |
| Classify.TradeStep | export_transactions.py:45-69 | a trade leaves the achievement total alone and appends to each ledger exactly the trade entries addressed to it |
| Classify.TradeBetweenUsers | export_transactions.py:51-69 | a trade between two users appends "Bought … from seller" at minus the price (0 when missing) to the buyer and "Sold … to buyer" at the price to the seller; the amounts cancel and no other ledger changes |
| Classify.BoughtFromMarket | export_transactions.py:51-59 | a buy without a seller appends "Bought … (market)" at minus the price to the buyer only |
| Classify.SoldToMarket | export_transactions.py:61-69 | a sale without a buyer appends "Sold … (market)" at the price to the seller only |
| Classify.TradeWithoutParties | export_transactions.py:45-69 | a trade with neither party truthy changes nothing |
| Classify.AchievementStep | export_transactions.py:76-85 | an achievement adds its reward to the total and leaves every ledger alone; a failed lookup changes nothing |
| Classify.OtherEventStep | export_transactions.py:71-74 | login-bonus events and unknown types change nothing |
| Classify.EarlyEventsIgnored | export_transactions.py:41-43 | the loop gives the same result on the feed as on the feed without events dated before the league start |
| Classify.OnlyTradesAndAchievementsCount | export_transactions.py:45-85 | the loop gives the same result on the feed as on its trades and achievements alone |
| Synthesis.Share | export_transactions.py:91-93 | with users, the share is the floor of the total over the user count; without users it is 0; it is never negative for a non-negative total |
| Synthesis.BonusDates | export_transactions.py:118-121 | the bonus dates exist iff no `start + timedelta(day)` overflows, and then date i is the formatted start plus i days with time "T00:00:00Z" |
| Synthesis.BonusDatesOverflow | export_transactions.py:118-119 | generating the bonus dates fails iff some day in the range lands past 9999-12-31 |
| Synthesis.BonusDatesIncreasing | export_transactions.py:118-121 | later bonus dates sort strictly after earlier ones |
| Synthesis.FirstBonusDate | export_transactions.py:111-121 | for a canonically written start date, the first bonus has the same timestamp as the start entry |
| Synthesis.LoginBonuses | export_transactions.py:118-125 | one login bonus of 100,000 per bonus date, dated with that date, the i-th described as day i + 1 |
| Synthesis.BlockEntry | export_transactions.py:110-133 | a block's start entry is the starting budget dated at the league start, its bonuses are 100,000 on one of the bonus dates, and its achievement entry exists only for a positive share |
| Synthesis.BlockKinds | export_transactions.py:109-133 | the synthetic block holds only start, login-bonus and achievement-bonus entries |
| Synthesis.BlockTotals | export_transactions.py:109-133 | the block holds one start entry, one login bonus per day, one achievement entry iff the share is positive and no trades; its total is budget + days * 100,000 + positive share |
| Synthesis.RepeatCount | export_transactions.py:105-133 | a block added n times contributes n times its per-kind counts |
| Synthesis.RepeatSum | export_transactions.py:105-133 | a block added n times contributes n times its total |
| Synthesis.OccursWhenPresent | export_transactions.py:105 | a name receives blocks iff it occurs among the directory's names |
| Synthesis.AddBlocksLookup | export_transactions.py:105-133 | each name's ledger is its trade ledger followed by one block per directory entry carrying that name |
| Synthesis.AddBlocksKeys | export_transactions.py:105-107 | the ledgers afterwards are those of the trades plus every directory name |
| Synthesis.BlockStartDate | export_transactions.py:110-125 | in a block, the entries at the first bonus timestamp are the start entry followed by the day-1 bonus |
| Directory.Get | export_transactions.py:27 | a lookup succeeds iff the id is a key |
| Directory.Put | export_transactions.py:27 | assigning a key adds it at the end only if new, makes it map to the value and leaves every other key's value alone |
| Directory.UserIdMap | export_transactions.py:27 | the built map has distinct keys |
| Directory.UserIdMapGet | export_transactions.py:27 | each id maps to the name of the last manager listed with it, and an unlisted id maps to nothing |
| Directory.UserIdMapKeys | export_transactions.py:27 | the keys are the listed ids, each once, in the order of first appearance |
| Builder.Build | export_transactions.py:29-144 | the function fails exactly when collecting the entries fails, and otherwise returns one ledger per collected key |
| Builder.BuildFailure | export_transactions.py:97-121 | the function fails iff the start date does not parse, or the directory is non-empty and some bonus day overflows the calendar |
| Builder.CollectContents | export_transactions.py:104-133 | the collected keys are the trading parties plus the directory names, and each list is its trades followed by one synthetic block per directory entry with that name |
| Builder.LedgerIsSortedCollection | export_transactions.py:136-137 | each returned ledger's entries are the stable date sort of the collected list |
| Builder.LedgerSorted | export_transactions.py:136-137 | each returned ledger is a permutation of the collected entries, sorted by date, and keeps their order among equal dates |
| Builder.LedgerBalanced | export_transactions.py:139-142 | in each returned ledger every saldo is the sum of the amounts up to and including it |
| Builder.LedgerContents | export_transactions.py:104-137 | a ledger's entries are, as a multiset, the user's trades plus n copies of the synthetic block |
| Builder.SyntheticCounts | export_transactions.py:104-133 | a name listed n times gets n start entries, n * days login bonuses, and n achievement entries when the share is positive (otherwise none) |
| Builder.TradeCounts | export_transactions.py:45-69 | the buys and sells in a ledger are exactly those of the user's trades |
| Builder.TradesOnly | export_transactions.py:45-69 | the entries collected from the loop are in-window trades with no synthetic kinds |
| Builder.KeyOrigin | export_transactions.py:51-107 | every ledger belongs to a trading party or to a directory name |
| Builder.LedgerLength | export_transactions.py:104-133 | a ledger's length is its trades plus n starts, n * days bonuses and n achievement entries when the share is positive; a listed name gets at least 1 + days entries, and no ledger is empty |
| Builder.LedgerSum | export_transactions.py:104-142 | a ledger's total is its trades' total plus n times the synthetic block's total |
| Builder.FinalBalance | export_transactions.py:139-142 | the last saldo is the trades' total plus n * (start budget + days * 100,000 + positive share) |
| Builder.SyntheticEntries | export_transactions.py:104-133 | every non-trade entry of a ledger belongs to a listed name and is the starting budget, a 100,000 bonus on a bonus date, or the positive share dated at the league start plus two seconds |
| Builder.NoEarlyTrades | export_transactions.py:42-69 | every buy or sell in a ledger is an in-window trade of that user |
| Builder.EarlyEventIgnored | export_transactions.py:41-43 | appending an event dated before the league start does not change the result |
| Builder.BuildUsesOnlyWindow | export_transactions.py:41-43 | the result depends only on events dated on or after the league start |
| Builder.BuildUsesOnlyRecognised | export_transactions.py:45-85 | the result depends only on trades and achievements |
| Builder.StartBeforeFirstBonus | export_transactions.py:110-137 | for a canonical start date and at least one bonus day, the entries at the start timestamp are the trades at that timestamp, then n times the start entry followed by the day-1 bonus |
| Scenarios.AliceScenario | export_transactions.py:29-144 | Alice, with one market purchase of 1,000,000 in a three-day league with a budget of 50,000,000, gets five entries ending at 49,300,000 |
| Scenarios.EarlyTradeScenario | export_transactions.py:42-43 | the same purchase dated the day before the league start changes nothing |
| Scenarios.SharedNameScenario | export_transactions.py:105-125 | two ids named "Bob" give one ledger with two start entries and six login bonuses |
| Scenarios.RenamedManagerScenario | export_transactions.py:27 | a later manager with an earlier id replaces the name in place |

## Left out

- Network access, login and feed fetching (`get_activities`, `get_managers`, `get_league_id`) are left out. The directory and the feed are inputs.
- `str(uid)` on line 27 is not modelled: ids arrive as strings.
- `datetime.now()` on line 98 is not modelled. The number of bonus days (line 99) is an input, so a league start in the future is a non-positive count and gives no bonuses.
- `get_achievement_reward` is not modelled. It is a function parameter, and `None` stands for any exception it raises.
- The console output on lines 101-102 and `export_to_csv` (CSV files on disk) are left out.
- The `login_bonuses` and `achievements` lists are not kept. Nothing reads the first, and only the sum of the second is used. The model keeps that sum, and for type 22 it states only that nothing changes.
- The payload fields `bn` (login bonus) and `n` (achievement name) are left out because they feed only those lists.
- An event without a `dt`, or whose `dt` is not a string, makes line 42 raise a `TypeError`. This failure is not modelled: every event carries a string date.
- An event without a `t` reads as None (line 37), matches no type code and is skipped. The model covers this as an unknown type code (Classify.OtherEventStep).
- Prices are taken to be integers. A float `trp` passes through lines 58 and 141 in Python and makes the amounts and balances floats; the model has no such case.
- A `pn` key present with JSON null renders as "None" in Python. The model treats it as absent and uses "Unknown".
- CivilDate.Parse: accepts only ASCII digits, while Python's `strptime` `\d` also matches other Unicode decimal digits.
- CivilDate.Format: always pads the year to four digits. glibc's `strftime` prints years below 1000 without padding, so bonus dates for such years differ from the code.
- The achievement-bonus description (line 131) depends on Python's thousands-separator formatting. It is an opaque function parameter.
- Classify.TradeBetweenUsers: requires the buyer and the seller to differ. A self-trade appends both entries to one ledger, which only Classify.TradeStep states.
- The iteration order of the returned dictionary is not modelled. The result is a Dafny `map`.
