# MealMax battle engine and meal table, in Dafny

MealMax lets a caller register meals (a name, a cuisine, a price and a
difficulty of LOW, MED or HIGH), stage two of them as combatants and let them
battle. A battle scores each meal as `price * len(cuisine)` less a difficulty
penalty (3 for LOW, 2 for MED, 1 for HIGH). It combines the two scores with a
random draw to pick a winner, records a win and a loss in the meals table,
unstages the loser and returns the winner's name. The table soft-deletes
meals, keeps per-meal battle and win counters, and serves a leaderboard.

The repository's behaviour is known from its test suites
(`meal_max/tests/test_battle_model.py`, `meal_max/tests/test_kitchen_model.py`).
The model is of the behaviour of `meal_max/models/battle_model.py` and
`meal_max/models/kitchen_model.py`, but their text is not available to it.
Every contract below states what a test asserts, or what follows from it, or a
modelling choice listed under "Left out".

Modules:

- `Wrappers` (wrappers.dfy): `Result` and `Outcome`, standing for a raised
  `ValueError`.
- `Kitchen` (kitchen.dfy): `Meal`, `MealRow`, `Difficulty` and the error kinds.
  Also every table operation as a pure function from one table to the next
  (`CreateMeal`, `DeleteMeal`, `UpdateMealStats`, `RecordBattle`), the lookups,
  and the leaderboard.
- `Store` (store.dfy): class `MealStore`, the table as mutable state. Its
  methods update rows in place and are proved against the `Kitchen` functions.
- `Battle` (battle.dfy): the score function, the winner split, and class
  `BattleModel` with its `combatants` list (at most two meals).
- `Scenarios` (scenarios.dfy): each test's setup replayed against the
  contracts, with the test's assertions as postconditions.

The table is the sequence of all rows ever created. The store gives out ids
1, 2, 3, … in creation order, and a delete only sets a flag, so the row with
id `k` sits at position `k - 1` (`Kitchen.WellFormed`, kept by every update).

Errors are datatype constructors carrying what their messages quote. For
example, `IdDeleted(1)` stands for "Meal with ID 1 has been deleted",
`CombatantListFull` for "Combatant list is full, cannot add more combatants."
and `NotEnoughCombatants` for "Two combatants must be prepped for a battle.".

The random draw is a `real` parameter of `BattleModel.Battle`. The rule that
turns the two scores and the draw into "the first meal wins" is a function
parameter of type `WinRule`. The only thing the tests fix about that rule is
that at scores 173 and 239 with a draw of 0.1 the first meal (Spaghetti) wins.
`Scenarios.SpaghettiBeatsSushi` assumes exactly that about it.

## Model

| member | source | states |
|---|---|---|
| `Kitchen.ParseDifficulty` | meal_max/tests/test_kitchen_model.py:81-85 | a difficulty is accepted iff it is "LOW", "MED" or "HIGH", and the accepted level prints back as the same text |
| `Kitchen.IndexOfName` | meal_max/tests/test_kitchen_model.py:224 | finds the first row with the name, and finds nothing exactly when no row has it |
| `Kitchen.CreateMeal` | meal_max/tests/test_kitchen_model.py:46-85 | a non-positive price is refused first, then an unknown difficulty, then a name already in the table; it succeeds iff none applies, appends one row with zero battles and wins under id `n + 1` and keeps the table well-formed |
| `Kitchen.GetMealById` | meal_max/tests/test_kitchen_model.py:162-205 | a missing id gives "not found", a deleted row gives "has been deleted", and it succeeds iff the row exists and is live, returning that row's meal |
| `Kitchen.GetMealByName` | meal_max/tests/test_kitchen_model.py:209-252 | "not found" exactly when no row carries the name; a success returns a live row with that name; any other failure is "has been deleted" for a deleted row with that name |
| `Kitchen.LookupsAgree` | meal_max/tests/test_kitchen_model.py:162-252 | on a well-formed table, looking a row up by id and by its name succeed together, return the same meal, and report deletion together |
| `Kitchen.DeleteMeal` | meal_max/tests/test_kitchen_model.py:106-147 | a missing id gives "not found" and a deleted row "has been deleted"; otherwise only that row's deleted flag becomes true and every other row is unchanged |
| `Kitchen.DeletedStaysDeleted` | meal_max/tests/test_kitchen_model.py:139-147 | after a delete, the meal's id and name lookups, a second delete and a stats update all report "has been deleted", and lookups of every other id are unchanged |
| `Kitchen.UpdateMealStats` | meal_max/tests/test_kitchen_model.py:292-372 | a missing or deleted meal is refused, then any result other than "win" or "loss"; "win" adds one battle and one win, "loss" one battle only; no other field or row changes, and wins never exceed battles |
| `Kitchen.TotalsAfterReplace` | meal_max/tests/test_kitchen_model.py:303-330 | replacing one row changes the table's total battles and wins by exactly that row's difference |
| `Kitchen.RecordBattle` | meal_max/tests/test_battle_model.py:62-67 | the commit after a battle succeeds iff both winner and loser look up as live meals, and otherwise fails with the first lookup error, changing nothing; on success the winner's row gains one battle and one win, the loser's row one battle (one row fighting itself gains two battles and one win), every other row is unchanged, the table keeps its length and stays well formed |
| `Kitchen.RecordBattleCounts` | meal_max/tests/test_kitchen_model.py:303-330 | a committed battle adds exactly two battles and one win to the table and leaves every row other than the two participants unchanged |
| `Kitchen.Standings` | meal_max/tests/test_kitchen_model.py:271-273 | an entry is listed iff it comes from a non-deleted row with at least one battle |
| `Kitchen.StandingsInOrder` | meal_max/tests/test_kitchen_model.py:255-283 | when the table's ids increase, so do the ids of its standings |
| `Kitchen.ParseSortBy` | meal_max/tests/test_kitchen_model.py:279-283 | "wins" and "win_pct" are the two orderings; every other text is refused |
| `Kitchen.InsertDesc` | meal_max/tests/test_kitchen_model.py:273 | inserting into a descending list keeps it descending and adds exactly the one entry |
| `Kitchen.SortDesc` | meal_max/tests/test_kitchen_model.py:273 | the result is in descending key order and is a permutation of the input |
| `Kitchen.StandingsOnce` | meal_max/tests/test_kitchen_model.py:255-283 | any rearrangement of the standings of a well-formed table has no two entries with the same id |
| `Kitchen.GetLeaderboard` | meal_max/tests/test_kitchen_model.py:255-283 | an unknown sort key is refused; otherwise the board is a permutation of the live rows that have fought, no two entries sharing an id on a well-formed table, in descending order of the key, each with `win_pct = wins / battles * 100` |
| `Kitchen.WinPctInRange` | meal_max/tests/test_kitchen_model.py:264-267 | on a well-formed table every leaderboard percentage is between 0 and 100 |
| `Store.MealStore.CreateMeal` | meal_max/tests/test_kitchen_model.py:46-85 | the store's insert raises what `Kitchen.CreateMeal` returns and leaves the table it computes, or the old table on error |
| `Store.MealStore.DeleteMeal` | meal_max/tests/test_kitchen_model.py:106-147 | the store's soft delete raises what `Kitchen.DeleteMeal` returns and leaves the table it computes, or the old table on error |
| `Store.MealStore.UpdateMealStats` | meal_max/tests/test_kitchen_model.py:292-372 | the store's in-place counter update raises what `Kitchen.UpdateMealStats` returns and leaves the table it computes, or the old table on error |
| `Battle.ScoreByDifficulty` | meal_max/tests/test_battle_model.py:74-90 | a meal scores its price times the length of its cuisine, less 3 for LOW, 2 for MED and 1 for HIGH |
| `Battle.HarderScoresHigher` | meal_max/tests/test_battle_model.py:74-90 | at equal price and cuisine, MED scores one more than LOW and HIGH one more than MED (penalties 3, 2, 1) |
| `Battle.DearerScoresHigher` | meal_max/tests/test_battle_model.py:74-90 | at equal cuisine and difficulty, a higher price gives a higher score when the cuisine name is non-empty |
| `Battle.Decide` | meal_max/tests/test_battle_model.py:57-64 | the winner and loser are the two staged meals, one each; the first wins exactly when the rule says so for the two scores and the draw |
| `Battle.RemoveFirst` | meal_max/tests/test_battle_model.py:65-66 | removing a present meal drops exactly one copy of it; removing an absent one changes nothing |
| `Battle.RemoveFirstOccurrence` | meal_max/tests/test_battle_model.py:65-66 | the copy removed is the first one, and the meals before and after it keep their order |
| `Battle.BattleModel.constructor` | meal_max/tests/test_battle_model.py:7-10 | a new engine has no combatants |
| `Battle.BattleModel.PrepCombatant` | meal_max/tests/test_battle_model.py:32-43 | with two meals staged it fails with "Combatant list is full" and changes nothing; otherwise it appends the meal; at most two are ever staged |
| `Battle.BattleModel.GetCombatants` | meal_max/tests/test_battle_model.py:96-103 | returns the staged meals in staging order, as a value |
| `Battle.BattleModel.ClearCombatants` | meal_max/tests/test_battle_model.py:105-110 | leaves no combatant staged |
| `Battle.BattleModel.Battle` | meal_max/tests/test_battle_model.py:49-66 | with fewer than two staged it fails with "Two combatants must be prepped" and changes nothing; if the commit fails nothing changes; otherwise only the winner stays staged, the table is the committed one and the winner's name is returned |
| `Scenarios.SampleScores` | meal_max/tests/test_battle_model.py:74-90 | Hamburger scores 10·8−3, Spaghetti 25·7−2 and Sushi 30·8−1 |
| `Scenarios.PrepOne` | meal_max/tests/test_battle_model.py:32-36 | staging one meal on a new engine stages exactly that meal |
| `Scenarios.PrepThird` | meal_max/tests/test_battle_model.py:38-43 | a third meal is refused with "Combatant list is full" and the first two stay staged in order |
| `Scenarios.BattleUnprepared` | meal_max/tests/test_battle_model.py:49-52 | a battle with nothing staged fails with "Two combatants must be prepped for a battle." |
| `Scenarios.BattleWithOne` | meal_max/tests/test_battle_model.py:49-52 | a battle with one meal staged fails the same way and the meal stays staged |
| `Scenarios.SpaghettiBeatsSushi` | meal_max/tests/test_battle_model.py:54-66 | with a draw of 0.1 and a rule that favours the first meal at scores 173 and 239, the winner is "Spaghetti", one combatant (Spaghetti) remains, and the table shows one battle and one win for Spaghetti and one battle for Sushi |
| `Scenarios.SampleCommit` | meal_max/tests/test_battle_model.py:62-67 | committing Spaghetti's win over Sushi to the table of the two sample meals succeeds, giving Spaghetti one battle and one win and Sushi one battle |
| `Scenarios.CombatantsInOrder` | meal_max/tests/test_battle_model.py:96-103 | two staged meals come back in staging order |
| `Scenarios.ClearAfterPrep` | meal_max/tests/test_battle_model.py:105-110 | clearing after staging two meals leaves the list empty |
| `Scenarios.CreateAndRefuse` | meal_max/tests/test_kitchen_model.py:46-85 | Pizza is created once; a duplicate name, the price -100.2 and the difficulty "OTHER" are refused with their errors and the table keeps one row |
| `Scenarios.DeleteTwice` | meal_max/tests/test_kitchen_model.py:106-147 | the first delete of meal 1 succeeds, a second reports "has been deleted", and id 999 reports "not found" |
| `Scenarios.StatsUpdates` | meal_max/tests/test_kitchen_model.py:292-372 | a win then a loss leave 2 battles and 1 win; "invalid result" is refused; after deletion a win is refused with "has been deleted" |
| `Scenarios.LeaderboardByWins` | meal_max/tests/test_kitchen_model.py:255-269 | Meal A (10 battles, 8 wins) and Meal B (5, 3) come out in that order with percentages 80 and 60 |
| `Scenarios.LookupPizza` | meal_max/tests/test_kitchen_model.py:162-252 | Pizza is found by id 1 and by name; id 999 and name "bla" are not found; once deleted, both lookups report "has been deleted" |

## Left out

- `clear_meals` (meal_max/tests/test_kitchen_model.py:89-102): it reads a table definition from a file named by an environment variable and runs it as a script. That is file and database I/O.
- SQL text, cursors, connections and commits: the table is modelled as a value, not as queries.
- The random source (meal_max/tests/test_random_utils.py): an HTTP request with a timeout, transport errors and float parsing of the reply. The draw is a parameter of `BattleModel.Battle`.
- Battle.Decide: the rule that maps the two scores and the draw to a winner is a parameter. The model does not fix its formula (a logistic or threshold function of the score gap, in floating point); only the data point of meal_max/tests/test_battle_model.py:57-64 constrains it.
- Prices, scores and win percentages are exact `real` numbers. Floating-point rounding, and any rounding of the leaderboard percentage to one decimal, is not modelled.
- The key of the uniqueness constraint is a modelling choice. The mocked database error in meal_max/tests/test_kitchen_model.py:66 names four columns (meal, cuisine, price, difficulty). The message the test expects at line 69 names only the meal, and lookups by name (lines 209-252) assume at most one row per name. The model follows the name-only reading: `CreateMeal` refuses any name already in the table, deleted rows included. A constraint on all four columns would let two meals share a name when they differ in cuisine, price or difficulty; that case is not modelled.
- Kitchen.CreateMeal: for a non-positive price AND an unknown difficulty, the model reports the price error. The tests at meal_max/tests/test_kitchen_model.py:74-78 and :81-85 each have one bad field, so they fix no order for that combination.
- Kitchen.ParseSortBy: the key "win_pct" is accepted as the second ordering. No test passes it; it comes from the docstring at meal_max/tests/test_kitchen_model.py:157 and the `win_pct` alias in the leaderboard query at :272. `Kitchen.GetLeaderboard` inherits that choice.
- Kitchen.UpdateMealStats: for a meal that is missing or deleted AND an unknown result, the model reports the meal error. The tests fix no order for that combination.
- Battle.BattleModel.Battle: the commit checks both participants before updating either, so a failed battle changes nothing. The tests do not show what happens when the store rejects a participant.
- Battle.BattleModel.GetCombatants: Python returns the engine's own list, which a caller could mutate. Here the staged meals are returned as an immutable value.
- Runtime type checks, such as a price that is not a number, are ruled out by the types.
- The assertion `winner.id == 'win'` at meal_max/tests/test_battle_model.py:68 is not modelled. The winner is the string checked at line 64, which has no `id`.
- The fixture at meal_max/tests/test_battle_model.py:8 is named `create_battle_model`, but the tests ask for `battle_model`. The model gives each scenario a new engine.
- The test at meal_max/tests/test_kitchen_model.py:356-363 is titled as a stats-update test but calls `delete_meal`. It is covered by `Kitchen.DeleteMeal`. A stats update of a missing meal is covered by `Kitchen.UpdateMealStats`.
- The comments at meal_max/tests/test_battle_model.py:75-77 call the Hamburger fixture MED, but it is LOW, and the penalty used there is 3. The model follows the code: LOW 3, MED 2, HIGH 1.
- Everything under `wildlife_tracker/`: every body there is `pass`, so there is no behaviour to model.
