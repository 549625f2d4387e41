/**
 * The situations the test suites set up, replayed as client code against the
 * contracts of the store and the battle engine. Each member's postcondition
 * is what the corresponding test asserts.
 */
module Scenarios {
  import opened Wrappers
  import opened Kitchen
  import opened Store
  import opened Battle

  const Spaghetti := Meal(1, "Spaghetti", "Italian", 25.0, MED)
  const Sushi := Meal(2, "Sushi", "Japanese", 30.0, HIGH)
  const Hamburger := Meal(3, "Hamburger", "American", 10.0, LOW)

  /** The scores of the three sample meals. */
  lemma SampleScores()
    ensures BattleScore(Hamburger) == 10.0 * 8.0 - 3.0 == 77.0
    ensures BattleScore(Spaghetti) == 25.0 * 7.0 - 2.0 == 173.0
    ensures BattleScore(Sushi) == 30.0 * 8.0 - 1.0 == 239.0
  {
  }

  /** Staging one meal on a new engine stages exactly that meal. */
  method PrepOne(m: Meal) returns (staged: seq<Meal>)
    ensures staged == [m]
  {
    var engine := new BattleModel();
    var r := engine.PrepCombatant(m);
    staged := engine.GetCombatants();
  }

  /** A third meal is refused and the first two stay staged, in order. */
  method PrepThird(a: Meal, b: Meal, c: Meal) returns (r: Outcome<BattleError>, staged: seq<Meal>)
    ensures r == Fail(CombatantListFull)
    ensures staged == [a, b]
  {
    var engine := new BattleModel();
    var ra := engine.PrepCombatant(a);
    var rb := engine.PrepCombatant(b);
    r := engine.PrepCombatant(c);
    staged := engine.GetCombatants();
  }

  /** A battle with nothing staged is refused. */
  method BattleUnprepared(draw: real, firstWins: WinRule) returns (r: Result<string, BattleError>)
    ensures r == Failure(NotEnoughCombatants)
  {
    var store := new MealStore();
    var engine := new BattleModel();
    r := engine.Battle(store, draw, firstWins);
  }

  /** A battle with one meal staged is refused as well, and the meal stays staged. */
  method BattleWithOne(m: Meal, draw: real, firstWins: WinRule)
    returns (r: Result<string, BattleError>, staged: seq<Meal>)
    ensures r == Failure(NotEnoughCombatants)
    ensures staged == [m]
  {
    var store := new MealStore();
    var engine := new BattleModel();
    var rp := engine.PrepCombatant(m);
    r := engine.Battle(store, draw, firstWins);
    staged := engine.GetCombatants();
  }

  /** The table after creating Spaghetti and then Sushi. */
  const SampleRows := [MealRow(1, "Spaghetti", "Italian", 25.0, MED, 0, 0, false),
                       MealRow(2, "Sushi", "Japanese", 30.0, HIGH, 0, 0, false)]

  /** A new store holding Spaghetti and Sushi, created in that order. */
  method SampleStore() returns (store: MealStore)
    ensures fresh(store) && store.Valid() && store.rows == SampleRows
  {
    store := new MealStore();
    var c1 := store.CreateMeal("Spaghetti", "Italian", 25.0, "MED");
    assert store.rows == SampleRows[..1];
    var c2 := store.CreateMeal("Sushi", "Japanese", 30.0, "HIGH");
  }

  /** Committing Spaghetti's win over Sushi to the sample table. */
  lemma SampleCommit()
    ensures var t := RecordBattle(SampleRows, 1, 2);
            && t.Success? && |t.value| == 2
            && t.value[0].battles == 1 && t.value[0].wins == 1
            && t.value[1].battles == 1 && t.value[1].wins == 0
  {
    assert GetMealById(SampleRows, 1).Success? && GetMealById(SampleRows, 2).Success?;
  }

  /**
   * Spaghetti against Sushi with a draw of 0.1: under any rule that lets the
   * first meal win at these scores and this draw, Spaghetti wins, Sushi is
   * unstaged, and each meal has fought once with one win for Spaghetti.
   */
  method SpaghettiBeatsSushi(firstWins: WinRule)
    returns (winner: Result<string, BattleError>, staged: seq<Meal>, rows: Table)
    requires firstWins(173.0, 239.0, 0.1)
    ensures winner == Success("Spaghetti")
    ensures staged == [Spaghetti]
    ensures |rows| == 2
    ensures rows[0].battles == 1 && rows[0].wins == 1
    ensures rows[1].battles == 1 && rows[1].wins == 0
  {
    var store := SampleStore();
    var engine := new BattleModel();
    var p1 := engine.PrepCombatant(Spaghetti);
    var p2 := engine.PrepCombatant(Sushi);
    SampleScores();
    assert Decide(Spaghetti, Sushi, 0.1, firstWins) == Pairing(Spaghetti, Sushi);
    SampleCommit();
    winner := engine.Battle(store, 0.1, firstWins);
    staged := engine.GetCombatants();
    rows := store.rows;
  }

  /** Staged meals come back in staging order. */
  method CombatantsInOrder(a: Meal, b: Meal) returns (staged: seq<Meal>)
    ensures |staged| == 2 && staged[0] == a && staged[1] == b
  {
    var engine := new BattleModel();
    var ra := engine.PrepCombatant(a);
    var rb := engine.PrepCombatant(b);
    staged := engine.GetCombatants();
  }

  /** Clearing after staging two meals leaves none staged. */
  method ClearAfterPrep(a: Meal, b: Meal) returns (staged: seq<Meal>)
    ensures staged == []
  {
    var engine := new BattleModel();
    var ra := engine.PrepCombatant(a);
    var rb := engine.PrepCombatant(b);
    engine.ClearCombatants();
    staged := engine.GetCombatants();
  }

  /**
   * Pizza is created once; a second Pizza, a negative price and an unknown
   * difficulty are each refused and leave the table as it was.
   */
  method CreateAndRefuse() returns (dup: Outcome<KitchenError>, neg: Outcome<KitchenError>,
                                    odd: Outcome<KitchenError>, rows: Table)
    ensures dup == Fail(DuplicateName("Pizza"))
    ensures neg == Fail(InvalidPrice(-100.2))
    ensures odd == Fail(InvalidDifficulty("OTHER"))
    ensures rows == [MealRow(1, "Pizza", "Italian", 12.0, LOW, 0, 0, false)]
  {
    var store := new MealStore();
    var ok := store.CreateMeal("Pizza", "Italian", 12.0, "LOW");
    dup := store.CreateMeal("Pizza", "Italian", 12.2, "LOW");
    neg := store.CreateMeal("Pizza", "Italian", -100.2, "LOW");
    odd := store.CreateMeal("Pizza", "Italian", 10.2, "OTHER");
    rows := store.rows;
  }

  /**
   * Deleting meal 1 succeeds once; deleting it again, or a meal that was never
   * created, is refused.
   */
  method DeleteTwice() returns (first: Outcome<KitchenError>, again: Outcome<KitchenError>,
                                missing: Outcome<KitchenError>)
    ensures first == Pass
    ensures again == Fail(IdDeleted(1))
    ensures missing == Fail(IdNotFound(999))
  {
    var store := new MealStore();
    var ok := store.CreateMeal("Pizza", "Italian", 12.0, "LOW");
    first := store.DeleteMeal(1);
    again := store.DeleteMeal(1);
    missing := store.DeleteMeal(999);
  }

  /**
   * A win adds a battle and a win, a loss only a battle; an unknown result
   * and a deleted meal are refused.
   */
  method StatsUpdates() returns (invalid: Outcome<KitchenError>, gone: Outcome<KitchenError>,
                                 rows: Table)
    ensures invalid == Fail(InvalidResult("invalid result"))
    ensures gone == Fail(IdDeleted(1))
    ensures |rows| == 1 && rows[0].battles == 2 && rows[0].wins == 1 && rows[0].deleted
  {
    var store := new MealStore();
    var ok := store.CreateMeal("Pizza", "Italian", 12.0, "LOW");
    var won := store.UpdateMealStats(1, "win");
    var lost := store.UpdateMealStats(1, "loss");
    invalid := store.UpdateMealStats(1, "invalid result");
    var del := store.DeleteMeal(1);
    gone := store.UpdateMealStats(1, "win");
    rows := store.rows;
  }

  /** The two-meal leaderboard sorted by wins, with percentages 80 and 60. */
  lemma LeaderboardByWins()
    ensures GetLeaderboard([MealRow(1, "Meal A", "Italian", 15.0, MED, 10, 8, false),
                            MealRow(2, "Meal B", "Chinese", 12.0, LOW, 5, 3, false)], "wins")
            == Success([LeaderboardEntry(1, "Meal A", "Italian", 15.0, MED, 10, 8, 80.0),
                        LeaderboardEntry(2, "Meal B", "Chinese", 12.0, LOW, 5, 3, 60.0)])
  {
    var rows := [MealRow(1, "Meal A", "Italian", 15.0, MED, 10, 8, false),
                 MealRow(2, "Meal B", "Chinese", 12.0, LOW, 5, 3, false)];
    assert rows[1..][1..] == [];
    assert Standings(rows) == [Entry(rows[0]), Entry(rows[1])];
  }

  /** Lookups by id and by name of an existing, a missing and a deleted meal. */
  lemma LookupPizza()
    ensures var rows := [MealRow(1, "Pizza", "Italian", 12.0, LOW, 0, 0, false)];
            && GetMealById(rows, 1) == Success(Meal(1, "Pizza", "Italian", 12.0, LOW))
            && GetMealByName(rows, "Pizza") == Success(Meal(1, "Pizza", "Italian", 12.0, LOW))
            && GetMealById(rows, 999) == Failure(IdNotFound(999))
            && GetMealByName(rows, "bla") == Failure(NameNotFound("bla"))
    ensures var deleted := [MealRow(1, "Pizza", "Italian", 12.0, LOW, 0, 0, true)];
            && GetMealById(deleted, 1) == Failure(IdDeleted(1))
            && GetMealByName(deleted, "Pizza") == Failure(NameDeleted("Pizza"))
  {
    var rows := [MealRow(1, "Pizza", "Italian", 12.0, LOW, 0, 0, false)];
    assert rows[1..] == [];
  }
}
