/**
 * The battle engine: scores meals, stages at most two of them as combatants,
 * and resolves a battle between them, committing the outcome to the store.
 *
 * The random draw and the rule that turns two scores and a draw into a winner
 * are parameters of `Battle`, so that a battle is a deterministic step.
 */
module Battle {
  import opened Wrappers
  import opened Kitchen
  import Store

  /** Harder dishes lose fewer points. */
  function Penalty(d: Difficulty): real {
    match d
    case LOW => 3.0
    case MED => 2.0
    case HIGH => 1.0
  }

  /** get_battle_score: price times the length of the cuisine, less the difficulty penalty. */
  function BattleScore(m: Meal): real {
    m.price * (|m.cuisine| as real) - Penalty(m.difficulty)
  }

  /**
   * The score of a meal for each difficulty: price times the length of its
   * cuisine, less 3 for an easy, 2 for a medium and 1 for a hard dish.
   */
  lemma ScoreByDifficulty(m: Meal)
    ensures m.difficulty == LOW ==> BattleScore(m) == m.price * (|m.cuisine| as real) - 3.0
    ensures m.difficulty == MED ==> BattleScore(m) == m.price * (|m.cuisine| as real) - 2.0
    ensures m.difficulty == HIGH ==> BattleScore(m) == m.price * (|m.cuisine| as real) - 1.0
  {
  }

  /**
   * Between two meals of the same price and cuisine, each step up in
   * difficulty is worth exactly one point.
   */
  lemma HarderScoresHigher(m: Meal)
    ensures BattleScore(m.(difficulty := MED)) == BattleScore(m.(difficulty := LOW)) + 1.0
    ensures BattleScore(m.(difficulty := HIGH)) == BattleScore(m.(difficulty := MED)) + 1.0
  {
  }

  /** A dearer meal of the same cuisine and difficulty scores higher, if its cuisine is named. */
  lemma DearerScoresHigher(m: Meal, price: real)
    requires |m.cuisine| > 0 && price > m.price
    ensures BattleScore(m.(price := price)) > BattleScore(m)
  {
  }

  /**
   * How a winner is chosen: given the first and the second combatant's score
   * and the draw, whether the first combatant wins.
   */
  type WinRule = (real, real, real) -> bool

  datatype Pairing = Pairing(winner: Meal, loser: Meal)

  /** The two combatants, in staging order, split into winner and loser. */
  function Decide(first: Meal, second: Meal, draw: real, firstWins: WinRule): (p: Pairing)
    ensures p == Pairing(first, second) || p == Pairing(second, first)
    ensures p.winner == first <== firstWins(BattleScore(first), BattleScore(second), draw)
    ensures p.winner == second <== !firstWins(BattleScore(first), BattleScore(second), draw)
  {
    if firstWins(BattleScore(first), BattleScore(second), draw) then Pairing(first, second)
    else Pairing(second, first)
  }

  /**
   * Unstages the first staged meal equal to `x`, keeping the others in order.
   * The engine only ever removes a meal that is staged.
   */
  function RemoveFirst(s: seq<Meal>, x: Meal): (r: seq<Meal>)
    ensures x !in s ==> r == s
    ensures x in s ==> |r| == |s| - 1 && multiset(r) == multiset(s) - multiset{x}
  {
    if s == [] then []
    else
      assert s == [s[0]] + s[1..];
      if s[0] == x then s[1..] else [s[0]] + RemoveFirst(s[1..], x)
  }

  /**
   * What is removed is the first occurrence of `x`: the meals before it and
   * the meals after it stay, in their order.
   */
  lemma {:induction false} RemoveFirstOccurrence(s: seq<Meal>, x: Meal, k: nat)
    requires k < |s| && s[k] == x && x !in s[..k]
    ensures RemoveFirst(s, x) == s[..k] + s[k + 1..]
  {
    assert s == [s[0]] + s[1..];
    if k == 0 {
      assert s[..0] + s[1..] == s[1..];
    } else {
      var t := s[1..];
      assert s[0] != x by { assert s[0] == s[..k][0]; }
      assert t[..k - 1] == s[1..k];
      assert x !in t[..k - 1];
      RemoveFirstOccurrence(t, x, k - 1);
      assert s[..k] == [s[0]] + t[..k - 1];
      assert t[k..] == s[k + 1..];
    }
  }

  datatype BattleError =
    | CombatantListFull                   // Combatant list is full, cannot add more combatants.
    | NotEnoughCombatants                 // Two combatants must be prepped for a battle.
    | InvalidParticipant(cause: KitchenError)

  class BattleModel {
    /** The staged meals, in staging order. */
    var combatants: seq<Meal>

    ghost predicate Valid()
      reads this
    {
      |combatants| <= 2
    }

    constructor ()
      ensures Valid() && combatants == []
    {
      combatants := [];
    }

    /** prep_combatant: stages a meal unless two are staged already. */
    method PrepCombatant(combatant: Meal) returns (r: Outcome<BattleError>)
      requires Valid()
      modifies this
      ensures Valid()
      ensures old(|combatants|) == 2 ==> r == Fail(CombatantListFull) && combatants == old(combatants)
      ensures old(|combatants|) < 2 ==> r == Pass && combatants == old(combatants) + [combatant]
    {
      if |combatants| >= 2 {
        return Fail(CombatantListFull);
      }
      combatants := combatants + [combatant];
      r := Pass;
    }

    /** get_combatants: the staged meals in staging order, as a value. */
    method GetCombatants() returns (s: seq<Meal>)
      requires Valid()
      ensures s == combatants && |s| <= 2
    {
      s := combatants;
    }

    /** clear_combatants: unstages every meal. */
    method ClearCombatants()
      modifies this
      ensures Valid() && combatants == []
    {
      combatants := [];
    }

    /**
     * battle: with two meals staged, decides the winner from their scores and
     * the draw, records a win and a loss in the store, unstages the loser and
     * returns the winner's name. Nothing changes when fewer than two meals are
     * staged or when either meal cannot be updated in the store.
     */
    method Battle(store: Store.MealStore, draw: real, firstWins: WinRule)
      returns (r: Result<string, BattleError>)
      requires Valid() && store.Valid()
      modifies this, store
      ensures Valid() && store.Valid()
      ensures old(|combatants|) < 2 ==>
                r == Failure(NotEnoughCombatants) &&
                combatants == old(combatants) && store.rows == old(store.rows)
      ensures old(|combatants|) == 2 ==>
                var p := Decide(old(combatants[0]), old(combatants[1]), draw, firstWins);
                match RecordBattle(old(store.rows), p.winner.id, p.loser.id)
                case Failure(e) =>
                  r == Failure(InvalidParticipant(e)) &&
                  combatants == old(combatants) && store.rows == old(store.rows)
                case Success(t) =>
                  r == Success(p.winner.meal) && combatants == [p.winner] && store.rows == t
    {
      if |combatants| < 2 {
        return Failure(NotEnoughCombatants);
      }
      var p := Decide(combatants[0], combatants[1], draw, firstWins);
      // Both participants are checked before either is updated.
      var w := GetMealById(store.rows, p.winner.id);
      if w.Failure? {
        return Failure(InvalidParticipant(w.error));
      }
      var l := GetMealById(store.rows, p.loser.id);
      if l.Failure? {
        return Failure(InvalidParticipant(l.error));
      }
      var won := store.UpdateMealStats(p.winner.id, "win");
      var lost := store.UpdateMealStats(p.loser.id, "loss");
      combatants := RemoveFirst(combatants, p.loser);
      r := Success(p.winner.meal);
    }
  }
}
