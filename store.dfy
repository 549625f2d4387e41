/**
 * The meals table as a mutable store. Each method changes the table in place
 * and is proved against the corresponding function of module Kitchen: it
 * raises the error that function returns and, on success, leaves the table
 * that function computes.
 */
module Store {
  import opened Wrappers
  import opened Kitchen

  class MealStore {
    var rows: Table

    ghost predicate Valid()
      reads this
    {
      WellFormed(rows)
    }

    constructor ()
      ensures Valid() && rows == []
    {
      rows := [];
    }

    /** create_meal: inserts a new meal under the next id. */
    method CreateMeal(meal: string, cuisine: string, price: real, difficulty: string)
      returns (r: Outcome<KitchenError>)
      requires Valid()
      modifies this
      ensures Valid()
      ensures r == Kitchen.CreateMeal(old(rows), meal, cuisine, price, difficulty).ToOutcome()
      ensures rows == Kitchen.CreateMeal(old(rows), meal, cuisine, price, difficulty).GetOr(old(rows))
    {
      if price <= 0.0 {
        return Fail(InvalidPrice(price));
      }
      var level := ParseDifficulty(difficulty);
      if level.None? {
        return Fail(InvalidDifficulty(difficulty));
      }
      if IndexOfName(rows, meal).Some? {
        return Fail(DuplicateName(meal));
      }
      rows := rows + [MealRow(|rows| + 1, meal, cuisine, price, level.value, 0, 0, false)];
      r := Pass;
    }

    /** delete_meal: sets the meal's deleted flag. */
    method DeleteMeal(id: int) returns (r: Outcome<KitchenError>)
      requires Valid()
      modifies this
      ensures Valid()
      ensures r == Kitchen.DeleteMeal(old(rows), id).ToOutcome()
      ensures rows == Kitchen.DeleteMeal(old(rows), id).GetOr(old(rows))
    {
      if !(1 <= id <= |rows|) {
        return Fail(IdNotFound(id));
      }
      if rows[id - 1].deleted {
        return Fail(IdDeleted(id));
      }
      rows := rows[id - 1 := rows[id - 1].(deleted := true)];
      r := Pass;
    }

    /** update_meal_stats: adds one battle, and one win for "win". */
    method UpdateMealStats(id: int, result: string) returns (r: Outcome<KitchenError>)
      requires Valid()
      modifies this
      ensures Valid()
      ensures r == Kitchen.UpdateMealStats(old(rows), id, result).ToOutcome()
      ensures rows == Kitchen.UpdateMealStats(old(rows), id, result).GetOr(old(rows))
    {
      if !(1 <= id <= |rows|) {
        return Fail(IdNotFound(id));
      }
      if rows[id - 1].deleted {
        return Fail(IdDeleted(id));
      }
      var row := rows[id - 1];
      if result == "win" {
        rows := rows[id - 1 := row.(battles := row.battles + 1, wins := row.wins + 1)];
      } else if result == "loss" {
        rows := rows[id - 1 := row.(battles := row.battles + 1)];
      } else {
        return Fail(InvalidResult(result));
      }
      r := Pass;
    }
  }
}
