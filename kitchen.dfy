/**
 * The meal records of the kitchen model and the semantics of its meals table,
 * as pure functions from one table value to the next.
 *
 * The table is the sequence of all rows ever created: the store hands out ids
 * 1, 2, 3, ... in creation order and deleting a meal only sets its `deleted`
 * flag, so the row with id `k` is always at position `k - 1`.
 */
module Kitchen {
  import opened Wrappers

  datatype Difficulty = LOW | MED | HIGH

  /** The text a caller passes for each difficulty level. */
  function DifficultyName(d: Difficulty): string {
    match d
    case LOW => "LOW"
    case MED => "MED"
    case HIGH => "HIGH"
  }

  /** Accepts exactly the three level names; anything else is not a difficulty. */
  function ParseDifficulty(s: string): (r: Option<Difficulty>)
    ensures r.Some? <==> s == "LOW" || s == "MED" || s == "HIGH"
    ensures r.Some? ==> DifficultyName(r.value) == s
  {
    if s == "LOW" then Some(LOW)
    else if s == "MED" then Some(MED)
    else if s == "HIGH" then Some(HIGH)
    else None
  }

  /** A meal as callers see it: the record without its statistics and flag. */
  datatype Meal = Meal(id: int, meal: string, cuisine: string, price: real, difficulty: Difficulty)

  /** A row of the meals table. */
  datatype MealRow = MealRow(
    id: int, meal: string, cuisine: string, price: real, difficulty: Difficulty,
    battles: nat, wins: nat, deleted: bool)

  function AsMeal(row: MealRow): Meal {
    Meal(row.id, row.meal, row.cuisine, row.price, row.difficulty)
  }

  /** The errors the kitchen raises; each carries what its message quotes. */
  datatype KitchenError =
    | InvalidPrice(price: real)         // Invalid price: <price>. Price must be a positive number.
    | InvalidDifficulty(level: string)  // Invalid difficulty level: <level>. Must be 'LOW', 'MED', or 'HIGH'.
    | DuplicateName(name: string)       // Meal with name '<name>' already exists
    | IdNotFound(id: int)               // Meal with ID <id> not found
    | IdDeleted(id: int)                // Meal with ID <id> has been deleted
    | NameNotFound(name: string)        // Meal with name <name> not found
    | NameDeleted(name: string)         // Meal with name <name> has been deleted
    | InvalidResult(result: string)     // Invalid result: <result>. Expected 'win' or 'loss'.
    | InvalidSortBy(sortBy: string)     // Invalid sort_by parameter: <sortBy>

  type Table = seq<MealRow>

  /**
   * What the store keeps true of its table: ids follow positions, every price
   * is positive, a meal never has more wins than battles, and names are unique.
   */
  ghost predicate WellFormed(rows: Table) {
    && (forall i :: 0 <= i < |rows| ==>
          rows[i].id == i + 1 && rows[i].price > 0.0 && rows[i].wins <= rows[i].battles)
    && (forall i, j :: 0 <= i < j < |rows| ==> rows[i].meal != rows[j].meal)
  }

  /** Whether some row carries the id. */
  predicate HasId(rows: Table, id: int) {
    1 <= id <= |rows|
  }

  /** The position of the first row with the given name, if any. */
  function IndexOfName(rows: Table, name: string): (r: Option<nat>)
    ensures r.None? <==> forall i :: 0 <= i < |rows| ==> rows[i].meal != name
    ensures r.Some? ==> r.value < |rows| && rows[r.value].meal == name
    ensures r.Some? ==> forall i :: 0 <= i < r.value ==> rows[i].meal != name
  {
    if rows == [] then None
    else if rows[0].meal == name then Some(0)
    else
      match IndexOfName(rows[1..], name)
      case None => None
      case Some(k) => Some(k + 1)
  }

  // ---------------------------------------------------------------------------
  // create_meal

  /**
   * Checks the price, then the difficulty, then that the name is new, and
   * appends a row with no battles under the next id.
   */
  function CreateMeal(rows: Table, meal: string, cuisine: string, price: real, difficulty: string)
    : (r: Result<Table, KitchenError>)
    ensures price <= 0.0 ==> r == Failure(InvalidPrice(price))
    ensures price > 0.0 && ParseDifficulty(difficulty).None? ==>
              r == Failure(InvalidDifficulty(difficulty))
    ensures price > 0.0 && ParseDifficulty(difficulty).Some? &&
            (exists i :: 0 <= i < |rows| && rows[i].meal == meal) ==>
              r == Failure(DuplicateName(meal))
    ensures r.Success? <==>
              price > 0.0 && ParseDifficulty(difficulty).Some? &&
              forall i :: 0 <= i < |rows| ==> rows[i].meal != meal
    ensures r.Success? ==>
              && |r.value| == |rows| + 1 && r.value[..|rows|] == rows
              && r.value[|rows|] == MealRow(|rows| + 1, meal, cuisine, price,
                                             ParseDifficulty(difficulty).value, 0, 0, false)
    ensures r.Success? && WellFormed(rows) ==> WellFormed(r.value)
  {
    if price <= 0.0 then Failure(InvalidPrice(price))
    else if ParseDifficulty(difficulty).None? then Failure(InvalidDifficulty(difficulty))
    else if IndexOfName(rows, meal).Some? then Failure(DuplicateName(meal))
    else
      var row := MealRow(|rows| + 1, meal, cuisine, price, ParseDifficulty(difficulty).value, 0, 0, false);
      assert (rows + [row])[..|rows|] == rows;
      Success(rows + [row])
  }

  // ---------------------------------------------------------------------------
  // get_meal_by_id, get_meal_by_name

  /** Looks a meal up by id; a missing or soft-deleted meal is an error. */
  function GetMealById(rows: Table, id: int): (r: Result<Meal, KitchenError>)
    ensures !HasId(rows, id) ==> r == Failure(IdNotFound(id))
    ensures HasId(rows, id) && rows[id - 1].deleted ==> r == Failure(IdDeleted(id))
    ensures r.Success? <==> HasId(rows, id) && !rows[id - 1].deleted
    ensures r.Success? ==> r.value == AsMeal(rows[id - 1])
  {
    if !HasId(rows, id) then Failure(IdNotFound(id))
    else if rows[id - 1].deleted then Failure(IdDeleted(id))
    else Success(AsMeal(rows[id - 1]))
  }

  /** Looks a meal up by name; a missing or soft-deleted meal is an error. */
  function GetMealByName(rows: Table, name: string): (r: Result<Meal, KitchenError>)
    ensures r == Failure(NameNotFound(name)) <==> forall i :: 0 <= i < |rows| ==> rows[i].meal != name
    ensures r.Success? ==>
              exists i :: 0 <= i < |rows| && rows[i].meal == name && !rows[i].deleted &&
                          r.value == AsMeal(rows[i])
    ensures r.Failure? && r.error != NameNotFound(name) ==>
              r == Failure(NameDeleted(name)) &&
              exists i :: 0 <= i < |rows| && rows[i].meal == name && rows[i].deleted
  {
    match IndexOfName(rows, name)
    case None => Failure(NameNotFound(name))
    case Some(i) =>
      if rows[i].deleted then Failure(NameDeleted(name)) else Success(AsMeal(rows[i]))
  }

  /** With unique names, the by-id and by-name lookups of a row agree. */
  lemma LookupsAgree(rows: Table, i: nat)
    requires WellFormed(rows) && i < |rows|
    ensures GetMealById(rows, i + 1).Success? <==> GetMealByName(rows, rows[i].meal).Success?
    ensures GetMealById(rows, i + 1).Success? ==>
              GetMealById(rows, i + 1) == GetMealByName(rows, rows[i].meal)
    ensures GetMealById(rows, i + 1) == Failure(IdDeleted(i + 1)) <==>
              GetMealByName(rows, rows[i].meal) == Failure(NameDeleted(rows[i].meal))
  {
  }

  // ---------------------------------------------------------------------------
  // delete_meal

  /** Soft-deletes a meal: a missing or already deleted meal is an error. */
  function DeleteMeal(rows: Table, id: int): (r: Result<Table, KitchenError>)
    ensures !HasId(rows, id) ==> r == Failure(IdNotFound(id))
    ensures HasId(rows, id) && rows[id - 1].deleted ==> r == Failure(IdDeleted(id))
    ensures r.Success? <==> HasId(rows, id) && !rows[id - 1].deleted
    ensures r.Success? ==>
              && |r.value| == |rows|
              && r.value[id - 1] == rows[id - 1].(deleted := true)
              && forall j :: 0 <= j < |rows| && j != id - 1 ==> r.value[j] == rows[j]
    ensures r.Success? && WellFormed(rows) ==> WellFormed(r.value)
  {
    if !HasId(rows, id) then Failure(IdNotFound(id))
    else if rows[id - 1].deleted then Failure(IdDeleted(id))
    else Success(rows[id - 1 := rows[id - 1].(deleted := true)])
  }

  /**
   * Once deleted, a meal can neither be looked up, deleted again nor given
   * results, and every other meal looks up as before.
   */
  lemma DeletedStaysDeleted(rows: Table, id: int, result: string)
    requires WellFormed(rows)
    requires DeleteMeal(rows, id).Success?
    ensures var t := DeleteMeal(rows, id).value;
            && GetMealById(t, id) == Failure(IdDeleted(id))
            && GetMealByName(t, rows[id - 1].meal) == Failure(NameDeleted(rows[id - 1].meal))
            && DeleteMeal(t, id) == Failure(IdDeleted(id))
            && UpdateMealStats(t, id, result) == Failure(IdDeleted(id))
            && forall other :: other != id ==> GetMealById(t, other) == GetMealById(rows, other)
  {
  }

  // ---------------------------------------------------------------------------
  // update_meal_stats

  /**
   * Records one battle for a meal: "win" adds one battle and one win, "loss"
   * one battle only. The meal must exist and not be deleted; that is checked
   * before the result text.
   */
  function UpdateMealStats(rows: Table, id: int, result: string): (r: Result<Table, KitchenError>)
    ensures !HasId(rows, id) ==> r == Failure(IdNotFound(id))
    ensures HasId(rows, id) && rows[id - 1].deleted ==> r == Failure(IdDeleted(id))
    ensures HasId(rows, id) && !rows[id - 1].deleted && result != "win" && result != "loss" ==>
              r == Failure(InvalidResult(result))
    ensures r.Success? <==>
              HasId(rows, id) && !rows[id - 1].deleted && (result == "win" || result == "loss")
    ensures r.Success? ==>
              && |r.value| == |rows|
              && r.value[id - 1].battles == rows[id - 1].battles + 1
              && r.value[id - 1].wins == rows[id - 1].wins + (if result == "win" then 1 else 0)
              && r.value[id - 1] == rows[id - 1].(battles := r.value[id - 1].battles,
                                                   wins := r.value[id - 1].wins)
              && forall j :: 0 <= j < |rows| && j != id - 1 ==> r.value[j] == rows[j]
    ensures r.Success? && WellFormed(rows) ==> WellFormed(r.value)
  {
    if !HasId(rows, id) then Failure(IdNotFound(id))
    else if rows[id - 1].deleted then Failure(IdDeleted(id))
    else
      var row := rows[id - 1];
      if result == "win" then
        Success(rows[id - 1 := row.(battles := row.battles + 1, wins := row.wins + 1)])
      else if result == "loss" then
        Success(rows[id - 1 := row.(battles := row.battles + 1)])
      else Failure(InvalidResult(result))
  }

  /** The battles recorded over the whole table. */
  function TotalBattles(rows: Table): nat {
    if rows == [] then 0 else rows[0].battles + TotalBattles(rows[1..])
  }

  /** The wins recorded over the whole table. */
  function TotalWins(rows: Table): nat {
    if rows == [] then 0 else rows[0].wins + TotalWins(rows[1..])
  }

  /** Replacing one row changes each total by exactly that row's difference. */
  lemma {:induction false} TotalsAfterReplace(rows: Table, i: nat, row: MealRow)
    requires i < |rows|
    ensures TotalBattles(rows[i := row]) == TotalBattles(rows) - rows[i].battles + row.battles
    ensures TotalWins(rows[i := row]) == TotalWins(rows) - rows[i].wins + row.wins
  {
    if i > 0 {
      assert rows[i := row][1..] == rows[1..][i - 1 := row];
      TotalsAfterReplace(rows[1..], i - 1, row);
    } else {
      assert rows[i := row][1..] == rows[1..];
    }
  }

  /**
   * The commit of a finished battle: the winner is recorded as a "win", then
   * the loser as a "loss". Either both updates apply or neither does.
   */
  function RecordBattle(rows: Table, winnerId: int, loserId: int): (r: Result<Table, KitchenError>)
    ensures GetMealById(rows, winnerId).Failure? ==>
              r == Failure(GetMealById(rows, winnerId).error)
    ensures GetMealById(rows, winnerId).Success? && GetMealById(rows, loserId).Failure? ==>
              r == Failure(GetMealById(rows, loserId).error)
    ensures r.Success? <==>
              GetMealById(rows, winnerId).Success? && GetMealById(rows, loserId).Success?
    ensures r.Success? ==> |r.value| == |rows|
    ensures r.Success? && winnerId != loserId ==>
              && r.value[winnerId - 1] == rows[winnerId - 1].(battles := rows[winnerId - 1].battles + 1,
                                                               wins := rows[winnerId - 1].wins + 1)
              && r.value[loserId - 1] == rows[loserId - 1].(battles := rows[loserId - 1].battles + 1)
    ensures r.Success? && winnerId == loserId ==>
              r.value[winnerId - 1] == rows[winnerId - 1].(battles := rows[winnerId - 1].battles + 2,
                                                            wins := rows[winnerId - 1].wins + 1)
    ensures r.Success? ==>
              forall j :: 0 <= j < |rows| && j + 1 != winnerId && j + 1 != loserId ==> r.value[j] == rows[j]
    ensures r.Success? && WellFormed(rows) ==> WellFormed(r.value)
  {
    match UpdateMealStats(rows, winnerId, "win")
    case Failure(e) => Failure(e)
    case Success(t) => UpdateMealStats(t, loserId, "loss")
  }

  /**
   * Each battle counts once for each of its two participants and once as a
   * win, and no other row changes.
   */
  lemma RecordBattleCounts(rows: Table, winnerId: int, loserId: int)
    requires RecordBattle(rows, winnerId, loserId).Success?
    ensures var t := RecordBattle(rows, winnerId, loserId).value;
            && |t| == |rows|
            && TotalBattles(t) == TotalBattles(rows) + 2
            && TotalWins(t) == TotalWins(rows) + 1
            && forall j :: 0 <= j < |rows| && j + 1 != winnerId && j + 1 != loserId ==> t[j] == rows[j]
  {
    var t1 := UpdateMealStats(rows, winnerId, "win").value;
    var t2 := UpdateMealStats(t1, loserId, "loss").value;
    assert t1 == rows[winnerId - 1 := t1[winnerId - 1]];
    TotalsAfterReplace(rows, winnerId - 1, t1[winnerId - 1]);
    assert t2 == t1[loserId - 1 := t2[loserId - 1]];
    TotalsAfterReplace(t1, loserId - 1, t2[loserId - 1]);
  }

  // ---------------------------------------------------------------------------
  // get_leaderboard

  datatype LeaderboardEntry = LeaderboardEntry(
    id: int, meal: string, cuisine: string, price: real, difficulty: Difficulty,
    battles: nat, wins: nat, winPct: real)

  /** A row appears on the leaderboard when it is not deleted and has fought. */
  predicate Ranked(row: MealRow) {
    !row.deleted && row.battles > 0
  }

  function Entry(row: MealRow): LeaderboardEntry
    requires row.battles > 0
  {
    LeaderboardEntry(row.id, row.meal, row.cuisine, row.price, row.difficulty,
                     row.battles, row.wins, row.wins as real / row.battles as real * 100.0)
  }

  /** The entries of the ranked rows, in table order. */
  function Standings(rows: Table): (s: seq<LeaderboardEntry>)
    ensures forall e :: e in s ==> exists i :: 0 <= i < |rows| && Ranked(rows[i]) && e == Entry(rows[i])
    ensures forall i :: 0 <= i < |rows| && Ranked(rows[i]) ==> Entry(rows[i]) in s
  {
    if rows == [] then []
    else
      var rest := Standings(rows[1..]);
      assert forall i :: 1 <= i < |rows| ==> rows[i] == rows[1..][i - 1];
      if Ranked(rows[0]) then [Entry(rows[0])] + rest else rest
  }

  /** Ids grow along the table, as they do on a well-formed one. */
  ghost predicate IdsIncreasing(rows: Table) {
    forall i, j :: 0 <= i < j < |rows| ==> rows[i].id < rows[j].id
  }

  /** The standings keep the table's order: when its ids increase, so do theirs. */
  lemma {:induction false} StandingsInOrder(rows: Table)
    requires IdsIncreasing(rows)
    ensures forall i, j :: 0 <= i < j < |Standings(rows)| ==> Standings(rows)[i].id < Standings(rows)[j].id
  {
    if rows != [] {
      var rest := Standings(rows[1..]);
      StandingsInOrder(rows[1..]);
      forall e | e in rest ensures rows[0].id < e.id {
        var i :| 0 <= i < |rows[1..]| && Ranked(rows[1..][i]) && e == Entry(rows[1..][i]);
        assert rows[1..][i] == rows[i + 1];
      }
    }
  }

  /** In a list whose ids strictly increase, no entry occurs twice. */
  lemma {:induction false} IncreasingIdsOccurOnce(s: seq<LeaderboardEntry>)
    requires forall i, j :: 0 <= i < j < |s| ==> s[i].id < s[j].id
    ensures forall e :: multiset(s)[e] <= 1
  {
    if s != [] {
      IncreasingIdsOccurOnce(s[1..]);
      assert s == [s[0]] + s[1..];
      assert s[0] !in s[1..];
    }
  }

  /** An entry found at two positions occurs at least twice. */
  lemma CountOfRepeated(s: seq<LeaderboardEntry>, i: nat, j: nat)
    requires i < j < |s| && s[i] == s[j]
    ensures multiset(s)[s[i]] >= 2
  {
    assert s == s[..j] + s[j..];
    assert s[i] in s[..j] && s[j] in s[j..];
  }

  /**
   * A rearrangement of the standings of a well-formed table lists every meal
   * at most once: no two of its entries share an id.
   */
  lemma StandingsOnce(rows: Table, s: seq<LeaderboardEntry>)
    requires WellFormed(rows)
    requires multiset(s) == multiset(Standings(rows))
    ensures forall i, j :: 0 <= i < j < |s| ==> s[i].id != s[j].id
  {
    var st := Standings(rows);
    StandingsInOrder(rows);
    IncreasingIdsOccurOnce(st);
    forall i | 0 <= i < |s|
      ensures 1 <= s[i].id <= |rows| && Ranked(rows[s[i].id - 1]) && s[i] == Entry(rows[s[i].id - 1])
    {
      assert s[i] in multiset(s);
      assert s[i] in st;
      var k :| 0 <= k < |rows| && Ranked(rows[k]) && s[i] == Entry(rows[k]);
    }
    forall i, j | 0 <= i < j < |s| ensures s[i] != s[j] {
      if s[i] == s[j] {
        CountOfRepeated(s, i, j);
      }
    }
  }

  datatype SortKey = ByWins | ByWinPct

  /** The two orderings the leaderboard offers. */
  function ParseSortBy(s: string): (r: Option<SortKey>)
    ensures r == Some(ByWins) <==> s == "wins"
    ensures r == Some(ByWinPct) <==> s == "win_pct"
    ensures r.None? <==> s != "wins" && s != "win_pct"
  {
    if s == "wins" then Some(ByWins)
    else if s == "win_pct" then Some(ByWinPct)
    else None
  }

  function Key(e: LeaderboardEntry, k: SortKey): real {
    match k
    case ByWins => e.wins as real
    case ByWinPct => e.winPct
  }

  ghost predicate SortedDesc(s: seq<LeaderboardEntry>, k: SortKey) {
    forall i, j :: 0 <= i < j < |s| ==> Key(s[i], k) >= Key(s[j], k)
  }

  /** Inserts one entry into a list already in descending key order. */
  function InsertDesc(e: LeaderboardEntry, s: seq<LeaderboardEntry>, k: SortKey)
    : (r: seq<LeaderboardEntry>)
    requires SortedDesc(s, k)
    ensures SortedDesc(r, k)
    ensures multiset(r) == multiset(s) + multiset{e}
    ensures |r| == |s| + 1 && (r[0] == e || (s != [] && r[0] == s[0]))
  {
    if s == [] || Key(e, k) >= Key(s[0], k) then [e] + s
    else
      var rest := InsertDesc(e, s[1..], k);
      assert s == [s[0]] + s[1..];
      [s[0]] + rest
  }

  /** Orders entries by descending key. */
  function SortDesc(s: seq<LeaderboardEntry>, k: SortKey): (r: seq<LeaderboardEntry>)
    ensures SortedDesc(r, k)
    ensures multiset(r) == multiset(s)
  {
    if s == [] then []
    else
      assert s == [s[0]] + s[1..];
      InsertDesc(s[0], SortDesc(s[1..], k), k)
  }

  /**
   * The leaderboard: every non-deleted meal that has fought, each with its
   * win percentage, in descending order of wins or of win percentage.
   */
  function GetLeaderboard(rows: Table, sortBy: string): (r: Result<seq<LeaderboardEntry>, KitchenError>)
    ensures r.Failure? <==> sortBy != "wins" && sortBy != "win_pct"
    ensures r.Failure? ==> r.error == InvalidSortBy(sortBy)
    ensures r.Success? ==> SortedDesc(r.value, if sortBy == "wins" then ByWins else ByWinPct)
    ensures r.Success? ==> multiset(r.value) == multiset(Standings(rows))
    ensures r.Success? && WellFormed(rows) ==>
              forall i, j :: 0 <= i < j < |r.value| ==> r.value[i].id != r.value[j].id
    ensures r.Success? ==>
              forall e :: e in r.value <==>
                exists i :: 0 <= i < |rows| && Ranked(rows[i]) && e == Entry(rows[i])
    ensures r.Success? ==>
              forall e :: e in r.value ==>
                e.battles > 0 && e.winPct == e.wins as real / e.battles as real * 100.0
  {
    match ParseSortBy(sortBy)
    case None => Failure(InvalidSortBy(sortBy))
    case Some(k) =>
      var s := SortDesc(Standings(rows), k);
      assert forall e :: e in s <==> e in Standings(rows) by {
        forall e ensures e in s <==> e in Standings(rows) {
          assert e in s <==> e in multiset(s);
        }
      }
      assert WellFormed(rows) ==> forall i, j :: 0 <= i < j < |s| ==> s[i].id != s[j].id by {
        if WellFormed(rows) {
          StandingsOnce(rows, s);
        }
      }
      Success(s)
  }

  /** On a well-formed table every win percentage lies between 0 and 100. */
  lemma WinPctInRange(rows: Table, sortBy: string, e: LeaderboardEntry)
    requires WellFormed(rows)
    requires GetLeaderboard(rows, sortBy).Success? && e in GetLeaderboard(rows, sortBy).value
    ensures 0.0 <= e.winPct <= 100.0
  {
    var i :| 0 <= i < |rows| && Ranked(rows[i]) && e == Entry(rows[i]);
    ShareInRange(rows[i].wins as real, rows[i].battles as real);
  }

  /** A share of wins among battles, as a percentage, is between 0 and 100. */
  lemma ShareInRange(w: real, b: real)
    requires 0.0 <= w <= b && b > 0.0
    ensures 0.0 <= w / b * 100.0 <= 100.0
  {
    assert w / b * b == w;
  }
}
