/** A weighted choice over outcomes, where an outcome may be another table to roll on. */
module DropTables {
  import opened Reals
  import opened Wrappers

  datatype DropTable<T> = DropTable(entries: seq<Entry<T>>)
  datatype Entry<T> = Entry(weight: real, outcome: Outcome<T>)
  datatype Outcome<T> = Plain(value: T) | Sub(table: DropTable<T>)

  predicate HasPositive<T>(rows: seq<Entry<T>>) {
    rows != [] && (rows[0].weight > 0.0 || HasPositive(rows[1..]))
  }

  /** What construction checks, at every level: weights are not negative and some row can be pulled. */
  ghost predicate Valid<T>(table: DropTable<T>)
    decreases table, 1
  {
    ValidRows(table.entries) && HasPositive(table.entries)
  }

  ghost predicate ValidRows<T>(rows: seq<Entry<T>>)
    decreases rows, 0
  {
    rows != [] ==>
      ValidRow(rows[0]) && ValidRows(rows[1..])
  }

  ghost predicate ValidRow<T>(row: Entry<T>)
    decreases row, 2
  {
    row.weight >= 0.0 && (row.outcome.Sub? ==> Valid(row.outcome.table))
  }

  function TotalWeight<T>(rows: seq<Entry<T>>): real {
    if rows == [] then 0.0 else rows[0].weight + TotalWeight(rows[1..])
  }

  lemma {:induction false} TotalIsPositive<T>(rows: seq<Entry<T>>)
    requires ValidRows(rows)
    ensures TotalWeight(rows) >= 0.0
    ensures HasPositive(rows) <==> TotalWeight(rows) > 0.0
  {
    if rows != [] {
      TotalIsPositive(rows[1..]);
    }
  }

  // ----- filtering

  function SurvivingEntry<T>(entry: Entry<T>, keep: T -> bool): Option<Entry<T>>
    decreases entry, 2
  {
    match entry.outcome
    case Sub(table) =>
      (match Filtered(table, keep)
       case None => None
       case Some(subTable) => Some(Entry(entry.weight, Sub(subTable))))
    case Plain(value) => if keep(value) then Some(entry) else None
  }

  function SurvivingRows<T>(rows: seq<Entry<T>>, keep: T -> bool): seq<Entry<T>>
    decreases rows, 3
  {
    if rows == [] then []
    else
      var rest := SurvivingRows(rows[1..], keep);
      match SurvivingEntry(rows[0], keep)
      case None => rest
      case Some(entry) => [entry] + rest
  }

  function Filtered<T>(table: DropTable<T>, keep: T -> bool): Option<DropTable<T>>
    decreases table, 4
  {
    var rows := SurvivingRows(table.entries, keep);
    if HasPositive(rows) then Some(DropTable(rows)) else None
  }

  /** A filtered table is a table construction would accept. */
  lemma {:induction false} FilteredIsValid<T>(table: DropTable<T>, keep: T -> bool)
    requires Valid(table)
    ensures Filtered(table, keep).Some? ==> Valid(Filtered(table, keep).value)
    decreases table, 1
  {
    SurvivingRowsAreValid(table.entries, keep);
  }

  lemma {:induction false} SurvivingRowsAreValid<T>(rows: seq<Entry<T>>, keep: T -> bool)
    requires ValidRows(rows)
    ensures ValidRows(SurvivingRows(rows, keep))
    ensures HasPositive(SurvivingRows(rows, keep)) ==> HasPositive(rows)
    ensures TotalWeight(SurvivingRows(rows, keep)) <= TotalWeight(rows)
    decreases rows, 0
  {
    if rows != [] {
      SurvivingRowsAreValid(rows[1..], keep);
      assert rows decreases to rows[0];
      if rows[0].outcome.Sub? {
        FilteredIsValid(rows[0].outcome.table, keep);
      }
      var survivor := SurvivingEntry(rows[0], keep);
      if survivor.Some? {
        var rest := SurvivingRows(rows[1..], keep);
        assert ([survivor.value] + rest)[1..] == rest;
      }
    }
  }

  /** Keeping every outcome changes nothing. */
  lemma {:induction false} FilteredByAlways<T(!new)>(table: DropTable<T>, keep: T -> bool)
    requires Valid(table) && forall outcome :: keep(outcome)
    ensures Filtered(table, keep) == Some(table)
    decreases table, 1
  {
    AllRowsSurvive(table.entries, keep);
  }

  lemma {:induction false} AllRowsSurvive<T(!new)>(rows: seq<Entry<T>>, keep: T -> bool)
    requires ValidRows(rows) && forall outcome :: keep(outcome)
    ensures SurvivingRows(rows, keep) == rows
    decreases rows, 0
  {
    if rows != [] {
      AllRowsSurvive(rows[1..], keep);
      assert rows decreases to rows[0];
      if rows[0].outcome.Sub? {
        FilteredByAlways(rows[0].outcome.table, keep);
      }
    }
  }

  function FilteredAgain<T>(table: Option<DropTable<T>>, keep: T -> bool): Option<DropTable<T>> {
    if table.Some? then Filtered(table.value, keep) else None
  }

  ghost predicate IsConjunction<T(!new)>(both: T -> bool, a: T -> bool, b: T -> bool) {
    forall outcome :: both(outcome) <==> a(outcome) && b(outcome)
  }

  /** Filtering twice is filtering once by both predicates; "nothing left" carries through. */
  lemma {:induction false} FilteredTwice<T(!new)>(table: DropTable<T>, a: T -> bool, b: T -> bool, both: T -> bool)
    requires IsConjunction(both, a, b)
    ensures FilteredAgain(Filtered(table, a), b) == Filtered(table, both)
    decreases table, 1
  {
    RowsSurviveTwice(table.entries, a, b, both);
  }

  lemma {:induction false} RowsSurviveTwice<T(!new)>(rows: seq<Entry<T>>, a: T -> bool, b: T -> bool, both: T -> bool)
    requires IsConjunction(both, a, b)
    ensures SurvivingRows(SurvivingRows(rows, a), b) == SurvivingRows(rows, both)
    ensures HasPositive(SurvivingRows(rows, both)) ==> HasPositive(SurvivingRows(rows, a))
    decreases rows, 0
  {
    if rows != [] {
      RowsSurviveTwice(rows[1..], a, b, both);
      assert rows decreases to rows[0];
      if rows[0].outcome.Sub? {
        FilteredTwice(rows[0].outcome.table, a, b, both);
      }
      var once := SurvivingEntry(rows[0], a);
      if once.Some? {
        var rest := SurvivingRows(rows[1..], a);
        assert ([once.value] + rest)[1..] == rest;
      }
    }
  }

  // ----- reachability

  /** Some chain of positive rows ends in outcome. */
  ghost predicate Reaches<T>(table: DropTable<T>, outcome: T)
    decreases table, 1
  {
    RowsReach(table.entries, outcome)
  }

  ghost predicate RowsReach<T>(rows: seq<Entry<T>>, outcome: T)
    decreases rows, 0
  {
    rows != [] && (RowReaches(rows[0], outcome) || RowsReach(rows[1..], outcome))
  }

  ghost predicate RowReaches<T>(row: Entry<T>, outcome: T)
    decreases row, 2
  {
    && row.weight > 0.0
    && match row.outcome
       case Plain(value) => value == outcome
       case Sub(table) => Reaches(table, outcome)
  }

  lemma {:induction false} SomethingIsReachable<T>(table: DropTable<T>) returns (outcome: T)
    requires Valid(table)
    ensures Reaches(table, outcome)
    decreases table, 1
  {
    outcome := SomethingIsReachableInRows(table.entries);
  }

  lemma {:induction false} SomethingIsReachableInRows<T>(rows: seq<Entry<T>>) returns (outcome: T)
    requires ValidRows(rows) && HasPositive(rows)
    ensures RowsReach(rows, outcome)
    decreases rows, 0
  {
    if rows[0].weight > 0.0 {
      assert rows decreases to rows[0];
      match rows[0].outcome
      case Plain(value) => outcome := value;
      case Sub(table) => outcome := SomethingIsReachable(table);
    } else {
      outcome := SomethingIsReachableInRows(rows[1..]);
    }
  }

  /** An outcome is reachable after filtering exactly when it was reachable and is kept. */
  lemma {:induction false} ReachableAfterFiltering<T>(table: DropTable<T>, keep: T -> bool, outcome: T)
    ensures Filtered(table, keep).Some? && Reaches(Filtered(table, keep).value, outcome)
            <==> Reaches(table, outcome) && keep(outcome)
    decreases table, 1
  {
    SurvivingRowsReach(table.entries, keep, outcome);
    if !HasPositive(SurvivingRows(table.entries, keep)) {
      NothingPositiveReachesNothing(SurvivingRows(table.entries, keep), outcome);
    }
  }

  lemma {:induction false} NothingPositiveReachesNothing<T>(rows: seq<Entry<T>>, outcome: T)
    requires !HasPositive(rows)
    ensures !RowsReach(rows, outcome)
  {
    if rows != [] {
      NothingPositiveReachesNothing(rows[1..], outcome);
    }
  }

  lemma {:induction false} SurvivingRowsReach<T>(rows: seq<Entry<T>>, keep: T -> bool, outcome: T)
    ensures RowsReach(SurvivingRows(rows, keep), outcome) <==> RowsReach(rows, outcome) && keep(outcome)
    decreases rows, 0
  {
    if rows != [] {
      SurvivingRowsReach(rows[1..], keep, outcome);
      assert rows decreases to rows[0];
      if rows[0].outcome.Sub? {
        ReachableAfterFiltering(rows[0].outcome.table, keep, outcome);
      }
      var survivor := SurvivingEntry(rows[0], keep);
      if survivor.Some? {
        var rest := SurvivingRows(rows[1..], keep);
        assert ([survivor.value] + rest)[1..] == rest;
      }
    }
  }

  /** Filtering leaves no table exactly when no reachable outcome is kept. */
  lemma FilteredAwayExactlyWhenNothingKept<T(!new)>(table: DropTable<T>, keep: T -> bool)
    requires Valid(table)
    ensures Filtered(table, keep).None? <==> forall outcome :: Reaches(table, outcome) ==> !keep(outcome)
  {
    if Filtered(table, keep).Some? {
      FilteredIsValid(table, keep);
      var outcome := SomethingIsReachable(Filtered(table, keep).value);
      ReachableAfterFiltering(table, keep, outcome);
    } else {
      forall outcome | Reaches(table, outcome) ensures !keep(outcome) {
        ReachableAfterFiltering(table, keep, outcome);
      }
    }
  }

  // ----- probabilities

  /** An outcome's chance: the sum over rows of the row's share of the total times the outcome's chance below it. */
  ghost function Probability<T>(table: DropTable<T>, outcome: T): real
    requires Valid(table)
    decreases table, 1
  {
    TotalIsPositive(table.entries);
    WeightedChance(table.entries, outcome) / TotalWeight(table.entries)
  }

  ghost function WeightedChance<T>(rows: seq<Entry<T>>, outcome: T): real
    requires ValidRows(rows)
    decreases rows, 0
  {
    if rows == [] then 0.0
    else Times(rows[0].weight, ChanceBelow(rows[0], outcome)) + WeightedChance(rows[1..], outcome)
  }

  ghost function ChanceBelow<T>(row: Entry<T>, outcome: T): real
    requires ValidRow(row)
    decreases row, 2
  {
    match row.outcome
    case Plain(value) => if value == outcome then 1.0 else 0.0
    case Sub(table) => Probability(table, outcome)
  }

  lemma DivisionKeepsOrder(low: real, high: real, bigger: real, smaller: real)
    requires 0.0 <= low <= high && 0.0 < smaller <= bigger
    ensures low / bigger <= high / smaller
    ensures low == 0.0 <==> low / bigger == 0.0
  {
    var x, y := low / bigger, high / smaller;
    assert x * bigger == low && y * smaller == high;
    ScaledOrder(y, smaller, bigger);
    CancelScale(x, y, bigger);
  }

  lemma CancelScale(x: real, y: real, z: real)
    requires z > 0.0 && x * z <= y * z
    ensures x <= y
  {
  }

  /** A chance is never negative, and is positive exactly for a reachable outcome. */
  lemma {:induction false} PositiveExactlyWhenReachable<T>(table: DropTable<T>, outcome: T)
    requires Valid(table)
    ensures Probability(table, outcome) >= 0.0
    ensures Probability(table, outcome) > 0.0 <==> Reaches(table, outcome)
    decreases table, 1
  {
    TotalIsPositive(table.entries);
    RowsPositiveExactlyWhenReachable(table.entries, outcome);
    var chance, total := WeightedChance(table.entries, outcome), TotalWeight(table.entries);
    DivisionKeepsOrder(chance, chance, total, total);
    DivisionKeepsOrder(0.0, chance, total, total);
  }

  lemma {:induction false} RowsPositiveExactlyWhenReachable<T>(rows: seq<Entry<T>>, outcome: T)
    requires ValidRows(rows)
    ensures WeightedChance(rows, outcome) >= 0.0
    ensures WeightedChance(rows, outcome) > 0.0 <==> RowsReach(rows, outcome)
    decreases rows, 0
  {
    if rows != [] {
      assert rows decreases to rows[0];
      if rows[0].outcome.Sub? {
        PositiveExactlyWhenReachable(rows[0].outcome.table, outcome);
      }
      RowsPositiveExactlyWhenReachable(rows[1..], outcome);
      SignOfProduct(rows[0].weight, ChanceBelow(rows[0], outcome));
    }
  }

  lemma SignOfProduct(x: real, y: real)
    requires x >= 0.0 && y >= 0.0
    ensures Times(x, y) >= 0.0 && (Times(x, y) > 0.0 <==> x > 0.0 && y > 0.0)
  {
  }

  /** Filtering never lowers the chance of a kept outcome; if nothing is left, its chance was 0. */
  lemma {:induction false} FilteringNeverLowersAKeptChance<T>(table: DropTable<T>, keep: T -> bool, outcome: T)
    requires Valid(table) && keep(outcome)
    ensures Filtered(table, keep).Some? ==>
              Valid(Filtered(table, keep).value) &&
              Probability(Filtered(table, keep).value, outcome) >= Probability(table, outcome)
    ensures Filtered(table, keep).None? ==> Probability(table, outcome) == 0.0
    decreases table, 1
  {
    var rows := SurvivingRows(table.entries, keep);
    FilteredIsValid(table, keep);
    SurvivingRowsAreValid(table.entries, keep);
    SurvivingRowsKeepChance(table.entries, keep, outcome);
    RowsPositiveExactlyWhenReachable(table.entries, outcome);
    RowsPositiveExactlyWhenReachable(rows, outcome);
    TotalIsPositive(table.entries);
    TotalIsPositive(rows);
    if HasPositive(rows) {
      DivisionKeepsOrder(WeightedChance(table.entries, outcome), WeightedChance(rows, outcome),
                         TotalWeight(table.entries), TotalWeight(rows));
    } else {
      NothingPositiveReachesNothing(rows, outcome);
    }
  }

  lemma {:induction false} SurvivingRowsKeepChance<T>(rows: seq<Entry<T>>, keep: T -> bool, outcome: T)
    requires ValidRows(rows) && keep(outcome)
    ensures ValidRows(SurvivingRows(rows, keep))
    ensures WeightedChance(SurvivingRows(rows, keep), outcome) >= WeightedChance(rows, outcome)
    decreases rows, 0
  {
    hide Times;
    SurvivingRowsAreValid(rows, keep);
    if rows != [] {
      var row, rest := rows[0], SurvivingRows(rows[1..], keep);
      SurvivingRowsKeepChance(rows[1..], keep, outcome);
      assert rows decreases to row;
      if row.outcome.Sub? {
        FilteringNeverLowersAKeptChance(row.outcome.table, keep, outcome);
      }
      var survivor := SurvivingEntry(row, keep);
      if survivor.Some? {
        assert ([survivor.value] + rest)[1..] == rest;
        assert ChanceBelow(survivor.value, outcome) >= ChanceBelow(row, outcome);
        ScaledOrder(row.weight, ChanceBelow(row, outcome), ChanceBelow(survivor.value, outcome));
      } else {
        assert ChanceBelow(row, outcome) == 0.0;
        ScaledOrder(row.weight, 0.0, 0.0);
      }
    }
  }

  lemma ScaledOrder(w: real, x: real, y: real)
    requires w >= 0.0 && x <= y
    ensures Times(w, x) <= Times(w, y) && Times(w, 0.0) == 0.0
  {
  }
}
