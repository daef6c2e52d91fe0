/** The laws that fix a drop table's chances and its filter, said of weights and rows alone. */
module DropTableLaws {
  import opened DropTables
  import opened DropTableDraws
  import opened Reals
  import opened Wrappers

  // ----- the total weight

  lemma {:induction false} TotalsAdd<T>(a: seq<Entry<T>>, b: seq<Entry<T>>, row: Entry<T>)
    ensures TotalWeight(a + b) == TotalWeight(a) + TotalWeight(b)
    ensures TotalWeight([row]) == row.weight && TotalWeight<T>([]) == 0.0
  {
    assert [row][1..] == [];
    if a == [] {
      assert a + b == b;
    } else {
      TotalsAdd(a[1..], b, row);
      assert (a + b)[1..] == a[1..] + b;
    }
  }

  // ----- the chances

  lemma {:induction false} JoinedRowsAreValid<T>(a: seq<Entry<T>>, b: seq<Entry<T>>)
    requires ValidRows(a) && ValidRows(b)
    ensures ValidRows(a + b) && (HasPositive(a + b) <==> HasPositive(a) || HasPositive(b))
  {
    if a == [] {
      assert a + b == b;
    } else {
      JoinedRowsAreValid(a[1..], b);
      assert (a + b)[1..] == a[1..] + b;
    }
  }

  lemma {:induction false} ChancesAdd<T>(a: seq<Entry<T>>, b: seq<Entry<T>>, outcome: T)
    requires ValidRows(a) && ValidRows(b) && ValidRows(a + b)
    ensures WeightedChance(a + b, outcome) == WeightedChance(a, outcome) + WeightedChance(b, outcome)
  {
    if a == [] {
      assert a + b == b;
    } else {
      hide Times;
      JoinedRowsAreValid(a[1..], b);
      ChancesAdd(a[1..], b, outcome);
      assert (a + b)[1..] == a[1..] + b;
    }
  }

  lemma ChanceTimesTotal<T>(table: DropTable<T>, outcome: T)
    requires Valid(table)
    ensures Times(Probability(table, outcome), TotalWeight(table.entries)) == WeightedChance(table.entries, outcome)
  {
    TotalIsPositive(table.entries);
  }

  lemma MixedIsValid<T>(a: DropTable<T>, b: DropTable<T>)
    requires Valid(a) && Valid(b)
    ensures Valid(DropTable(a.entries + b.entries)) && a.entries != []
    ensures ValidRows(a.entries) && ValidRows(b.entries) && ValidRows(a.entries + b.entries)
  {
    JoinedRowsAreValid(a.entries, b.entries);
  }

  /** Rolling on the rows of two tables together: each is rolled on in proportion to its total weight. */
  lemma MixedTables<T>(a: DropTable<T>, b: DropTable<T>, outcome: T)
    requires Valid(a) && Valid(b)
    ensures var mixed := DropTable(a.entries + b.entries);
            && Valid(mixed)
            && Times(Probability(mixed, outcome), TotalWeight(a.entries) + TotalWeight(b.entries)) ==
               Times(Probability(a, outcome), TotalWeight(a.entries))
               + Times(Probability(b, outcome), TotalWeight(b.entries))
  {
    hide Times, Probability, TotalWeight, WeightedChance, ValidRows, HasPositive;
    var mixed := DropTable(a.entries + b.entries);
    MixedIsValid(a, b);
    TotalsAdd(a.entries, b.entries, a.entries[0]);
    ChancesAdd(a.entries, b.entries, outcome);
    ChanceTimesTotal(a, outcome);
    ChanceTimesTotal(b, outcome);
    ChanceTimesTotal(mixed, outcome);
  }

  /** A table of one row is that row: its value for certain, or its sub-table, whatever its positive weight. */
  lemma OneRowTable<T>(row: Entry<T>, outcome: T)
    requires row.weight > 0.0 && (row.outcome.Sub? ==> Valid(row.outcome.table))
    ensures Valid(DropTable([row]))
    ensures Probability(DropTable([row]), outcome) ==
            match row.outcome
            case Plain(value) => if value == outcome then 1.0 else 0.0
            case Sub(table) => Probability(table, outcome)
  {
    var rows := [row];
    assert rows[1..] == [] && rows[0] == row;
    assert ValidRow(row) && ValidRows(rows);
    var below := ChanceBelow(row, outcome);
    assert WeightedChance(rows, outcome) == Times(row.weight, below) + WeightedChance(rows[1..], outcome);
    assert TotalWeight(rows) == row.weight + TotalWeight(rows[1..]);
    Cancels(row.weight, below);
  }

  lemma Cancels(w: real, x: real)
    requires w > 0.0
    ensures (Times(w, x) + 0.0) / (w + 0.0) == x
  {
    assert w * x / w == x;
  }

  /** A row of weight zero changes no chance. */
  lemma WeightlessRow<T>(table: DropTable<T>, row: Entry<T>, outcome: T)
    requires Valid(table) && row.weight == 0.0 && (row.outcome.Sub? ==> Valid(row.outcome.table))
    ensures var more := DropTable(table.entries + [row]);
            Valid(more) && Probability(more, outcome) == Probability(table, outcome)
  {
    var rows := [row];
    assert rows[1..] == [] && ValidRow(rows[0]) && ValidRows(rows);
    JoinedRowsAreValid(table.entries, rows);
    TotalsAdd(table.entries, rows, row);
    ChancesAdd(table.entries, rows, outcome);
    assert WeightedChance(rows, outcome) == Times(0.0, ChanceBelow(row, outcome)) + WeightedChance(rows[1..], outcome);
    assert WeightedChance(rows, outcome) == 0.0;
  }

  // ----- one roll

  /** A random value draws row i exactly when, times the total weight, it lies past the rows before it and within
      its weight: so on its share of [0, 1). */
  lemma RollDrawsByWeight<T>(table: DropTable<T>, value: real, i: nat)
    requires Valid(table) && 0.0 <= value < 1.0 && i < |table.entries|
    ensures RowAt(table.entries, PointOf(table, value)) == i <==>
            TotalWeight(table.entries[..i]) <= Times(value, TotalWeight(table.entries))
            < TotalWeight(table.entries[..i]) + table.entries[i].weight
  {
    hide TotalWeight;
    TotalIsPositive(table.entries);
    PartOfTotal(value, TotalWeight(table.entries));
    RowChosenExactlyOnItsSpan(table.entries, PointOf(table, value), i);
  }

  lemma PartOfTotal(value: real, total: real)
    requires 0.0 <= value < 1.0 && total > 0.0
    ensures 0.0 <= Times(value, total) < total && value * total == Times(value, total)
  {
    assert (1.0 - value) * total > 0.0;
  }

  // ----- filtering

  /** Filtering goes row by row, in order: a plain outcome stays as it is or goes, a sub-table stays filtered, at its
      row's own weight, if anything is left of it. */
  lemma {:induction false} RowsAreFilteredOneByOne<T>(a: seq<Entry<T>>, b: seq<Entry<T>>, row: Entry<T>,
                                                      keep: T -> bool)
    ensures SurvivingRows(a + b, keep) == SurvivingRows(a, keep) + SurvivingRows(b, keep)
    ensures SurvivingRows([row], keep) ==
            match row.outcome
            case Plain(value) => if keep(value) then [row] else []
            case Sub(table) =>
              if Filtered(table, keep).Some? then [Entry(row.weight, Sub(Filtered(table, keep).value))] else []
  {
    OneRowFiltered(row, keep);
    if a == [] {
      assert a + b == b;
    } else {
      hide SurvivingEntry;
      RowsAreFilteredOneByOne(a[1..], b, row, keep);
      assert (a + b)[1..] == a[1..] + b;
    }
  }

  lemma OneRowFiltered<T>(row: Entry<T>, keep: T -> bool)
    ensures SurvivingRows([row], keep) ==
            if SurvivingEntry(row, keep).Some? then [SurvivingEntry(row, keep).value] else []
  {
    assert [row][1..] == [];
  }
}
