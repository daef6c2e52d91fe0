/** Computing every outcome's chance with an explicit stack, and pulling one outcome. */
module DropTableDraws {
  import opened DropTables
  import opened Reals
  import opened Wrappers

  // ----- outcome_probabilities

  function At<T(==)>(chances: map<T, real>, outcome: T): real {
    if outcome in chances then chances[outcome] else 0.0
  }

  /** The sum of every chance in the map. */
  ghost function Mass<T>(chances: map<T, real>): real
    decreases |chances|
  {
    if chances == map[] then 0.0
    else
      var outcome :| outcome in chances;
      chances[outcome] + Mass(chances - {outcome})
  }

  lemma {:induction false} MassWithout<T>(chances: map<T, real>, outcome: T)
    requires outcome in chances
    ensures Mass(chances) == chances[outcome] + Mass(chances - {outcome})
    decreases |chances|
  {
    var picked :| picked in chances && Mass(chances) == chances[picked] + Mass(chances - {picked});
    if picked != outcome {
      MassWithout(chances - {picked}, outcome);
      MassWithout(chances - {outcome}, picked);
      assert chances - {picked} - {outcome} == chances - {outcome} - {picked};
    }
  }

  lemma MassAfterAdding<T>(chances: map<T, real>, outcome: T, chance: real)
    ensures Mass(chances[outcome := At(chances, outcome) + chance]) == Mass(chances) + chance
  {
    var after := chances[outcome := At(chances, outcome) + chance];
    MassWithout(after, outcome);
    if outcome in chances {
      MassWithout(chances, outcome);
      assert after - {outcome} == chances - {outcome};
    } else {
      assert after - {outcome} == chances;
    }
  }

  /** A table still to be spread over its rows, and the chance of reaching it. */
  type Stack<T> = seq<(DropTable<T>, real)>

  ghost predicate ValidStack<T>(stack: Stack<T>) {
    forall i :: 0 <= i < |stack| ==> Valid(stack[i].0) && stack[i].1 > 0.0
  }

  ghost function StackMass<T>(stack: Stack<T>): real {
    if stack == [] then 0.0 else StackMass(stack[..|stack| - 1]) + stack[|stack| - 1].1
  }

  ghost function StackChance<T>(stack: Stack<T>, outcome: T): real
    requires ValidStack(stack)
  {
    if stack == [] then 0.0
    else
      StackChance(stack[..|stack| - 1], outcome)
      + Times(stack[|stack| - 1].1, Probability(stack[|stack| - 1].0, outcome))
  }

  ghost function TableSize<T>(table: DropTable<T>): nat
    decreases table, 1
  {
    1 + RowsSize(table.entries)
  }

  ghost function RowsSize<T>(rows: seq<Entry<T>>): nat
    decreases rows, 0
  {
    if rows == [] then 0 else RowSize(rows[0]) + RowsSize(rows[1..])
  }

  ghost function RowSize<T>(row: Entry<T>): nat
    decreases row, 2
  {
    if row.outcome.Sub? then TableSize(row.outcome.table) else 0
  }

  ghost function StackSize<T>(stack: Stack<T>): nat {
    if stack == [] then 0 else StackSize(stack[..|stack| - 1]) + TableSize(stack[|stack| - 1].0)
  }

  ghost function Share(reach: real, weight: real, total: real): real
    requires total > 0.0
  {
    reach * weight / total
  }

  /** What the rows of the open table will still hand out in all. */
  ghost function PendingMass<T>(rows: seq<Entry<T>>, reach: real, total: real): real
    requires total > 0.0
  {
    if rows == [] then 0.0 else Share(reach, rows[0].weight, total) + PendingMass(rows[1..], reach, total)
  }

  /** What the rows of the open table will still hand out to one outcome. */
  ghost function PendingChance<T>(rows: seq<Entry<T>>, reach: real, total: real, outcome: T): real
    requires ValidRows(rows) && total > 0.0
  {
    if rows == [] then 0.0
    else
      Portion(Share(reach, rows[0].weight, total), rows[0], outcome)
      + PendingChance(rows[1..], reach, total, outcome)
  }

  ghost function Portion<T>(share: real, row: Entry<T>, outcome: T): real
    requires ValidRow(row)
  {
    match row.outcome
    case Plain(value) => if value == outcome then share else 0.0
    case Sub(table) => Times(share, Probability(table, outcome))
  }

  lemma {:induction false} PendingMassIsShare<T>(rows: seq<Entry<T>>, reach: real, total: real)
    requires total > 0.0
    ensures Times(PendingMass(rows, reach, total), total) == Times(reach, TotalWeight(rows))
  {
    if rows != [] {
      var share := Share(reach, rows[0].weight, total);
      PendingMassIsShare(rows[1..], reach, total);
      AddPortion(reach, rows[0].weight, 1.0, TotalWeight(rows[1..]), share, PendingMass(rows[1..], reach, total), total,
                 TotalWeight(rows), PendingMass(rows, reach, total));
    }
  }

  lemma {:induction false} PendingChanceIsShare<T>(rows: seq<Entry<T>>, reach: real, total: real, outcome: T)
    requires ValidRows(rows) && total > 0.0
    ensures Times(PendingChance(rows, reach, total, outcome), total) == Times(reach, WeightedChance(rows, outcome))
  {
    if rows != [] {
      var portion := FirstPortion(rows, reach, total, outcome);
      PendingChanceIsShare(rows[1..], reach, total, outcome);
      AddPortion(reach, rows[0].weight, ChanceBelow(rows[0], outcome), WeightedChance(rows[1..], outcome),
                 portion, PendingChance(rows[1..], reach, total, outcome), total,
                 WeightedChance(rows, outcome), PendingChance(rows, reach, total, outcome));
    }
  }

  lemma FirstPortion<T>(rows: seq<Entry<T>>, reach: real, total: real, outcome: T) returns (portion: real)
    requires rows != [] && ValidRows(rows) && total > 0.0
    ensures portion == Share(reach, rows[0].weight, total) * ChanceBelow(rows[0], outcome)
    ensures PendingChance(rows, reach, total, outcome) == portion + PendingChance(rows[1..], reach, total, outcome)
  {
    var share := Share(reach, rows[0].weight, total);
    portion := Portion(share, rows[0], outcome);
    PortionIsProduct(share, rows[0], outcome);
  }

  lemma PortionIsProduct<T>(share: real, row: Entry<T>, outcome: T)
    requires ValidRow(row)
    ensures Portion(share, row, outcome) == share * ChanceBelow(row, outcome)
  {
  }

  lemma AddPortion(reach: real, w: real, c: real, rest: real, portion: real, pending: real, total: real,
                   weighted: real, all: real)
    requires total > 0.0 && portion == Share(reach, w, total) * c && Times(pending, total) == Times(reach, rest)
    requires weighted == w * c + rest && all == portion + pending
    ensures Times(all, total) == Times(reach, weighted)
  {
    var share := Share(reach, w, total);
    assert share * total == reach * w;
    assert share * c * total == reach * w * c;
  }

  /** Opening a table hands out exactly the chance of reaching it... */
  lemma OpenedTableMass<T>(table: DropTable<T>, reach: real)
    requires Valid(table)
    ensures TotalWeight(table.entries) > 0.0
    ensures PendingMass(table.entries, reach, TotalWeight(table.entries)) == reach
  {
    TotalIsPositive(table.entries);
    var total := TotalWeight(table.entries);
    PendingMassIsShare(table.entries, reach, total);
    SameQuotient(PendingMass(table.entries, reach, total), reach, total);
  }

  /** ... split over the outcomes as the table's probabilities say. */
  lemma OpenedTableChance<T>(table: DropTable<T>, reach: real, outcome: T)
    requires Valid(table) && TotalWeight(table.entries) > 0.0
    ensures PendingChance(table.entries, reach, TotalWeight(table.entries), outcome) ==
            Times(reach, Probability(table, outcome))
  {
    var total, chance := TotalWeight(table.entries), WeightedChance(table.entries, outcome);
    PendingChanceIsShare(table.entries, reach, total, outcome);
    CancelTotal(PendingChance(table.entries, reach, total, outcome), reach, chance, Probability(table, outcome), total);
  }

  lemma SameQuotient(x: real, y: real, z: real)
    requires z > 0.0 && x * z == y * z
    ensures x == y
  {
  }

  lemma CancelTotal(pending: real, reach: real, chance: real, quotient: real, total: real)
    requires total > 0.0 && Times(pending, total) == Times(reach, chance) && quotient == chance / total
    ensures pending == Times(reach, quotient)
  {
    assert quotient * total == chance;
    assert (reach * quotient) * total == pending * total;
    SameQuotient(reach * quotient, pending, total);
  }

  /** What is left to hand out: the result, the tables on the stack, and the rows of the table now open. */
  datatype Spread<T> = Spread(result: map<T, real>, stack: Stack<T>, rows: seq<Entry<T>>, reach: real, total: real)

  ghost predicate ValidSpread<T>(s: Spread<T>) {
    && ValidStack(s.stack) && ValidRows(s.rows) && s.reach > 0.0 && s.total > 0.0
    && (forall outcome :: outcome in s.result ==> s.result[outcome] > 0.0)
  }

  ghost predicate SpreadsAll<T>(s: Spread<T>)
    requires s.total > 0.0
  {
    Mass(s.result) + StackMass(s.stack) + PendingMass(s.rows, s.reach, s.total) == 1.0
  }

  ghost predicate SpreadsChance<T>(s: Spread<T>, self: DropTable<T>, outcome: T)
    requires ValidSpread(s) && Valid(self)
  {
    Probability(self, outcome) ==
    At(s.result, outcome) + StackChance(s.stack, outcome) + PendingChance(s.rows, s.reach, s.total, outcome)
  }

  ghost predicate Accounts<T(!new)>(s: Spread<T>, self: DropTable<T>) {
    Valid(self) && ValidSpread(s) && SpreadsAll(s) && forall outcome :: SpreadsChance(s, self, outcome)
  }

  /** The spread after popping the top table of the stack. */
  ghost function Opened<T>(s: Spread<T>): Spread<T>
    requires s.stack != []
  {
    var (table, reach) := s.stack[|s.stack| - 1];
    Spread(s.result, s.stack[..|s.stack| - 1], table.entries, reach, TotalWeight(table.entries))
  }

  lemma OpenedAccounts<T(!new)>(s: Spread<T>, self: DropTable<T>)
    requires s.stack != [] && s.rows == [] && Accounts(s, self)
    ensures Accounts(Opened(s), self) && Opened(s).total > 0.0
  {
    var (table, reach) := s.stack[|s.stack| - 1];
    OpenedTableMass(table, reach);
    forall outcome ensures SpreadsChance(Opened(s), self, outcome) {
      assert SpreadsChance(s, self, outcome);
      OpenedTableChance(table, reach, outcome);
    }
  }

  /** The spread once every row of the open table is handed out. */
  ghost function Closed<T>(s: Spread<T>): Spread<T> {
    s.(rows := [], reach := 1.0, total := 1.0)
  }

  lemma ClosedAccounts<T(!new)>(s: Spread<T>, self: DropTable<T>)
    requires s.rows == [] && Accounts(s, self)
    ensures Accounts(Closed(s), self)
  {
    forall outcome ensures SpreadsChance(Closed(s), self, outcome) {
      assert SpreadsChance(s, self, outcome);
    }
  }

  lemma SkippedAccounts<T(!new)>(s: Spread<T>, self: DropTable<T>)
    requires s.rows != [] && s.rows[0].weight <= 0.0 && Accounts(s, self)
    ensures Accounts(s.(rows := s.rows[1..]), self)
  {
    assert ValidRow(s.rows[0]);
    assert Share(s.reach, s.rows[0].weight, s.total) == 0.0;
    forall outcome ensures SpreadsChance(s.(rows := s.rows[1..]), self, outcome) {
      assert SpreadsChance(s, self, outcome);
      PortionIsProduct(0.0, s.rows[0], outcome);
    }
  }

  ghost function ShareOfFirst<T>(s: Spread<T>): real
    requires s.rows != [] && s.total > 0.0
  {
    Share(s.reach, s.rows[0].weight, s.total)
  }

  lemma ShareIsPositive(reach: real, w: real, total: real)
    requires reach > 0.0 && w > 0.0 && total > 0.0
    ensures Share(reach, w, total) > 0.0
  {
    assert reach * w > 0.0;
  }

  /** The first row's share goes to its plain outcome. */
  ghost function Given<T>(s: Spread<T>, value: T): Spread<T>
    requires s.rows != [] && s.total > 0.0
  {
    s.(result := s.result[value := At(s.result, value) + ShareOfFirst(s)], rows := s.rows[1..])
  }

  lemma GivenAccounts<T(!new)>(s: Spread<T>, self: DropTable<T>, value: T)
    requires s.rows != [] && s.rows[0].weight > 0.0 && s.rows[0].outcome == Plain(value) && Accounts(s, self)
    ensures Accounts(Given(s, value), self)
  {
    ShareIsPositive(s.reach, s.rows[0].weight, s.total);
    MassAfterAdding(s.result, value, ShareOfFirst(s));
    forall outcome ensures SpreadsChance(Given(s, value), self, outcome) {
      assert SpreadsChance(s, self, outcome);
    }
  }

  /** The first row's share goes to its sub-table, pushed on the stack. */
  ghost function Pushed<T>(s: Spread<T>, table: DropTable<T>): Spread<T>
    requires s.rows != [] && s.total > 0.0
  {
    s.(stack := s.stack + [(table, ShareOfFirst(s))], rows := s.rows[1..])
  }

  lemma PushedAccounts<T(!new)>(s: Spread<T>, self: DropTable<T>, table: DropTable<T>)
    requires s.rows != [] && s.rows[0].weight > 0.0 && s.rows[0].outcome == Sub(table) && Accounts(s, self)
    ensures Accounts(Pushed(s, table), self)
  {
    var after := Pushed(s, table);
    ShareIsPositive(s.reach, s.rows[0].weight, s.total);
    assert ValidRow(s.rows[0]);
    assert after.stack[..|after.stack| - 1] == s.stack;
    forall outcome ensures SpreadsChance(after, self, outcome) {
      assert SpreadsChance(s, self, outcome);
    }
  }

  lemma InitialAccounts<T(!new)>(self: DropTable<T>)
    requires Valid(self)
    ensures Accounts(Spread(map[], [(self, 1.0)], [], 1.0, 1.0), self)
  {
    var stack := [(self, 1.0)];
    assert stack[..0] == [];
    forall outcome ensures SpreadsChance(Spread(map[], stack, [], 1.0, 1.0), self, outcome) {
      assert StackChance(stack, outcome) == StackChance([], outcome) + Times(1.0, Probability(self, outcome));
    }
  }

  lemma FinalAccounts<T(!new)>(self: DropTable<T>, result: map<T, real>)
    requires Accounts(Spread(result, [], [], 1.0, 1.0), self)
    ensures Mass(result) == 1.0
    ensures forall outcome :: outcome in result <==> Reaches(self, outcome)
    ensures forall outcome :: outcome in result ==> result[outcome] == Probability(self, outcome)
  {
    forall outcome
      ensures outcome in result <==> Reaches(self, outcome)
      ensures outcome in result ==> result[outcome] == Probability(self, outcome)
    {
      PositiveExactlyWhenReachable(self, outcome);
      assert SpreadsChance(Spread(result, [], [], 1.0, 1.0), self, outcome);
    }
  }

  /** Every reachable outcome with its chance; the chances sum to exactly 1. */
  method OutcomeProbabilities<T(==, !new)>(self: DropTable<T>) returns (result: map<T, real>)
    requires Valid(self)
    ensures forall outcome :: outcome in result <==> Reaches(self, outcome)
    ensures forall outcome :: outcome in result ==> result[outcome] == Probability(self, outcome)
    ensures Mass(result) == 1.0
  {
    hide Accounts;
    result := map[];
    var stack: Stack<T> := [(self, 1.0)];
    InitialAccounts(self);
    while stack != []
      invariant Accounts(Spread(result, stack, [], 1.0, 1.0), self)
      decreases StackSize(stack)
    {
      ghost var size := StackSize(stack);
      OpenedAccounts(Spread(result, stack, [], 1.0, 1.0), self);
      var (table, reach) := stack[|stack| - 1];
      stack := stack[..|stack| - 1];
      var total := TotalWeight(table.entries);
      assert table.entries[0..] == table.entries;
      for i := 0 to |table.entries|
        invariant total > 0.0 && Accounts(Spread(result, stack, table.entries[i..], reach, total), self)
        invariant StackSize(stack) + RowsSize(table.entries[i..]) < size
      {
        ghost var s := Spread(result, stack, table.entries[i..], reach, total);
        var entry := table.entries[i];
        assert s.rows[0] == entry && s.rows[1..] == table.entries[i + 1..];
        if entry.weight <= 0.0 {
          SkippedAccounts(s, self);
          continue;
        }
        var chance := reach * entry.weight / total;
        assert chance == ShareOfFirst(s);
        match entry.outcome {
          case Sub(subTable) =>
            PushedAccounts(s, self, subTable);
            stack := stack + [(subTable, chance)];
            assert stack[..|stack| - 1] == s.stack;
            assert Pushed(s, subTable) == Spread(result, stack, table.entries[i + 1..], reach, total);
          case Plain(value) =>
            GivenAccounts(s, self, value);
            result := result[value := At(result, value) + chance];
            assert Given(s, value).result == result;
            assert Given(s, value) == Spread(result, stack, table.entries[i + 1..], reach, total);
        }
      }
      assert table.entries[|table.entries|..] == [];
      ClosedAccounts(Spread(result, stack, [], reach, total), self);
    }
    FinalAccounts(self, result);
  }

  // ----- _entry_at and pull

  /** The row whose span of the running total holds point; past the end, the last positive row. */
  function RowAt<T>(rows: seq<Entry<T>>, point: real): (i: nat)
    requires HasPositive(rows)
    ensures i < |rows|
  {
    if rows[0].weight > 0.0 && (point < rows[0].weight || !HasPositive(rows[1..])) then 0
    else if rows[0].weight <= 0.0 then 1 + RowAt(rows[1..], point)
    else 1 + RowAt(rows[1..], point - rows[0].weight)
  }

  lemma PrefixTotal<T>(rows: seq<Entry<T>>, i: nat)
    requires i < |rows|
    ensures TotalWeight(rows[..i + 1]) == rows[0].weight + TotalWeight(rows[1..][..i])
  {
    assert rows[..i + 1][1..] == rows[1..][..i];
  }

  lemma {:induction false} PrefixIsNotNegative<T>(rows: seq<Entry<T>>, i: nat)
    requires ValidRows(rows) && i <= |rows|
    ensures TotalWeight(rows[..i]) >= 0.0
  {
    if i > 0 {
      assert ValidRow(rows[0]);
      PrefixTotal(rows, i - 1);
      PrefixIsNotNegative(rows[1..], i - 1);
    }
  }

  /** Row i is chosen exactly for the points of a span as long as its weight, so exactly on its share of the total. */
  lemma {:induction false} RowChosenExactlyOnItsSpan<T>(rows: seq<Entry<T>>, point: real, i: nat)
    requires ValidRows(rows) && HasPositive(rows) && i < |rows|
    requires 0.0 <= point < TotalWeight(rows)
    ensures RowAt(rows, point) == i <==>
            TotalWeight(rows[..i]) <= point < TotalWeight(rows[..i]) + rows[i].weight
  {
    var first := rows[0].weight;
    assert ValidRow(rows[0]);
    TotalIsPositive(rows[1..]);
    if i > 0 {
      PrefixTotal(rows, i - 1);
      PrefixIsNotNegative(rows[1..], i - 1);
    }
    if point >= first {
      if i > 0 {
        RowChosenExactlyOnItsSpan(rows[1..], point - first, i - 1);
      }
    }
  }

  /** At or past the end of the last span, the last row with a positive weight is chosen. */
  lemma {:induction false} PastTheEndChoosesLastPositive<T>(rows: seq<Entry<T>>, point: real)
    requires ValidRows(rows) && HasPositive(rows) && point >= TotalWeight(rows)
    ensures rows[RowAt(rows, point)].weight > 0.0
    ensures forall j :: RowAt(rows, point) < j < |rows| ==> rows[j].weight == 0.0
  {
    assert ValidRow(rows[0]);
    TotalIsPositive(rows[1..]);
    if HasPositive(rows[1..]) {
      PastTheEndChoosesLastPositive(rows[1..], point - rows[0].weight);
      assert forall j :: 0 < j < |rows| ==> rows[j] == rows[1..][j - 1];
    } else {
      NothingPositiveIsAllZero(rows[1..]);
      assert forall j :: 0 < j < |rows| ==> rows[j] == rows[1..][j - 1];
    }
  }

  lemma {:induction false} NothingPositiveIsAllZero<T>(rows: seq<Entry<T>>)
    requires ValidRows(rows) && !HasPositive(rows)
    ensures forall j :: 0 <= j < |rows| ==> rows[j].weight == 0.0
  {
    if rows != [] {
      assert ValidRow(rows[0]);
      NothingPositiveIsAllZero(rows[1..]);
      assert forall j :: 0 < j < |rows| ==> rows[j] == rows[1..][j - 1];
    }
  }

  lemma {:induction false} ChosenRowIsPositive<T>(rows: seq<Entry<T>>, point: real)
    requires HasPositive(rows)
    ensures rows[RowAt(rows, point)].weight > 0.0
  {
    if !(rows[0].weight > 0.0 && (point < rows[0].weight || !HasPositive(rows[1..]))) {
      if rows[0].weight <= 0.0 {
        ChosenRowIsPositive(rows[1..], point);
      } else {
        ChosenRowIsPositive(rows[1..], point - rows[0].weight);
      }
    }
  }

  method EntryAt<T>(table: DropTable<T>, point: real) returns (entry: Entry<T>)
    requires HasPositive(table.entries)
    ensures entry == table.entries[RowAt(table.entries, point)]
    ensures entry.weight > 0.0
  {
    var rows := table.entries;
    var left := point;
    var lastPositive: Option<Entry<T>> := None;
    ghost var chosen := RowAt(rows, point);
    ChosenRowIsPositive(rows, point);
    assert rows[0..] == rows;
    for i := 0 to |rows|
      invariant lastPositive.None? ==> HasPositive(rows[i..])
      invariant HasPositive(rows[i..]) ==> chosen == i + RowAt(rows[i..], left)
      invariant !HasPositive(rows[i..]) ==> chosen < i && lastPositive == Some(rows[chosen])
    {
      assert rows[i..][1..] == rows[i + 1..];
      if rows[i].weight <= 0.0 {
        continue;
      }
      lastPositive := Some(rows[i]);
      if left < rows[i].weight {
        return rows[i];
      }
      left := left - rows[i].weight;
    }
    return lastPositive.value;
  }

  lemma {:induction false} RowIsValid<T>(rows: seq<Entry<T>>, i: nat)
    requires ValidRows(rows) && i < |rows|
    ensures ValidRow(rows[i]) && (rows[i].outcome.Sub? ==> Valid(rows[i].outcome.table))
  {
    if i > 0 {
      RowIsValid(rows[1..], i - 1);
    } else {
      assert ValidRow(rows[0]);
    }
  }

  /** A random value in [0, 1) scaled to the table's total weight. */
  function PointOf<T>(table: DropTable<T>, value: real): real {
    value * TotalWeight(table.entries)
  }

  /** The row drawn by a random value in [0, 1). */
  ghost function DrawnRow<T>(table: DropTable<T>, value: real): (row: Entry<T>)
    requires Valid(table)
    ensures ValidRow(row) && (row.outcome.Sub? ==> Valid(row.outcome.table))
    ensures row in table.entries && row.weight > 0.0
  {
    var i := RowAt(table.entries, PointOf(table, value));
    RowIsValid(table.entries, i);
    ChosenRowIsPositive(table.entries, PointOf(table, value));
    table.entries[i]
  }

  /** What pull returns when the generator's values from level on are draws(level), draws(level + 1), ... */
  ghost function Pulled<T>(table: DropTable<T>, draws: nat -> real, level: nat): T
    requires Valid(table)
    decreases table
  {
    match DrawnRow(table, draws(level)).outcome
    case Plain(value) => value
    case Sub(subTable) => Pulled(subTable, draws, level + 1)
  }

  method Pull<T>(self: DropTable<T>, draws: nat -> real) returns (outcome: T, levels: nat)
    requires Valid(self)
    ensures outcome == Pulled(self, draws, 0)
    ensures Reaches(self, outcome)
  {
    var table := self;
    levels := 0;
    while true
      invariant Valid(table) && Pulled(table, draws, levels) == Pulled(self, draws, 0)
      decreases table
    {
      var entry := EntryAt(table, PointOf(table, draws(levels)));
      assert entry == DrawnRow(table, draws(levels));
      levels := levels + 1;
      match entry.outcome {
        case Plain(value) =>
          PulledIsReachable(self, draws, 0);
          return value, levels;
        case Sub(subTable) =>
          table := subTable;
      }
    }
  }

  lemma {:induction false} RowsReachThroughARow<T>(rows: seq<Entry<T>>, outcome: T)
    ensures RowsReach(rows, outcome) <==> exists i :: 0 <= i < |rows| && RowReaches(rows[i], outcome)
  {
    if rows != [] {
      RowsReachThroughARow(rows[1..], outcome);
      assert forall i :: 0 <= i < |rows| - 1 ==> rows[1..][i] == rows[i + 1];
      assert forall i :: 0 < i < |rows| ==> rows[i] == rows[1..][i - 1];
    }
  }

  lemma {:induction false} PulledIsReachable<T>(table: DropTable<T>, draws: nat -> real, level: nat)
    requires Valid(table)
    ensures Reaches(table, Pulled(table, draws, level))
    decreases table
  {
    var row := DrawnRow(table, draws(level));
    if row.outcome.Sub? {
      PulledIsReachable(row.outcome.table, draws, level + 1);
    }
    var i: nat :| i < |table.entries| && table.entries[i] == row;
    RowsReachThroughARow(table.entries, Pulled(table, draws, level));
    assert RowReaches(table.entries[i], Pulled(table, draws, level));
  }

  ghost predicate AreRandomValues(draws: nat -> real) {
    forall level: nat :: 0.0 <= draws(level) < 1.0
  }

  lemma {:induction false} PulledReadsLaterDraws<T>(table: DropTable<T>, a: nat -> real, b: nat -> real, level: nat)
    requires Valid(table) && forall n: nat :: n >= level ==> a(n) == b(n)
    ensures Pulled(table, a, level) == Pulled(table, b, level)
    decreases table
  {
    var row := DrawnRow(table, a(level));
    if row.outcome.Sub? {
      PulledReadsLaterDraws(row.outcome.table, a, b, level + 1);
    }
  }

  lemma {:induction false} DrawsThatReach<T>(table: DropTable<T>, outcome: T, level: nat) returns (draws: nat -> real)
    requires Valid(table) && Reaches(table, outcome)
    ensures AreRandomValues(draws) && Pulled(table, draws, level) == outcome
    decreases table
  {
    RowsReachThroughARow(table.entries, outcome);
    var i: nat :| i < |table.entries| && RowReaches(table.entries[i], outcome);
    var value := ValueThatDraws(table, i);
    var row := DrawnRow(table, value);
    var later: nat -> real := (n: nat) => 0.0;
    if row.outcome.Sub? {
      later := DrawsThatReach(row.outcome.table, outcome, level + 1);
    }
    draws := (n: nat) => if n == level then value else later(n);
    assert DrawnRow(table, draws(level)) == row;
    if row.outcome.Sub? {
      PulledReadsLaterDraws(row.outcome.table, draws, later, level + 1);
    }
  }

  /** A positive row is drawn by the value at the start of its span. */
  lemma ValueThatDraws<T>(table: DropTable<T>, i: nat) returns (value: real)
    requires Valid(table) && i < |table.entries| && table.entries[i].weight > 0.0
    ensures 0.0 <= value < 1.0 && DrawnRow(table, value) == table.entries[i]
  {
    var start, total := TotalWeight(table.entries[..i]), TotalWeight(table.entries);
    TotalIsPositive(table.entries);
    PrefixIsNotNegative(table.entries, i);
    SpanFits(table.entries, i);
    value := QuotientBelowOne(start, total);
    assert PointOf(table, value) == start;
    RowChosenExactlyOnItsSpan(table.entries, start, i);
  }

  lemma QuotientBelowOne(x: real, y: real) returns (q: real)
    requires 0.0 <= x < y
    ensures 0.0 <= q < 1.0 && q * y == x
  {
    q := x / y;
    assert q * y == x;
  }

  lemma {:induction false} SpanFits<T>(rows: seq<Entry<T>>, i: nat)
    requires ValidRows(rows) && i < |rows|
    ensures TotalWeight(rows[..i]) + rows[i].weight <= TotalWeight(rows)
  {
    if i == 0 {
      TotalIsPositive(rows[1..]);
    } else {
      PrefixTotal(rows, i - 1);
      SpanFits(rows[1..], i - 1);
    }
  }

  /** Pull returns exactly the outcomes of positive chance. */
  lemma PullReturnsExactlyThePossible<T>(table: DropTable<T>, outcome: T)
    requires Valid(table)
    ensures Probability(table, outcome) > 0.0 <==>
            exists draws :: AreRandomValues(draws) && Pulled(table, draws, 0) == outcome
  {
    PositiveExactlyWhenReachable(table, outcome);
    if Reaches(table, outcome) {
      var draws := DrawsThatReach(table, outcome, 0);
    }
    if draws :| AreRandomValues(draws) && Pulled(table, draws, 0) == outcome {
      PulledIsReachable(table, draws, 0);
    }
  }
}
