/** find_neighbours: blocks of confident rows ranked against every confident row, joined into CSR arrays. */
module NeighbourSearch {
  import opened Sequences
  import opened Neighbours

  /** Row r's neighbours are indices[offsets[r]..offsets[r + 1]], with cosines aligned. */
  datatype TeacherNeighbours = TeacherNeighbours(offsets: seq<nat>, indices: seq<int>, cosines: seq<Cosine>)

  // ----- the two array primitives

  /** `top` holds indices of the largest values, in any order. */
  ghost predicate HoldsTheLargest(values: seq<Cosine>, top: seq<nat>) {
    && (forall a :: 0 <= a < |top| ==> top[a] < |values|)
    && (forall a, b :: 0 <= a < b < |top| ==> top[a] != top[b])
    && forall a, i :: 0 <= a < |top| && 0 <= i < |values| && i !in top ==> AtLeast(values[top[a]], values[i])
  }

  /** np.argpartition of the negated values, cut to its first `taken`. */
  method ArgPartition(values: seq<Cosine>, taken: nat) returns (top: seq<nat>)
    requires taken <= |values|
    ensures |top| == taken && HoldsTheLargest(values, top)
  {
    top := [];
    for n := 0 to taken
      invariant |top| == n && HoldsTheLargest(values, top)
    {
      var best := LargestOutside(values, top);
      top := top + [best];
    }
  }

  method LargestOutside(values: seq<Cosine>, top: seq<nat>) returns (best: nat)
    requires |top| < |values| && HoldsTheLargest(values, top)
    ensures best < |values| && best !in top
    ensures forall i :: 0 <= i < |values| && i !in top ==> AtLeast(values[best], values[i])
  {
    var candidate: int := -1;
    for i := 0 to |values|
      invariant -1 <= candidate < i
      invariant candidate >= 0 ==> candidate !in top
      invariant forall j :: 0 <= j < i && j !in top ==> candidate >= 0 && AtLeast(values[candidate], values[j])
    {
      if i !in top && (candidate < 0 || !AtLeast(values[candidate], values[i])) {
        candidate := i;
      }
    }
    SomeIndexIsOutside(|values|, top);
    best := candidate;
  }

  lemma SomeIndexIsOutside(count: nat, top: seq<nat>)
    requires |top| < count && forall a, b :: 0 <= a < b < |top| ==> top[a] != top[b]
    ensures exists i :: 0 <= i < count && i !in top
  {
    var rows: seq<int> := top;
    DistinctHaveTheirLength(rows);
    UpToIsEveryIndex(count);
    if forall i :: 0 <= i < count ==> i in top {
      SubsetIsSmaller(UpTo(count), Elements(rows));
      assert false;
    }
  }

  function UpTo(count: nat): set<int> {
    if count == 0 then {} else UpTo(count - 1) + {count - 1}
  }

  lemma {:induction false} UpToIsEveryIndex(count: nat)
    ensures |UpTo(count)| == count && forall i :: i in UpTo(count) <==> 0 <= i < count
  {
    if count > 0 {
      UpToIsEveryIndex(count - 1);
    }
  }

  /** In a stable descending sort, index i comes before index j. */
  predicate Before(values: seq<Cosine>, i: nat, j: nat)
    requires i < |values| && j < |values|
  {
    AtLeast(values[i], values[j]) && (AtLeast(values[j], values[i]) ==> i < j)
  }

  ghost predicate IsStableOrder(values: seq<Cosine>, order: seq<nat>, count: nat)
    requires count <= |values|
  {
    && |order| == count && (forall a :: 0 <= a < count ==> order[a] < count)
    && (forall i: nat :: i < count ==> i in order)
    && forall a, b :: 0 <= a < b < count ==> Before(values, order[a], order[b])
  }

  /** np.argsort of the negated values, stable. */
  method ArgSortDescending(values: seq<Cosine>) returns (order: seq<nat>)
    ensures IsStableOrder(values, order, |values|)
  {
    order := [];
    for i := 0 to |values|
      invariant IsStableOrder(values, order, i)
    {
      var at := |order|;
      while at > 0 && !AtLeast(values[order[at - 1]], values[i])
        invariant 0 <= at <= |order|
        invariant forall a :: at <= a < |order| ==> Before(values, i, order[a])
      {
        at := at - 1;
      }
      Inserted(values, order, i, at);
      order := order[..at] + [i] + order[at..];
    }
  }

  lemma Inserted(values: seq<Cosine>, order: seq<nat>, i: nat, at: nat)
    requires i < |values| && IsStableOrder(values, order, i) && at <= i
    requires at > 0 ==> AtLeast(values[order[at - 1]], values[i])
    requires forall a :: at <= a < i ==> Before(values, i, order[a])
    ensures IsStableOrder(values, order[..at] + [i] + order[at..], i + 1)
  {
    var after := order[..at] + [i] + order[at..];
    forall j: nat | j < i + 1 ensures j in after {
      if j == i {
        assert after[at] == i;
      } else {
        assert j in order;
        var a :| 0 <= a < i && order[a] == j;
        assert after[if a < at then a else a + 1] == j;
      }
    }
    forall a | 0 <= a < at ensures Before(values, order[a], i) {
      assert a < at - 1 ==> Before(values, order[a], order[at - 1]);
    }
  }

  // ----- one block of rows

  function Similarities(table: Table, row: int, confidentRows: seq<nat>): (similarities: seq<Cosine>)
    ensures |similarities| == |confidentRows|
  {
    seq(|confidentRows|, c requires 0 <= c < |confidentRows| => Similarity(table, row, confidentRows[c]))
  }

  ghost predicate AreConfidentRows(table: Table, confidentRows: seq<nat>) {
    && (forall c :: 0 <= c < |confidentRows| ==> IsConfident(table, confidentRows[c]))
    && (forall c, d :: 0 <= c < d < |confidentRows| ==> confidentRows[c] < confidentRows[d])
    && forall row :: IsConfident(table, row) ==> row in confidentRows
  }

  /** Gather, by the sorted order, the rows of the partitioned top and their cosines. */
  function Ranked(order: seq<nat>, top: seq<nat>, confidentRows: seq<nat>): (rows: seq<int>)
    requires forall a :: 0 <= a < |order| ==> order[a] < |top| && top[order[a]] < |confidentRows|
    ensures |rows| == |order|
  {
    seq(|order|, a requires 0 <= a < |order| => confidentRows[top[order[a]]])
  }

  function Taken(cosines: seq<Cosine>, indices: seq<nat>): (taken: seq<Cosine>)
    requires forall a :: 0 <= a < |indices| ==> indices[a] < |cosines|
    ensures |taken| == |indices|
  {
    seq(|indices|, a requires 0 <= a < |indices| => cosines[indices[a]])
  }

  lemma PositionsAreDistinct(values: seq<Cosine>, order: seq<nat>)
    requires IsStableOrder(values, order, |values|)
    ensures forall a, b :: 0 <= a < b < |order| ==> order[a] != order[b]
  {
  }

  lemma OmittedIsOutsideTop(confidentRows: seq<nat>, top: seq<nat>, order: seq<nat>, rows: seq<int>, c: nat)
    requires forall a :: 0 <= a < |order| ==> order[a] < |top| && top[order[a]] < |confidentRows|
    requires forall t: nat :: t < |top| ==> t in order
    requires rows == Ranked(order, top, confidentRows)
    requires c < |confidentRows| && confidentRows[c] !in rows
    ensures c !in top
  {
    forall t: nat | t < |top| ensures top[t] != c {
      assert t in order;
      var a :| 0 <= a < |order| && order[a] == t;
      assert rows[a] == confidentRows[top[t]];
    }
  }

  /** Partition, sort and gather give the top candidates in descending order. */
  lemma RankedTop(table: Table, row: int, confidentRows: seq<nat>, top: seq<nat>, order: seq<nat>)
    requires AreConfidentRows(table, confidentRows)
    requires HoldsTheLargest(Similarities(table, row, confidentRows), top)
    requires IsStableOrder(Taken(Similarities(table, row, confidentRows), top), order, |top|)
    ensures var rows := Ranked(order, top, confidentRows);
            var cosines := Taken(Taken(Similarities(table, row, confidentRows), top), order);
            AreRanked(table, row, rows, cosines) && NoneBetterOmitted(table, row, rows, cosines)
  {
    var similarities := Similarities(table, row, confidentRows);
    PositionsAreDistinct(Taken(similarities, top), order);
    var rows, cosines := Ranked(order, top, confidentRows), Taken(Taken(similarities, top), order);
    forall a, b | 0 <= a < b < |rows| ensures rows[a] != rows[b] && AtLeast(cosines[a], cosines[b]) {
      assert order[a] != order[b] && Before(Taken(similarities, top), order[a], order[b]);
      assert top[order[a]] != top[order[b]];
    }
    forall other, k | IsConfident(table, other) && other !in rows && 0 <= k < |rows|
      ensures AtLeast(cosines[k], Similarity(table, row, other))
    {
      var c :| 0 <= c < |confidentRows| && confidentRows[c] == other;
      OmittedIsOutsideTop(confidentRows, top, order, rows, c);
      assert AtLeast(similarities[top[order[k]]], similarities[c]);
    }
  }

  /** Nothing confident is omitted when as many are taken as there are. */
  lemma EveryoneIsRanked(table: Table, row: int, confidentRows: seq<nat>, rows: seq<int>, cosines: seq<Cosine>)
    requires AreConfidentRows(table, confidentRows) && AreRanked(table, row, rows, cosines)
    requires |rows| == |confidentRows|
    ensures forall other :: IsConfident(table, other) ==> other in rows
  {
    var confident: seq<int> := confidentRows;
    DistinctHaveTheirLength(rows);
    DistinctHaveTheirLength(confident);
    assert Elements(rows) <= Elements(confident);
    SameSizeSubset(Elements(rows), Elements(confident));
    forall other | IsConfident(table, other) ensures other in rows {
      var c :| 0 <= c < |confidentRows| && confidentRows[c] == other;
      assert confident[c] == other && other in Elements(confident);
    }
  }

  lemma SameSizeSubset(a: set<int>, b: set<int>)
    requires a <= b && |a| == |b|
    ensures a == b
  {
    assert b == a + (b - a) && |b| == |a| + |b - a|;
    assert b - a == {};
    forall x | x in b ensures x in a {
      assert x !in b - a;
    }
  }

  /** _ranked_candidates for one row of the block. */
  method RankRow(table: Table, row: nat, confidentRows: seq<nat>, limit: nat)
    returns (rows: seq<int>, cosines: seq<Cosine>)
    requires AreConfidentRows(table, confidentRows)
    ensures |rows| == limit && IsPaddedRanking(table, row, Min(limit, |confidentRows|), rows, cosines)
    ensures |confidentRows| < limit ==>
              forall other :: IsConfident(table, other) ==> other in rows[..Min(limit, |confidentRows|)]
  {
    var similarities := Similarities(table, row, confidentRows);
    var taken := Min(limit, |confidentRows|);
    var top := ArgPartition(similarities, taken);
    var topCosines := Taken(similarities, top);
    var order := ArgSortDescending(topCosines);
    RankedTop(table, row, confidentRows, top, order);
    var rankedRows, rankedCosines := Ranked(order, top, confidentRows), Taken(topCosines, order);
    if |confidentRows| < limit {
      EveryoneIsRanked(table, row, confidentRows, rankedRows, rankedCosines);
    }
    rows := rankedRows + seq(limit - taken, _ => -1);
    cosines := rankedCosines + seq(limit - taken, _ => NegativeInfinity);
    assert rows[..taken] == rankedRows && cosines[..taken] == rankedCosines;
  }

  // ----- the whole search

  /** Each row's slice: the first `done` confident rows have their neighbours, every other row has none. */
  ghost predicate AreFoundSoFar(table: Table, rule: Rule, confidentRows: seq<nat>, done: nat,
                                rows: seq<seq<int>>, cosines: seq<seq<Cosine>>)
    requires done <= |confidentRows|
  {
    && |rows| == |cosines| == |table.confident|
    && (forall c :: 0 <= c < done && confidentRows[c] < |rows| ==>
          AreNeighbours(table, rule, confidentRows[c], rows[confidentRows[c]], cosines[confidentRows[c]]))
    && forall r :: 0 <= r < |rows| && r !in confidentRows[..done] ==> rows[r] == [] && cosines[r] == []
  }

  lemma NothingFoundYet(table: Table, rule: Rule, confidentRows: seq<nat>)
    requires confidentRows == TrueIndices(table.confident, |table.confident|)
    ensures AreConfidentRows(table, confidentRows)
    ensures var n := |table.confident|;
            && AreFoundSoFar(table, rule, confidentRows, 0, EmptyRows(n), EmptyRows(n))
            && Lengths(EmptyRows<int>(n)) == seq(n, _ => 0)
            && Flatten(EmptyRows<int>(n)) == Flatten<int>([]) && Flatten(EmptyRows<Cosine>(n)) == Flatten<Cosine>([])
  {
    TrueIndicesAreTheSetOnes(table.confident, |table.confident|);
    FlattenEmpties(EmptyRows<int>(|table.confident|));
    FlattenEmpties(EmptyRows<Cosine>(|table.confident|));
  }

  function EmptyRows<T>(n: nat): seq<seq<T>> {
    seq(n, _ => [])
  }

  lemma LengthsOfUpdate<T>(parts: seq<seq<T>>, r: nat, part: seq<T>)
    requires r < |parts|
    ensures Lengths(parts[r := part]) == Lengths(parts)[r := |part|]
  {
  }

  lemma OneMoreRow(table: Table, rule: Rule, confidentRows: seq<nat>, done: nat, rows: seq<seq<int>>,
                   cosines: seq<seq<Cosine>>, found: seq<int>, foundCosines: seq<Cosine>)
    requires AreConfidentRows(table, confidentRows) && done < |confidentRows|
    requires AreFoundSoFar(table, rule, confidentRows, done, rows, cosines)
    requires AreNeighbours(table, rule, confidentRows[done], found, foundCosines)
    ensures var row := confidentRows[done];
            && row < |rows| == |cosines|
            && AreFoundSoFar(table, rule, confidentRows, done + 1, rows[row := found], cosines[row := foundCosines])
            && Flatten(rows[row := found]) == Flatten(rows) + found
            && Flatten(cosines[row := foundCosines]) == Flatten(cosines) + foundCosines
  {
    hide AreNeighbours, Flatten;
    var row := confidentRows[done];
    assert IsConfident(table, row);
    forall q | row <= q < |rows| ensures q !in confidentRows[..done] {
      assert forall c :: 0 <= c < done ==> confidentRows[..done][c] == confidentRows[c] < row;
    }
    FillingAppends(rows, row, found);
    FillingAppends(cosines, row, foundCosines);
    assert confidentRows[..done + 1] == confidentRows[..done] + [row];
    assert forall c :: 0 <= c < done ==> confidentRows[c] != row;
  }

  /** Row r's slice of the CSR arrays: its neighbours if it is confident, empty otherwise. */
  ghost predicate IsRowResult(table: Table, rule: Rule, result: TeacherNeighbours, r: nat) {
    && r + 1 < |result.offsets|
    && result.offsets[r] <= result.offsets[r + 1] <= |result.indices| == |result.cosines|
    && (if IsConfident(table, r)
        then AreNeighbours(table, rule, r, result.indices[result.offsets[r]..result.offsets[r + 1]],
                           result.cosines[result.offsets[r]..result.offsets[r + 1]])
        else result.offsets[r] == result.offsets[r + 1])
  }

  /** What find_neighbours promises of its CSR arrays. */
  ghost predicate IsSearchResult(table: Table, rule: Rule, result: TeacherNeighbours) {
    var n := |table.confident|;
    && |result.offsets| == n + 1 && result.offsets[0] == 0
    && result.offsets[n] == |result.indices| == |result.cosines|
    && forall r :: 0 <= r < n ==> IsRowResult(table, rule, result, r)
  }

  lemma {:induction false} SlicesAreAligned(table: Table, rule: Rule, confidentRows: seq<nat>, rows: seq<seq<int>>,
                                            cosines: seq<seq<Cosine>>, r: nat)
    requires AreConfidentRows(table, confidentRows) && r < |rows|
    requires AreFoundSoFar(table, rule, confidentRows, |confidentRows|, rows, cosines)
    ensures |rows[r]| == |cosines[r]|
    ensures if IsConfident(table, r) then AreNeighbours(table, rule, r, rows[r], cosines[r]) else rows[r] == []
  {
    assert confidentRows[..|confidentRows|] == confidentRows;
    if r in confidentRows {
      var c :| 0 <= c < |confidentRows| && confidentRows[c] == r;
      assert IsConfident(table, confidentRows[c]);
    }
  }

  lemma CsrIsResult(table: Table, rule: Rule, confidentRows: seq<nat>, rows: seq<seq<int>>, cosines: seq<seq<Cosine>>)
    requires AreConfidentRows(table, confidentRows)
    requires AreFoundSoFar(table, rule, confidentRows, |confidentRows|, rows, cosines)
    ensures IsSearchResult(table, rule,
                           TeacherNeighbours([0] + CumulativeSum(0, Lengths(rows)), Flatten(rows), Flatten(cosines)))
  {
    hide AreNeighbours;
    var offsets := [0] + CumulativeSum(0, Lengths(rows));
    var result := TeacherNeighbours(offsets, Flatten(rows), Flatten(cosines));
    forall r | 0 <= r < |rows| ensures |rows[r]| == |cosines[r]| {
      SlicesAreAligned(table, rule, confidentRows, rows, cosines, r);
    }
    assert Lengths(rows) == Lengths(cosines);
    RowsEndAtTheirTotal(rows, offsets);
    RowsEndAtTheirTotal(cosines, offsets);
    forall r | 0 <= r < |rows| ensures IsRowResult(table, rule, result, r) {
      RowsCutBack(rows, offsets, r);
      RowsCutBack(cosines, offsets, r);
      SlicesAreAligned(table, rule, confidentRows, rows, cosines, r);
    }
  }

  /** Whatever the block size, every confident row gets its neighbours and every other row none. */
  method FindNeighbours(table: Table, rule: Rule, rowsPerBlock: nat) returns (result: TeacherNeighbours)
    requires ValidRule(rule) && rowsPerBlock > 0
    ensures IsSearchResult(table, rule, result)
  {
    hide AreNeighbours, IsPaddedRanking, AreFoundSoFar, KeptCount, Flatten, Lengths, IsSearchResult, TrueIndices,
         AreConfidentRows, CumulativeSum;
    var n := |table.confident|;
    var confidentRows := TrueIndices(table.confident, n);
    NothingFoundYet(table, rule, confidentRows);
    var keptPerRow := new nat[n](_ => 0);
    var keptIndices: seq<seq<int>>, keptCosines: seq<seq<Cosine>> := [], [];
    ghost var rows, cosines := EmptyRows<int>(n), EmptyRows<Cosine>(n);
    var start := 0;
    while start < |confidentRows|
      invariant 0 <= start <= |confidentRows|
      invariant AreFoundSoFar(table, rule, confidentRows, start, rows, cosines)
      invariant keptPerRow[..] == Lengths(rows)
      invariant Flatten(keptIndices) == Flatten(rows) && Flatten(keptCosines) == Flatten(cosines)
    {
      var end := Min(start + rowsPerBlock, |confidentRows|);
      for c := start to end
        invariant AreFoundSoFar(table, rule, confidentRows, c, rows, cosines)
        invariant keptPerRow[..] == Lengths(rows)
        invariant Flatten(keptIndices) == Flatten(rows) && Flatten(keptCosines) == Flatten(cosines)
      {
        var row := confidentRows[c];
        var rankedRows, rankedCosines := RankRow(table, row, confidentRows, CandidateLimit(rule));
        var kept := KeptCount(rule, rankedCosines);
        CutIsTheNeighbours(table, rule, row, Min(CandidateLimit(rule), |confidentRows|), rankedRows, rankedCosines);
        OneMoreRow(table, rule, confidentRows, c, rows, cosines, rankedRows[..kept], rankedCosines[..kept]);
        FlattenAppend(keptIndices, rankedRows[..kept]);
        FlattenAppend(keptCosines, rankedCosines[..kept]);
        LengthsOfUpdate(rows, row, rankedRows[..kept]);
        keptPerRow[row] := kept;
        keptIndices := keptIndices + [rankedRows[..kept]];
        keptCosines := keptCosines + [rankedCosines[..kept]];
        rows, cosines := rows[row := rankedRows[..kept]], cosines[row := rankedCosines[..kept]];
      }
      start := end;
    }
    CsrIsResult(table, rule, confidentRows, rows, cosines);
    result := TeacherNeighbours([0] + CumulativeSum(0, keptPerRow[..]), Flatten(keptIndices), Flatten(keptCosines));
  }

  lemma SliceAgrees(table: Table, rule: Rule, a: TeacherNeighbours, b: TeacherNeighbours, r: nat)
    requires IsRowResult(table, rule, a, r) && IsRowResult(table, rule, b, r)
    ensures a.cosines[a.offsets[r]..a.offsets[r + 1]] == b.cosines[b.offsets[r]..b.offsets[r + 1]]
  {
    hide AreNeighbours;
    if IsConfident(table, r) {
      CosinesAreDetermined(table, rule, r,
        a.indices[a.offsets[r]..a.offsets[r + 1]], a.cosines[a.offsets[r]..a.offsets[r + 1]],
        b.indices[b.offsets[r]..b.offsets[r + 1]], b.cosines[b.offsets[r]..b.offsets[r + 1]]);
    }
  }

  /** Two searches, whatever their block sizes, agree on the offsets and the cosines. */
  lemma {:induction false} SearchesAgree(table: Table, rule: Rule, a: TeacherNeighbours, b: TeacherNeighbours, r: nat)
    requires IsSearchResult(table, rule, a) && IsSearchResult(table, rule, b) && r <= |table.confident|
    ensures a.offsets[r] == b.offsets[r] <= |a.cosines| && b.offsets[r] <= |b.cosines|
    ensures a.cosines[..a.offsets[r]] == b.cosines[..b.offsets[r]]
  {
    if r > 0 {
      hide AreNeighbours;
      SearchesAgree(table, rule, a, b, r - 1);
      var last := r - 1;
      assert IsRowResult(table, rule, a, last) && IsRowResult(table, rule, b, last);
      assert a.offsets[last] <= a.offsets[last + 1] && b.offsets[last] <= b.offsets[last + 1];
      SliceAgrees(table, rule, a, b, last);
      assert a.cosines[..a.offsets[r]] == a.cosines[..a.offsets[last]] + a.cosines[a.offsets[last]..a.offsets[r]];
      assert b.cosines[..b.offsets[r]] == b.cosines[..b.offsets[last]] + b.cosines[b.offsets[last]..b.offsets[r]];
    }
  }

  // ----- what each rule leaves in a confident row's slice

  /** The row's slice, read off the table: other confident rows and their cosines to it. */
  lemma SliceHoldsOtherConfidentRows(table: Table, rule: Rule, result: TeacherNeighbours, row: nat)
    requires IsSearchResult(table, rule, result) && row < |table.confident| && table.confident[row]
    ensures row + 1 < |result.offsets|
    ensures result.offsets[row] <= result.offsets[row + 1] <= |result.indices| == |result.cosines|
    ensures var from, to := result.offsets[row], result.offsets[row + 1];
            var rows, cosines := result.indices[from..to], result.cosines[from..to];
            && (forall k :: 0 <= k < |rows| ==>
                  && 0 <= rows[k] < |table.confident| && table.confident[rows[k]]
                  && rows[k] != row && cosines[k] == Finite(table.cosine(row, rows[k])))
            && forall k, l :: 0 <= k < l < |rows| ==>
                 rows[k] != rows[l] && table.cosine(row, rows[k]) >= table.cosine(row, rows[l])
  {
    hide AreNeighbours;
    assert IsRowResult(table, rule, result, row);
    var from, to := result.offsets[row], result.offsets[row + 1];
    NeighboursAreOthers(table, rule, row, result.indices[from..to], result.cosines[from..to]);
  }

  lemma NeighboursAreOthers(table: Table, rule: Rule, row: int, rows: seq<int>, cosines: seq<Cosine>)
    requires AreNeighbours(table, rule, row, rows, cosines)
    ensures |rows| == |cosines|
    ensures forall k :: 0 <= k < |rows| ==>
              && 0 <= rows[k] < |table.confident| && table.confident[rows[k]]
              && rows[k] != row && cosines[k] == Finite(table.cosine(row, rows[k]))
    ensures forall k, l :: 0 <= k < l < |rows| ==>
              rows[k] != rows[l] && table.cosine(row, rows[k]) >= table.cosine(row, rows[l])
  {
    forall k | 0 <= k < |rows|
      ensures rows[k] != row && cosines[k] == Finite(table.cosine(row, rows[k]))
    {
      assert Wants(rule, cosines[k]);
    }
    forall k, l | 0 <= k < l < |rows|
      ensures rows[k] != rows[l] && table.cosine(row, rows[k]) >= table.cosine(row, rows[l])
    {
      assert AtLeast(cosines[k], cosines[l]);
    }
  }

  /** A threshold rule keeps only cosines that reach it, and leaves one out only for as many at least as high. */
  lemma ThresholdKeepsWhatReachesIt(table: Table, minCosine: real, limit: nat, result: TeacherNeighbours, row: nat)
    requires IsSearchResult(table, Threshold(minCosine, limit), result)
    requires row < |table.confident| && table.confident[row]
    ensures row + 1 < |result.offsets|
    ensures result.offsets[row] <= result.offsets[row + 1] <= |result.indices| == |result.cosines|
    ensures var from, to := result.offsets[row], result.offsets[row + 1];
            var rows, cosines := result.indices[from..to], result.cosines[from..to];
            && |rows| == |cosines| <= limit
            && (forall k :: 0 <= k < |cosines| ==> cosines[k].Finite? && cosines[k].value >= minCosine)
            && forall other :: 0 <= other < |table.confident| && table.confident[other] && other != row
                               && table.cosine(row, other) >= minCosine && other !in rows ==>
                 && |rows| == limit
                 && forall k :: 0 <= k < |cosines| ==> cosines[k].value >= table.cosine(row, other)
  {
    hide AreNeighbours;
    assert IsRowResult(table, Threshold(minCosine, limit), result, row);
    var from, to := result.offsets[row], result.offsets[row + 1];
    ThresholdOfNeighbours(table, minCosine, limit, row, result.indices[from..to], result.cosines[from..to]);
  }

  lemma ThresholdOfNeighbours(table: Table, minCosine: real, limit: nat, row: int, rows: seq<int>, cosines: seq<Cosine>)
    requires AreNeighbours(table, Threshold(minCosine, limit), row, rows, cosines)
    ensures |rows| == |cosines| <= limit
    ensures forall k :: 0 <= k < |cosines| ==> cosines[k].Finite? && cosines[k].value >= minCosine
    ensures forall other :: 0 <= other < |table.confident| && table.confident[other] && other != row
                            && table.cosine(row, other) >= minCosine && other !in rows ==>
              && |rows| == limit
              && forall k :: 0 <= k < |cosines| ==> cosines[k].value >= table.cosine(row, other)
  {
    var rule := Threshold(minCosine, limit);
    assert forall k :: 0 <= k < |cosines| ==> Wants(rule, cosines[k]);
    forall other | IsConfident(table, other) && other != row && table.cosine(row, other) >= minCosine && other !in rows
      ensures |rows| == limit
      ensures forall k :: 0 <= k < |cosines| ==> cosines[k].value >= table.cosine(row, other)
    {
      assert Wants(rule, Similarity(table, row, other));
      assert forall k :: 0 <= k < |cosines| ==> AtLeast(cosines[k], Similarity(table, row, other));
    }
  }

  /** A top-k rule keeps k of the other confident rows, or all of them if there are fewer, and none left out is
      more similar. */
  lemma TopKKeepsTheBest(table: Table, k: nat, result: TeacherNeighbours, row: nat)
    requires IsSearchResult(table, TopK(k), result) && row < |table.confident| && table.confident[row]
    ensures row + 1 < |result.offsets|
    ensures result.offsets[row] <= result.offsets[row + 1] <= |result.indices| == |result.cosines|
    ensures var from, to := result.offsets[row], result.offsets[row + 1];
            var rows, cosines := result.indices[from..to], result.cosines[from..to];
            var others := set other | 0 <= other < |table.confident| && table.confident[other] && other != row;
            && |rows| == |cosines| == (if |others| < k then |others| else k)
            && forall other, i :: other in others && other !in rows && 0 <= i < |cosines| ==>
                 cosines[i].Finite? && cosines[i].value >= table.cosine(row, other)
  {
    hide AreNeighbours;
    assert IsRowResult(table, TopK(k), result, row);
    var from, to := result.offsets[row], result.offsets[row + 1];
    TopKOfNeighbours(table, k, row, result.indices[from..to], result.cosines[from..to]);
  }

  lemma TopKOfNeighbours(table: Table, k: nat, row: int, rows: seq<int>, cosines: seq<Cosine>)
    requires AreNeighbours(table, TopK(k), row, rows, cosines)
    ensures var others := set other | 0 <= other < |table.confident| && table.confident[other] && other != row;
            && |rows| == |cosines| == (if |others| < k then |others| else k)
            && forall other, i :: other in others && other !in rows && 0 <= i < |cosines| ==>
                 cosines[i].Finite? && cosines[i].value >= table.cosine(row, other)
  {
    NeighbourCount(table, TopK(k), row, rows, cosines);
    var others := set other | 0 <= other < |table.confident| && table.confident[other] && other != row;
    assert Wanted(table, TopK(k), row) == others;
    forall other, i | other in others && other !in rows && 0 <= i < |cosines|
      ensures cosines[i].Finite? && cosines[i].value >= table.cosine(row, other)
    {
      assert Wants(TopK(k), cosines[i]) && AtLeast(cosines[i], Similarity(table, row, other));
    }
  }
}
