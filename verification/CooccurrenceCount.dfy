/** count_cooccurrence: X^T X summed over chunks of decks, and what the finished counts add up to. */
module CooccurrenceCount {
  import opened Reals
  import opened Sequences
  import opened IncidenceGather
  import opened CooccurrenceWeights
  import opened Cooccurrence

  /** Row i of every field is the snapshot card cardRows[i]. */
  datatype Counts = Counts(cardRows: seq<nat>, pairCounts: seq<seq<real>>, deckCounts: seq<nat>, deckCount: nat)

  datatype Counting = Counted(counts: Counts) | NoDeckSelected | NoCardSelected

  // ----- the weighted incidence and its product with itself

  function Incidence(rows: seq<seq<Entry>>, options: Options, maths: Maths): (incidence: seq<seq<Cell>>)
    requires ValidMaths(maths)
    ensures |incidence| == |rows|
  {
    seq(|rows|, d requires 0 <= d < |rows| => WeightedRow(rows[d], options, maths))
  }

  /** Entry (i, j) of X^T X: over the rows, the product of the row's two values. */
  function ColumnDot(incidence: seq<seq<Cell>>, i: nat, j: nat): real {
    if incidence == [] then 0.0
    else Times(Value(incidence[0], i), Value(incidence[0], j)) + ColumnDot(incidence[1..], i, j)
  }

  function Gram(incidence: seq<seq<Cell>>, width: nat): (grid: seq<seq<real>>)
    ensures IsSquare(grid, width)
  {
    seq(width, i requires 0 <= i < width => seq(width, j requires 0 <= j < width => ColumnDot(incidence, i, j)))
  }

  ghost predicate IsSquare(grid: seq<seq<real>>, width: nat) {
    |grid| == width && forall i :: 0 <= i < width ==> |grid[i]| == width
  }

  function AddRows(a: seq<real>, b: seq<real>): (total: seq<real>)
    requires |a| == |b|
    ensures |total| == |a|
  {
    seq(|a|, j requires 0 <= j < |a| => a[j] + b[j])
  }

  function AddGrids(a: seq<seq<real>>, b: seq<seq<real>>, width: nat): (total: seq<seq<real>>)
    requires IsSquare(a, width) && IsSquare(b, width)
    ensures IsSquare(total, width)
  {
    seq(width, i requires 0 <= i < width => AddRows(a[i], b[i]))
  }

  function WithoutDiagonal(grid: seq<seq<real>>, width: nat): (cleared: seq<seq<real>>)
    requires IsSquare(grid, width)
    ensures IsSquare(cleared, width)
  {
    seq(width, i requires 0 <= i < width =>
      seq(width, j requires 0 <= j < width => if i == j then 0.0 else grid[i][j]))
  }

  lemma {:induction false} ColumnDotConcat(a: seq<seq<Cell>>, b: seq<seq<Cell>>, i: nat, j: nat)
    ensures ColumnDot(a + b, i, j) == ColumnDot(a, i, j) + ColumnDot(b, i, j)
  {
    if a == [] {
      assert a + b == b;
    } else {
      hide Times, Value;
      ColumnDotConcat(a[1..], b, i, j);
      assert (a + b)[1..] == a[1..] + b;
    }
  }

  lemma {:induction false} ColumnDotIsSymmetric(incidence: seq<seq<Cell>>, i: nat, j: nat)
    ensures ColumnDot(incidence, i, j) == ColumnDot(incidence, j, i)
  {
    if incidence != [] {
      ColumnDotIsSymmetric(incidence[1..], i, j);
    }
  }

  lemma GramConcat(a: seq<seq<Cell>>, b: seq<seq<Cell>>, width: nat)
    ensures Gram(a + b, width) == AddGrids(Gram(a, width), Gram(b, width), width)
  {
    hide ColumnDot;
    forall i, j | 0 <= i < width && 0 <= j < width
      ensures Gram(a + b, width)[i][j] == AddRows(Gram(a, width)[i], Gram(b, width)[i])[j]
    {
      ColumnDotConcat(a, b, i, j);
    }
    forall i | 0 <= i < width
      ensures Gram(a + b, width)[i] == AddGrids(Gram(a, width), Gram(b, width), width)[i]
    {
    }
  }

  // ----- deck counts

  predicate HasPositive(row: seq<Entry>, column: nat) {
    exists k :: 0 <= k < |row| && row[k].column == column && row[k].copies > 0
  }

  function Holding(rows: seq<seq<Entry>>, column: nat): nat {
    if rows == [] then 0 else (if HasPositive(rows[0], column) then 1 else 0) + Holding(rows[1..], column)
  }

  function HoldingPerColumn(rows: seq<seq<Entry>>, width: nat): (counts: seq<nat>)
    ensures |counts| == width
  {
    seq(width, j requires 0 <= j < width => Holding(rows, j))
  }

  /** Rows with at least `least` stored values. */
  function RowsWith(rows: seq<seq<Entry>>, least: nat): nat {
    if rows == [] then 0 else (if |rows[0]| >= least then 1 else 0) + RowsWith(rows[1..], least)
  }

  lemma {:induction false} CountsConcat(a: seq<seq<Entry>>, b: seq<seq<Entry>>, column: nat, least: nat)
    ensures Holding(a + b, column) == Holding(a, column) + Holding(b, column)
    ensures RowsWith(a + b, least) == RowsWith(a, least) + RowsWith(b, least)
  {
    if a == [] {
      assert a + b == b;
    } else {
      hide HasPositive;
      CountsConcat(a[1..], b, column, least);
      assert (a + b)[1..] == a[1..] + b;
    }
  }

  function AddCounts(a: seq<nat>, b: seq<nat>): (total: seq<nat>)
    requires |a| == |b|
    ensures |total| == |a|
  {
    seq(|a|, j requires 0 <= j < |a| => a[j] + b[j])
  }

  lemma HoldingConcat(a: seq<seq<Entry>>, b: seq<seq<Entry>>, width: nat)
    ensures HoldingPerColumn(a + b, width) == AddCounts(HoldingPerColumn(a, width), HoldingPerColumn(b, width))
  {
    hide Holding;
    forall j | 0 <= j < width ensures Holding(a + b, j) == Holding(a, j) + Holding(b, j) {
      CountsConcat(a, b, j, 0);
    }
  }

  lemma HeldCardIsCounted(inputs: Inputs, deck: nat, card: nat)
    requires ValidInputs(inputs) && deck + 1 < |inputs.snapshot.deckOffsets|
    requires card < |inputs.cardMask| && inputs.cardMask[card] && Holds(inputs, deck, card)
    ensures HasPositive(KeptRow(inputs, deck), Positions(inputs.cardMask)[card])
  {
    var s, start := inputs.snapshot, inputs.snapshot.deckOffsets[deck];
    assert s.deckOffsets[deck + 1 - 1] == start;
    var slice := Range(start, s.deckOffsets[deck + 1] - start);
    var e :| start <= e < s.deckOffsets[deck + 1] && s.cardIndices[e] == card;
    assert slice[e - start] == e;
    var k := EntryIsKept(s, inputs.cardMask, slice, e - start);
  }

  lemma CountedCardIsHeld(inputs: Inputs, deck: nat, card: nat)
    requires ValidInputs(inputs) && deck + 1 < |inputs.snapshot.deckOffsets|
    requires card < |inputs.cardMask| && inputs.cardMask[card]
    requires HasPositive(KeptRow(inputs, deck), Positions(inputs.cardMask)[card])
    ensures Holds(inputs, deck, card)
  {
    var s, start := inputs.snapshot, inputs.snapshot.deckOffsets[deck];
    assert s.deckOffsets[deck + 1 - 1] == start;
    var row, slice := KeptRow(inputs, deck), Range(start, s.deckOffsets[deck + 1] - start);
    var k :| 0 <= k < |row| && row[k].column == Positions(inputs.cardMask)[card] && row[k].copies > 0;
    var p := KeptCameFrom(s, inputs.cardMask, slice, k);
    KeptBeforeIsInjective(inputs.cardMask, s.cardIndices[slice[p]], card);
    assert start <= slice[p] < s.deckOffsets[deck + 1] && s.cardIndices[slice[p]] == card;
  }

  /** A kept card's column counts a deck exactly when the deck holds the card. */
  lemma ColumnCountsHoldingDecks(inputs: Inputs, deck: nat, card: nat)
    requires ValidInputs(inputs) && deck + 1 < |inputs.snapshot.deckOffsets|
    requires card < |inputs.cardMask| && inputs.cardMask[card]
    ensures HasPositive(KeptRow(inputs, deck), Positions(inputs.cardMask)[card]) <==> Holds(inputs, deck, card)
  {
    hide HasPositive, KeptRow, Holds;
    if Holds(inputs, deck, card) {
      HeldCardIsCounted(inputs, deck, card);
    }
    if HasPositive(KeptRow(inputs, deck), Positions(inputs.cardMask)[card]) {
      CountedCardIsHeld(inputs, deck, card);
    }
  }

  // ----- the kept cards, in snapshot order

  /** Matrix row Positions[card] is the kept card itself. */
  lemma {:induction false} KeptCardAtItsColumn(cardMask: seq<bool>, end: nat, card: nat)
    requires card < end <= |cardMask| && cardMask[card]
    ensures |TrueIndices(cardMask, end)| == KeptBefore(cardMask, end)
    ensures KeptBefore(cardMask, card) < KeptBefore(cardMask, end)
    ensures TrueIndices(cardMask, end)[KeptBefore(cardMask, card)] == card
  {
    KeptCardTotal(cardMask, end - 1);
    if card < end - 1 {
      KeptCardAtItsColumn(cardMask, end - 1, card);
    }
  }

  lemma {:induction false} KeptCardTotal(cardMask: seq<bool>, end: nat)
    requires end <= |cardMask|
    ensures |TrueIndices(cardMask, end)| == KeptBefore(cardMask, end)
  {
    if end > 0 {
      KeptCardTotal(cardMask, end - 1);
    }
  }

  lemma {:induction false} NothingKeptExactlyWhenNoneSelected(cardMask: seq<bool>, end: nat)
    requires end <= |cardMask|
    ensures KeptBefore(cardMask, end) == 0 <==> true !in cardMask[..end]
  {
    if end > 0 {
      NothingKeptExactlyWhenNoneSelected(cardMask, end - 1);
      assert cardMask[..end] == cardMask[..end - 1] + [cardMask[end - 1]];
    }
  }

  // ----- the whole count

  /** What the chunk loop has after the decks so far. */
  ghost predicate IsCountOf(pairCounts: seq<seq<real>>, deckCounts: seq<nat>, deckCount: nat,
                            rows: seq<seq<Entry>>, options: Options, maths: Maths, width: nat)
    requires ValidMaths(maths)
  {
    && pairCounts == Gram(Incidence(rows, options, maths), width)
    && deckCounts == HoldingPerColumn(rows, width)
    && deckCount == RowsWith(rows, 1)
  }

  lemma NothingCounted(options: Options, maths: Maths, width: nat)
    requires ValidMaths(maths)
    ensures IsCountOf(seq(width, _ => seq(width, _ => 0.0)), seq(width, _ => 0), 0, [], options, maths, width)
  {
    var zeros := seq(width, _ => seq(width, _ => 0.0));
    var gram := Gram(Incidence([], options, maths), width);
    forall i | 0 <= i < width ensures zeros[i] == gram[i] {
    }
  }

  lemma OneMoreChunk(pairCounts: seq<seq<real>>, deckCounts: seq<nat>, deckCount: nat, before: seq<seq<Entry>>,
                     copies: seq<seq<Entry>>, options: Options, maths: Maths, width: nat)
    requires ValidMaths(maths) && IsSquare(pairCounts, width) && |deckCounts| == width
    requires IsCountOf(pairCounts, deckCounts, deckCount, before, options, maths, width)
    ensures IsCountOf(AddGrids(pairCounts, Gram(Incidence(copies, options, maths), width), width),
                      AddCounts(deckCounts, HoldingPerColumn(copies, width)),
                      deckCount + RowsWith(copies, 1), before + copies, options, maths, width)
  {
    hide Gram, AddGrids, AddCounts, HoldingPerColumn, RowsWith, WeightedRow;
    assert Incidence(before + copies, options, maths) ==
           Incidence(before, options, maths) + Incidence(copies, options, maths);
    GramConcat(Incidence(before, options, maths), Incidence(copies, options, maths), width);
    HoldingConcat(before, copies, width);
    CountsConcat(before, copies, 0, 1);
  }

  lemma KeptRowsConcat(inputs: Inputs, a: seq<nat>, b: seq<nat>)
    requires ValidInputs(inputs) && AreDecks(inputs.snapshot, a + b)
    ensures AreDecks(inputs.snapshot, a) && AreDecks(inputs.snapshot, b)
    ensures KeptRows(inputs, a + b) == KeptRows(inputs, a) + KeptRows(inputs, b)
  {
    hide KeptRow;
    assert forall k :: 0 <= k < |a| ==> (a + b)[k] == a[k];
    assert forall k :: 0 <= k < |b| ==> (a + b)[|a| + k] == b[k];
  }

  /** The decks of the first k chunks, then of the next one. */
  lemma ChunkedSoFar(inputs: Inputs, chunks: seq<seq<nat>>, k: nat)
    requires ValidInputs(inputs) && Flatten(chunks) == inputs.deckRows && k < |chunks|
    ensures AreDecks(inputs.snapshot, Flatten(chunks[..k])) && AreDecks(inputs.snapshot, chunks[k])
    ensures AreDecks(inputs.snapshot, Flatten(chunks[..k + 1]))
    ensures KeptRows(inputs, Flatten(chunks[..k + 1])) ==
            KeptRows(inputs, Flatten(chunks[..k])) + KeptRows(inputs, chunks[k])
  {
    hide KeptRows, KeptRow, AreDecks;
    FlattenSplit(chunks, k);
    KeptRowsConcat(inputs, Flatten(chunks[..k + 1]), Flatten(chunks[k + 1..]));
    KeptRowsConcat(inputs, Flatten(chunks[..k]), chunks[k]);
  }

  /** The sums over all selected decks at once: what a count must finish with, whatever its chunks. */
  function CountsOf(inputs: Inputs, options: Options, maths: Maths): Counting
    requires ValidInputs(inputs) && ValidMaths(maths)
  {
    if inputs.deckRows == [] then NoDeckSelected
    else if true !in inputs.cardMask then NoCardSelected
    else
      var rows, width := KeptRows(inputs, inputs.deckRows), CardTotal(inputs);
      Counted(Counts(TrueIndices(inputs.cardMask, |inputs.cardMask|),
                     WithoutDiagonal(Gram(Incidence(rows, options, maths), width), width),
                     HoldingPerColumn(rows, width), RowsWith(rows, 1)))
  }

  /** For every chunk size, the finished counts are the sums over the selected decks. */
  method CountCooccurrence(inputs: Inputs, options: Options, decksPerChunk: nat, maths: Maths) returns (r: Counting)
    requires ValidInputs(inputs) && ValidMaths(maths) && decksPerChunk > 0
    ensures r == CountsOf(inputs, options, maths)
  {
    hide *;
    CountsByCase(inputs, options, maths);
    if |inputs.deckRows| == 0 {
      return NoDeckSelected;
    }
    if true !in inputs.cardMask {
      return NoCardSelected;
    }
    var width := CardTotal(inputs);
    var pairCounts := seq(width, _ => seq(width, _ => 0.0));
    var deckCounts: seq<nat> := seq(width, _ => 0);
    var deckCount: nat := 0;
    var chunks := SlicesOf(inputs.deckRows, decksPerChunk);
    NothingCounted(options, maths, width);
    NoRows(inputs, chunks, width);
    for k := 0 to |chunks|
      invariant IsSquare(pairCounts, width) && |deckCounts| == width
      invariant AreDecks(inputs.snapshot, Flatten(chunks[..k]))
      invariant IsCountOf(pairCounts, deckCounts, deckCount, KeptRows(inputs, Flatten(chunks[..k])), options, maths,
                          width)
    {
      ChunkedSoFar(inputs, chunks, k);
      var copies := CopiesOf(inputs, chunks[k]);
      GatheredChunk(inputs, chunks[k]);
      OneMoreChunk(pairCounts, deckCounts, deckCount, KeptRows(inputs, Flatten(chunks[..k])), copies, options, maths,
                   width);
      deckCounts := AddCounts(deckCounts, HoldingPerColumn(copies, width));
      deckCount := deckCount + RowsWith(copies, 1);
      pairCounts := AddGrids(pairCounts, Gram(Incidence(copies, options, maths), width), width);
    }
    assert chunks[..|chunks|] == chunks;
    CountIsComplete(pairCounts, deckCounts, deckCount, KeptRows(inputs, inputs.deckRows), options, maths, width);
    var cardRows := TrueIndices(inputs.cardMask, |inputs.cardMask|);
    r := Counted(Counts(cardRows, WithoutDiagonal(pairCounts, width), deckCounts, deckCount));
  }

  lemma CountsByCase(inputs: Inputs, options: Options, maths: Maths)
    requires ValidInputs(inputs) && ValidMaths(maths)
    ensures inputs.deckRows == [] ==> CountsOf(inputs, options, maths) == NoDeckSelected
    ensures inputs.deckRows != [] && true !in inputs.cardMask ==> CountsOf(inputs, options, maths) == NoCardSelected
    ensures var rows, width := KeptRows(inputs, inputs.deckRows), CardTotal(inputs);
            inputs.deckRows != [] && true in inputs.cardMask ==>
              CountsOf(inputs, options, maths) ==
              Counted(Counts(TrueIndices(inputs.cardMask, |inputs.cardMask|),
                             WithoutDiagonal(Gram(Incidence(rows, options, maths), width), width),
                             HoldingPerColumn(rows, width), RowsWith(rows, 1)))
  {
  }

  lemma CountIsComplete(pairCounts: seq<seq<real>>, deckCounts: seq<nat>, deckCount: nat,
                        rows: seq<seq<Entry>>, options: Options, maths: Maths, width: nat)
    requires ValidMaths(maths) && IsCountOf(pairCounts, deckCounts, deckCount, rows, options, maths, width)
    ensures pairCounts == Gram(Incidence(rows, options, maths), width)
    ensures deckCounts == HoldingPerColumn(rows, width) && deckCount == RowsWith(rows, 1)
  {
  }

  lemma NoRows(inputs: Inputs, chunks: seq<seq<nat>>, width: nat)
    requires ValidInputs(inputs)
    ensures Flatten(chunks[..0]) == [] && AreDecks(inputs.snapshot, []) && KeptRows(inputs, []) == []
    ensures IsSquare(seq(width, _ => seq(width, _ => 0.0)), width)
  {
  }

  // ----- what the finished pair counts are

  /** Symmetric with a zero diagonal. */
  lemma PairCountsAreSymmetric(rows: seq<seq<Entry>>, options: Options, maths: Maths, width: nat, i: nat, j: nat)
    requires ValidMaths(maths) && i < width && j < width
    ensures var pairs := WithoutDiagonal(Gram(Incidence(rows, options, maths), width), width);
            pairs[i][j] == pairs[j][i] && pairs[i][i] == 0.0
  {
    ColumnDotIsSymmetric(Incidence(rows, options, maths), i, j);
  }

  lemma {:induction false} RealSumOfAdded(a: seq<real>, b: seq<real>)
    requires |a| == |b|
    ensures RealSum(AddRows(a, b)) == RealSum(a) + RealSum(b)
  {
    if a == [] {
      assert AddRows(a, b) == [];
    } else {
      RealSumOfAdded(a[1..], b[1..]);
      assert AddRows(a, b)[1..] == AddRows(a[1..], b[1..]);
    }
  }

  lemma {:induction false} GridSumOfAdded(total: seq<seq<real>>, a: seq<seq<real>>, b: seq<seq<real>>)
    requires |total| == |a| == |b| && forall i :: 0 <= i < |a| ==> |a[i]| == |b[i]| && total[i] == AddRows(a[i], b[i])
    ensures GridSum(total) == GridSum(a) + GridSum(b)
  {
    if a != [] {
      GridSumOfAdded(total[1..], a[1..], b[1..]);
      RealSumOfAdded(a[0], b[0]);
    }
  }

  /** Clearing the diagonal of a sum of grids is adding the cleared grids. */
  lemma ClearedSum(a: seq<seq<real>>, b: seq<seq<real>>, width: nat)
    requires IsSquare(a, width) && IsSquare(b, width)
    ensures GridSum(WithoutDiagonal(AddGrids(a, b, width), width)) ==
            GridSum(WithoutDiagonal(a, width)) + GridSum(WithoutDiagonal(b, width))
  {
    var total, left, right := WithoutDiagonal(AddGrids(a, b, width), width), WithoutDiagonal(a, width),
        WithoutDiagonal(b, width);
    forall i | 0 <= i < width ensures total[i] == AddRows(left[i], right[i]) {
    }
    GridSumOfAdded(total, left, right);
  }

  lemma OneRowCleared(cells: seq<Cell>, width: nat)
    ensures WithoutDiagonal(Gram([cells], width), width) == OffDiagonal(Dense(cells, width))
  {
    hide Times, Value;
    var cleared, off := WithoutDiagonal(Gram([cells], width), width), OffDiagonal(Dense(cells, width));
    forall i | 0 <= i < width ensures cleared[i] == off[i] {
      forall j | 0 <= j < width ensures cleared[i][j] == off[i][j] {
        OneRowDot(cells, i, j);
      }
    }
  }

  lemma OneRowDot(cells: seq<Cell>, i: nat, j: nat)
    ensures ColumnDot([cells], i, j) == Times(Value(cells, i), Value(cells, j))
  {
  }

  lemma {:induction false} GridOfZeros(grid: seq<seq<real>>)
    requires forall i, j :: 0 <= i < |grid| && 0 <= j < |grid[i]| ==> grid[i][j] == 0.0
    ensures GridSum(grid) == 0.0
  {
    if grid != [] {
      GridOfZeros(grid[1..]);
      SumOfZeros(grid[0]);
    }
  }

  ghost predicate AreKeptRows(rows: seq<seq<Entry>>, width: nat) {
    forall d :: 0 <= d < |rows| ==> HasAscendingColumns(rows[d], 0, width)
  }

  /** Under INVERSE_SIZE all entries of the pair counts sum to the number of decks keeping two cards or more. */
  lemma {:induction false} InverseSizeCountsPairedDecks(rows: seq<seq<Entry>>, options: Options, maths: Maths,
                                                        width: nat)
    requires ValidMaths(maths) && options.deckSizeRule == INVERSE_SIZE && AreKeptRows(rows, width)
    ensures GridSum(WithoutDiagonal(Gram(Incidence(rows, options, maths), width), width)) == RowsWith(rows, 2) as real
  {
    if rows == [] {
      GridOfZeros(WithoutDiagonal(Gram([], width), width));
    } else {
      OneMoreDeck(rows, options, maths, width);
      InverseSizeCountsPairedDecks(rows[1..], options, maths, width);
    }
  }

  lemma OneMoreDeck(rows: seq<seq<Entry>>, options: Options, maths: Maths, width: nat)
    requires ValidMaths(maths) && options.deckSizeRule == INVERSE_SIZE && AreKeptRows(rows, width) && rows != []
    ensures GridSum(WithoutDiagonal(Gram(Incidence(rows, options, maths), width), width)) ==
            (if |rows[0]| >= 2 then 1.0 else 0.0) +
            GridSum(WithoutDiagonal(Gram(Incidence(rows[1..], options, maths), width), width))
  {
    var first, rest := WeightedRow(rows[0], options, maths), Incidence(rows[1..], options, maths);
    assert HasAscendingColumns(rows[0], 0, width);
    InverseSizeWeighsOne(rows[0], options, maths);
    WeightedRowIsRow(rows[0], options, maths, width);
    hide Gram, WithoutDiagonal, GridSum, WeightedRow, AddGrids;
    assert Incidence(rows, options, maths) == [first] + rest;
    GramConcat([first], rest, width);
    ClearedSum(Gram([first], width), Gram(rest, width), width);
    OneRowCleared(first, width);
    OffDiagonalTotal(first, width);
  }

  /** So the counts a run finishes with, under INVERSE_SIZE, sum to the selected decks that keep two cards or more. */
  lemma PairCountsSumToPairedDecks(inputs: Inputs, options: Options, maths: Maths)
    requires ValidInputs(inputs) && ValidMaths(maths) && options.deckSizeRule == INVERSE_SIZE
    ensures var rows, width := KeptRows(inputs, inputs.deckRows), CardTotal(inputs);
            GridSum(WithoutDiagonal(Gram(Incidence(rows, options, maths), width), width)) == RowsWith(rows, 2) as real
  {
    hide HasAscendingColumns, KeptRow, GridSum, Gram, Incidence, WithoutDiagonal, RowsWith;
    forall d | 0 <= d < |inputs.deckRows|
      ensures HasAscendingColumns(KeptRows(inputs, inputs.deckRows)[d], 0, CardTotal(inputs))
    {
      KeptRowIsRow(inputs, inputs.deckRows[d]);
    }
    InverseSizeCountsPairedDecks(KeptRows(inputs, inputs.deckRows), options, maths, CardTotal(inputs));
  }
}
