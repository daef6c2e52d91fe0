/** The copy-count and deck-size weights of one deck's row, and what they make its pairs add up to. */
module CooccurrenceWeights {
  import opened IncidenceGather
  import opened Reals

  datatype CopyCountRule = PRESENCE | COPIES | LOG_COPIES
  datatype DeckSizeRule = UNIFORM | INVERSE_SIZE
  datatype Options = Options(copyCountRule: CopyCountRule, deckSizeRule: DeckSizeRule)

  /** The two transcendental functions the weights use. */
  datatype Maths = Maths(ln: real -> real, sqrt: real -> real)

  ghost predicate ValidMaths(maths: Maths) {
    && (forall x: real :: x >= 1.0 ==> maths.ln(x) >= 0.0)
    && (forall x: real :: x > 0.0 ==> maths.sqrt(x) > 0.0 && Times(maths.sqrt(x), maths.sqrt(x)) == x)
  }

  // ----- weighted rows

  /** One stored value of a CSR row. */
  datatype Cell = Cell(column: nat, weight: real)

  function CopyWeight(copies: nat, rule: CopyCountRule, maths: Maths): real {
    match rule
    case PRESENCE => 1.0
    case COPIES => copies as real
    case LOG_COPIES => 1.0 + maths.ln(copies as real)
  }

  function CopyWeighted(row: seq<Entry>, rule: CopyCountRule, maths: Maths): (cells: seq<Cell>)
    ensures |cells| == |row|
  {
    seq(|row|, e requires 0 <= e < |row| => Cell(row[e].column, CopyWeight(row[e].copies, rule, maths)))
  }

  function RowSum(cells: seq<Cell>): real {
    if cells == [] then 0.0 else cells[0].weight + RowSum(cells[1..])
  }

  function RowSquares(cells: seq<Cell>): real {
    if cells == [] then 0.0 else Times(cells[0].weight, cells[0].weight) + RowSquares(cells[1..])
  }

  /** The row's weighted pair total. */
  function PairTotal(cells: seq<Cell>): real {
    Times(RowSum(cells), RowSum(cells)) - RowSquares(cells)
  }

  function Inverse(x: real): real
    requires x != 0.0
  {
    1.0 / x
  }

  /** _deck_scales: 1, or 1 / sqrt of the row's weighted pair total, or 0 without a pair. */
  function DeckScale(cells: seq<Cell>, rule: DeckSizeRule, maths: Maths): real
    requires ValidMaths(maths)
  {
    match rule
    case UNIFORM => 1.0
    case INVERSE_SIZE => if PairTotal(cells) > 0.0 then Inverse(maths.sqrt(PairTotal(cells))) else 0.0
  }

  function Scaled(cells: seq<Cell>, scale: real): (scaled: seq<Cell>)
    ensures |scaled| == |cells|
  {
    seq(|cells|, e requires 0 <= e < |cells| => Cell(cells[e].column, Times(scale, cells[e].weight)))
  }

  /** One row of the weighted incidence. */
  function WeightedRow(row: seq<Entry>, options: Options, maths: Maths): seq<Cell>
    requires ValidMaths(maths)
  {
    var cells := CopyWeighted(row, options.copyCountRule, maths);
    Scaled(cells, DeckScale(cells, options.deckSizeRule, maths))
  }

  /** What the row holds in a column: 0 where nothing is stored. */
  function Value(cells: seq<Cell>, column: nat): real {
    if cells == [] then 0.0
    else (if cells[0].column == column then cells[0].weight else 0.0) + Value(cells[1..], column)
  }

  /** A row that stores each column once, each below the matrix width. */
  ghost predicate IsRow(cells: seq<Cell>, width: nat) {
    && (forall e :: 0 <= e < |cells| ==> cells[e].column < width)
    && forall e, f :: 0 <= e < f < |cells| ==> cells[e].column != cells[f].column
  }

  lemma {:induction false} ValueOfStored(cells: seq<Cell>, e: nat)
    requires e < |cells|
    requires forall f, g :: 0 <= f < g < |cells| ==> cells[f].column != cells[g].column
    ensures Value(cells, cells[e].column) == cells[e].weight
  {
    if e == 0 {
      ValueOfAbsent(cells[1..], cells[0].column);
    } else {
      ValueOfStored(cells[1..], e - 1);
      assert cells[0].column != cells[e].column;
    }
  }

  lemma {:induction false} ValueOfAbsent(cells: seq<Cell>, column: nat)
    requires forall e :: 0 <= e < |cells| ==> cells[e].column != column
    ensures Value(cells, column) == 0.0
  {
    if cells != [] {
      ValueOfAbsent(cells[1..], column);
    }
  }

  // ----- the positive pair total of two or more cards

  ghost predicate AllPositive(cells: seq<Cell>) {
    forall e :: 0 <= e < |cells| ==> cells[e].weight > 0.0
  }

  lemma CopyWeightsArePositive(row: seq<Entry>, rule: CopyCountRule, maths: Maths)
    requires ValidMaths(maths) && forall e :: 0 <= e < |row| ==> row[e].copies > 0
    ensures AllPositive(CopyWeighted(row, rule, maths))
  {
    forall e | 0 <= e < |row| ensures CopyWeight(row[e].copies, rule, maths) > 0.0 {
      assert row[e].copies as real >= 1.0;
    }
  }

  lemma {:induction false} RowSumIsPositive(cells: seq<Cell>)
    requires AllPositive(cells)
    ensures RowSum(cells) >= 0.0 && (cells != [] ==> RowSum(cells) > 0.0)
  {
    if cells != [] {
      RowSumIsPositive(cells[1..]);
    }
  }

  lemma SquareOfSum(a: real, b: real)
    ensures Times(a + b, a + b) == Times(a, a) + 2.0 * Times(a, b) + Times(b, b)
  {
  }

  lemma PairTotalStep(cells: seq<Cell>)
    requires cells != []
    ensures PairTotal(cells) == 2.0 * Times(cells[0].weight, RowSum(cells[1..])) + PairTotal(cells[1..])
  {
    hide Times;
    SquareOfSum(cells[0].weight, RowSum(cells[1..]));
  }

  lemma ProductIsPositive(x: real, y: real)
    requires x > 0.0 && y >= 0.0
    ensures Times(x, y) >= 0.0 && (y > 0.0 ==> Times(x, y) > 0.0)
  {
  }

  lemma NoPairAlone(cells: seq<Cell>)
    requires |cells| < 2
    ensures PairTotal(cells) == 0.0
  {
    if |cells| == 1 {
      assert RowSum(cells) == cells[0].weight && RowSquares(cells) == Times(cells[0].weight, cells[0].weight);
    }
  }

  /** A deck has a positive weighted pair total exactly when it keeps two cards or more. */
  lemma {:induction false} PositiveExactlyWithAPair(cells: seq<Cell>)
    requires AllPositive(cells)
    ensures PairTotal(cells) >= 0.0
    ensures PairTotal(cells) > 0.0 <==> |cells| >= 2
  {
    hide Times, PairTotal, RowSum;
    if |cells| < 2 {
      NoPairAlone(cells);
    } else {
      PositiveExactlyWithAPair(cells[1..]);
      PairTotalStep(cells);
      RowSumIsPositive(cells[1..]);
      ProductIsPositive(cells[0].weight, RowSum(cells[1..]));
    }
  }

  // ----- the off-diagonal entries of one row's outer product add up to its pair total

  function RealSum(xs: seq<real>): real {
    if xs == [] then 0.0 else xs[0] + RealSum(xs[1..])
  }

  function GridSum(grid: seq<seq<real>>): real {
    if grid == [] then 0.0 else RealSum(grid[0]) + GridSum(grid[1..])
  }

  function Dense(cells: seq<Cell>, width: nat): (dense: seq<real>)
    ensures |dense| == width
  {
    seq(width, j requires 0 <= j < width => Value(cells, j))
  }

  function Squares(xs: seq<real>): (squares: seq<real>)
    ensures |squares| == |xs|
  {
    seq(|xs|, i requires 0 <= i < |xs| => Times(xs[i], xs[i]))
  }

  lemma {:induction false} SumOfUpdate(xs: seq<real>, k: nat, v: real)
    requires k < |xs|
    ensures RealSum(xs[k := v]) == RealSum(xs) - xs[k] + v
  {
    if k > 0 {
      SumOfUpdate(xs[1..], k - 1, v);
      assert xs[k := v][1..] == xs[1..][k - 1 := v];
    } else {
      assert xs[k := v][1..] == xs[1..];
    }
  }

  lemma {:induction false} SumOfZeros(xs: seq<real>)
    requires forall i :: 0 <= i < |xs| ==> xs[i] == 0.0
    ensures RealSum(xs) == 0.0
  {
    if xs != [] {
      SumOfZeros(xs[1..]);
    }
  }

  lemma DenseStep(cells: seq<Cell>, width: nat)
    requires cells != [] && IsRow(cells, width)
    ensures IsRow(cells[1..], width) && Dense(cells[1..], width)[cells[0].column] == 0.0
    ensures Dense(cells, width) == Dense(cells[1..], width)[cells[0].column := cells[0].weight]
  {
    ValueOfAbsent(cells[1..], cells[0].column);
  }

  /** Summing the dense row is summing the stored values, and likewise for the squares. */
  lemma {:induction false} DenseSums(cells: seq<Cell>, width: nat)
    requires IsRow(cells, width)
    ensures RealSum(Dense(cells, width)) == RowSum(cells)
    ensures RealSum(Squares(Dense(cells, width))) == RowSquares(cells)
  {
    if cells == [] {
      SumOfZeros(Dense(cells, width));
      SumOfZeros(Squares(Dense(cells, width)));
    } else {
      hide Dense, Times, Value, IsRow;
      DenseStep(cells, width);
      var rest, k, v := Dense(cells[1..], width), ColumnIn(cells, width), cells[0].weight;
      DenseSums(cells[1..], width);
      SumOfUpdate(rest, k, v);
      SumOfUpdate(Squares(rest), k, Times(v, v));
      assert Squares(rest[k := v]) == Squares(rest)[k := Times(v, v)];
      Distributes(0.0, 0.0, 0.0);
    }
  }

  function ColumnIn(cells: seq<Cell>, width: nat): (column: nat)
    requires cells != [] && IsRow(cells, width)
    ensures column == cells[0].column && column < width
  {
    cells[0].column
  }

  /** The outer product of a row with itself, diagonal cleared. */
  function OffDiagonal(xs: seq<real>): (grid: seq<seq<real>>)
    ensures |grid| == |xs|
  {
    seq(|xs|, i requires 0 <= i < |xs| => OffDiagonalRow(xs, i))
  }

  function OffDiagonalRow(xs: seq<real>, i: nat): (row: seq<real>)
    requires i < |xs|
    ensures |row| == |xs|
  {
    seq(|xs|, j requires 0 <= j < |xs| => if i == j then 0.0 else Times(xs[i], xs[j]))
  }

  function Multiples(x: real, xs: seq<real>): (multiples: seq<real>)
    ensures |multiples| == |xs|
  {
    seq(|xs|, j requires 0 <= j < |xs| => Times(x, xs[j]))
  }

  lemma Distributes(x: real, a: real, b: real)
    ensures Times(x, a + b) == Times(x, a) + Times(x, b) && Times(a + b, x) == Times(a, x) + Times(b, x)
    ensures Times(x, a - b) == Times(x, a) - Times(x, b)
    ensures Times(x, 0.0) == 0.0 && Times(0.0, x) == 0.0
  {
  }

  lemma {:induction false} SumOfMultiples(x: real, xs: seq<real>)
    ensures RealSum(Multiples(x, xs)) == Times(x, RealSum(xs))
  {
    if xs == [] {
      assert Multiples(x, xs) == [];
    } else {
      hide Times;
      SumOfMultiples(x, xs[1..]);
      assert Multiples(x, xs)[1..] == Multiples(x, xs[1..]);
      Distributes(x, xs[0], RealSum(xs[1..]));
    }
  }

  lemma OffDiagonalRowSum(xs: seq<real>, i: nat)
    requires i < |xs|
    ensures RealSum(OffDiagonalRow(xs, i)) == Times(xs[i], RealSum(xs)) - Times(xs[i], xs[i])
  {
    hide Times;
    SumOfMultiples(xs[i], xs);
    SumOfUpdate(Multiples(xs[i], xs), i, 0.0);
    assert OffDiagonalRow(xs, i) == Multiples(xs[i], xs)[i := 0.0];
  }

  /** A grid whose every row sums as an off-diagonal row does. */
  lemma {:induction false} SumOfRowSums(grid: seq<seq<real>>, xs: seq<real>, total: real)
    requires |grid| == |xs|
    requires forall i :: 0 <= i < |xs| ==> RealSum(grid[i]) == Times(xs[i], total) - Times(xs[i], xs[i])
    ensures GridSum(grid) == Times(RealSum(xs), total) - RealSum(Squares(xs))
  {
    if xs == [] {
      Distributes(total, 0.0, 0.0);
    } else {
      hide Times;
      assert RealSum(grid[0]) == Times(xs[0], total) - Times(xs[0], xs[0]);
      SumOfRowSums(grid[1..], xs[1..], total);
      assert Squares(xs)[1..] == Squares(xs[1..]);
      Distributes(total, xs[0], RealSum(xs[1..]));
    }
  }

  /** The off-diagonal entries a row contributes add up to its pair total. */
  lemma OffDiagonalTotal(cells: seq<Cell>, width: nat)
    requires IsRow(cells, width)
    ensures GridSum(OffDiagonal(Dense(cells, width))) == PairTotal(cells)
  {
    var xs := Dense(cells, width);
    forall i | 0 <= i < |xs|
      ensures RealSum(OffDiagonal(xs)[i]) == Times(xs[i], RealSum(xs)) - Times(xs[i], xs[i])
    {
      OffDiagonalRowSum(xs, i);
    }
    SumOfRowSums(OffDiagonal(xs), xs, RealSum(xs));
    DenseSums(cells, width);
  }

  // ----- INVERSE_SIZE makes every deck with a pair weigh exactly one

  lemma ScaledProduct(scale: real, x: real, y: real)
    ensures Times(Times(scale, x), Times(scale, y)) == Times(Times(scale, scale), Times(x, y))
  {
  }

  lemma {:induction false} ScaledSums(cells: seq<Cell>, scale: real)
    ensures RowSum(Scaled(cells, scale)) == Times(scale, RowSum(cells))
    ensures RowSquares(Scaled(cells, scale)) == Times(Times(scale, scale), RowSquares(cells))
  {
    if cells == [] {
      assert Scaled(cells, scale) == [];
    } else {
      hide Times;
      var w := cells[0].weight;
      ScaledSums(cells[1..], scale);
      assert Scaled(cells, scale)[1..] == Scaled(cells[1..], scale);
      Distributes(scale, w, RowSum(cells[1..]));
      ScaledProduct(scale, w, w);
      Distributes(Times(scale, scale), Times(w, w), RowSquares(cells[1..]));
    }
  }

  lemma ScaledPairTotal(cells: seq<Cell>, scale: real)
    ensures PairTotal(Scaled(cells, scale)) == Times(Times(scale, scale), PairTotal(cells))
  {
    hide Times, RowSum, RowSquares;
    ScaledSums(cells, scale);
    ScaledProduct(scale, RowSum(cells), RowSum(cells));
    Distributes(Times(scale, scale), Times(RowSum(cells), RowSum(cells)), RowSquares(cells));
  }

  lemma InverseRootSquared(root: real, total: real)
    requires root > 0.0 && Times(root, root) == total
    ensures Times(Times(Inverse(root), Inverse(root)), total) == 1.0
  {
    assert Inverse(root) * root == 1.0;
    assert Inverse(root) * Inverse(root) * (root * root) == (Inverse(root) * root) * (Inverse(root) * root);
  }

  /** Scaled by INVERSE_SIZE, a deck's pairs add up to one, or to zero if it keeps fewer than two cards. */
  lemma InverseSizeWeighsOne(row: seq<Entry>, options: Options, maths: Maths)
    requires ValidMaths(maths) && options.deckSizeRule == INVERSE_SIZE
    requires forall e :: 0 <= e < |row| ==> row[e].copies > 0
    ensures PairTotal(WeightedRow(row, options, maths)) == if |row| >= 2 then 1.0 else 0.0
  {
    hide Times, PairTotal;
    var cells := CopyWeighted(row, options.copyCountRule, maths);
    var total := PairTotal(cells);
    CopyWeightsArePositive(row, options.copyCountRule, maths);
    PositiveExactlyWithAPair(cells);
    ScaledPairTotal(cells, DeckScale(cells, INVERSE_SIZE, maths));
    if |row| >= 2 {
      InverseRootSquared(maths.sqrt(total), total);
    } else {
      Distributes(total, 0.0, 0.0);
    }
  }
}
