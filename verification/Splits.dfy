/** Train/test/validation ratios and the index ranges they cut a collection into. */
module Splits {
  import opened Reals
  import opened Sequences
  import opened Wrappers

  datatype Range = Range(start: int, end: int)

  /** int(x): toward zero. */
  function Truncate(x: real): int {
    if x >= 0.0 then x.Floor else -((-x).Floor)
  }

  function Over(x: real, y: real): real
    requires y != 0.0
  {
    x / y
  }

  function Share(ratio: real, size: nat): int {
    Truncate(Times(ratio, size as real))
  }

  function RatioSum(ratios: seq<real>, k: nat): real
    requires k <= |ratios|
  {
    if k == 0 then 0.0 else RatioSum(ratios, k - 1) + ratios[k - 1]
  }

  /** Where the first k splits end, before any leftover. */
  function Boundary(ratios: seq<real>, size: nat, k: nat): int
    requires k <= |ratios|
  {
    if k == 0 then 0 else Boundary(ratios, size, k - 1) + Share(ratios[k - 1], size)
  }

  /** Split k's range; the last split takes what rounding left over. */
  function SplitRange(ratios: seq<real>, size: nat, k: nat): Range
    requires k < |ratios|
  {
    var end := Boundary(ratios, size, k + 1);
    Range(Boundary(ratios, size, k), if k == |ratios| - 1 && end < size then size else end)
  }

  function SplitRanges(ratios: seq<real>, size: nat): (ranges: seq<Range>)
    ensures |ranges| == |ratios|
  {
    seq(|ratios|, k requires 0 <= k < |ratios| => SplitRange(ratios, size, k))
  }

  /** get_split_indices; None is the IndexError of a spec without splits. */
  method GetSplitIndices(ratios: seq<real>, size: nat) returns (result: Option<seq<Range>>)
    ensures result == if ratios == [] then None else Some(SplitRanges(ratios, size))
  {
    var ranges: seq<Range> := [];
    var start := 0;
    for k := 0 to |ratios|
      invariant |ranges| == k && start == Boundary(ratios, size, k)
      invariant forall j :: 0 <= j < k ==> ranges[j] == Range(Boundary(ratios, size, j), Boundary(ratios, size, j + 1))
    {
      var end := start + Share(ratios[k], size);
      ranges := ranges + [Range(start, end)];
      start := end;
    }
    if ranges == [] {
      return None;
    }
    var last := |ranges| - 1;
    if ranges[last].end < size {
      ranges := ranges[last := Range(ranges[last].start, size)];
    }
    assert ranges == SplitRanges(ratios, size);
    result := Some(ranges);
  }

  ghost predicate AreRatios(ratios: seq<real>) {
    forall k :: 0 <= k < |ratios| ==> ratios[k] >= 0.0
  }

  /** Contiguous from 0 to size, none negative. */
  ghost predicate Tile(ranges: seq<Range>, size: nat) {
    && ranges != [] && ranges[0].start == 0 && ranges[|ranges| - 1].end == size
    && (forall k :: 0 <= k < |ranges| ==> ranges[k].start <= ranges[k].end)
    && forall k :: 0 <= k < |ranges| - 1 ==> ranges[k].end == ranges[k + 1].start
  }

  // ----- how far rounding can fall short

  lemma ShareIsAFloor(ratio: real, size: nat)
    requires ratio >= 0.0
    ensures 0 <= Share(ratio, size) == Times(ratio, size as real).Floor
    ensures Times(ratio, size as real) - 1.0 < Share(ratio, size) as real <= Times(ratio, size as real)
  {
    assert Times(ratio, size as real) >= 0.0;
  }

  lemma Distributes(a: real, b: real, n: real)
    ensures Times(a + b, n) == Times(a, n) + Times(b, n) && Times(0.0, n) == 0.0 && Times(1.0, n) == n
  {
  }

  /** The first k splits together fall short of their exact share by less than k items. */
  lemma {:induction false} BoundaryIsClose(ratios: seq<real>, size: nat, k: nat)
    requires AreRatios(ratios) && k <= |ratios|
    ensures Boundary(ratios, size, k) as real <= Times(RatioSum(ratios, k), size as real)
    ensures k > 0 ==> Times(RatioSum(ratios, k), size as real) - k as real < Boundary(ratios, size, k) as real
    ensures k == 0 ==> Boundary(ratios, size, k) == 0 && Times(RatioSum(ratios, k), size as real) == 0.0
    ensures Boundary(ratios, size, k) >= 0
  {
    hide Times, Share;
    if k > 0 {
      BoundaryIsClose(ratios, size, k - 1);
      ShareIsAFloor(ratios[k - 1], size);
      Distributes(RatioSum(ratios, k - 1), ratios[k - 1], size as real);
    } else {
      Distributes(0.0, 0.0, size as real);
    }
  }

  lemma {:induction false} BoundariesIncrease(ratios: seq<real>, size: nat, j: nat, k: nat)
    requires AreRatios(ratios) && j <= k <= |ratios|
    ensures Boundary(ratios, size, j) <= Boundary(ratios, size, k)
    decreases k
  {
    if j < k {
      BoundariesIncrease(ratios, size, j, k - 1);
      ShareIsAFloor(ratios[k - 1], size);
    }
  }

  /** The ranges tile the collection exactly when the rounded shares fit into it. */
  lemma TileExactlyWhenTheyFit(ratios: seq<real>, size: nat)
    requires AreRatios(ratios) && ratios != []
    ensures Tile(SplitRanges(ratios, size), size) <==> Boundary(ratios, size, |ratios|) <= size
  {
    forall k | 0 <= k < |ratios| ensures Boundary(ratios, size, k) <= Boundary(ratios, size, k + 1) {
      BoundariesIncrease(ratios, size, k, k + 1);
    }
    BoundaryIsClose(ratios, size, |ratios| - 1);
  }

  /** They fit into every collection exactly when the ratios sum to at most 1: unnormalized weights do not. */
  lemma FitEverySizeExactlyWhenNormalized(ratios: seq<real>)
    requires AreRatios(ratios)
    ensures (forall size: nat :: Boundary(ratios, size, |ratios|) <= size) <==> RatioSum(ratios, |ratios|) <= 1.0
  {
    hide Times, Boundary, RatioSum;
    var sum := RatioSum(ratios, |ratios|);
    if sum <= 1.0 {
      forall size: nat ensures Boundary(ratios, size, |ratios|) <= size {
        BoundaryIsClose(ratios, size, |ratios|);
        AtMostOnce(sum, size as real);
      }
    } else {
      var size := SizeThatOvershoots(ratios);
      assert Boundary(ratios, size, |ratios|) > size;
    }
  }

  lemma AtMostOnce(sum: real, n: real)
    requires sum <= 1.0 && n >= 0.0
    ensures Times(sum, n) <= n
  {
    assert (1.0 - sum) * n >= 0.0;
  }

  lemma SizeThatOvershoots(ratios: seq<real>) returns (size: nat)
    requires AreRatios(ratios) && RatioSum(ratios, |ratios|) > 1.0
    ensures Boundary(ratios, size, |ratios|) > size
  {
    assert |ratios| > 0;
    hide Times, Boundary, RatioSum, Over;
    size := BigEnough(RatioSum(ratios, |ratios|), |ratios|);
    BoundaryIsClose(ratios, size, |ratios|);
  }

  lemma BigEnough(sum: real, k: nat) returns (size: nat)
    requires sum > 1.0
    ensures Times(sum, size as real) - k as real >= size as real
  {
    var over := sum - 1.0;
    var needed := Over(k as real, over);
    QuotientTimes(k as real, over);
    size := if needed <= 0.0 then 0 else needed.Floor + 1;
    NonNegativeProduct(over, size as real - needed);
    Distributes(needed, size as real - needed, over);
    Commutes(over, needed, size as real);
  }

  lemma NonNegativeProduct(x: real, y: real)
    requires x >= 0.0 && y >= 0.0
    ensures Times(x, y) >= 0.0 && (x > 0.0 && y > 0.0 ==> Times(x, y) > 0.0)
  {
  }

  lemma Commutes(over: real, needed: real, n: real)
    ensures Times(needed, over) == Times(over, needed) && Times(n - needed, over) == Times(over, n - needed)
    ensures Times(1.0 + over, n) == n + Times(n, over)
  {
  }

  lemma QuotientTimes(x: real, y: real)
    requires y != 0.0
    ensures Times(Over(x, y), y) == x
  {
  }

  /** Ratios that sum to 1 leave fewer items over than there are splits, and the last split takes them. */
  lemma NormalizedRatiosLeaveLittleOver(ratios: seq<real>, size: nat)
    requires AreRatios(ratios) && RatioSum(ratios, |ratios|) == 1.0
    ensures ratios != [] && Tile(SplitRanges(ratios, size), size)
    ensures forall k :: 0 <= k < |ratios| - 1 ==>
              SplitRanges(ratios, size)[k].end - SplitRanges(ratios, size)[k].start == Share(ratios[k], size)
    ensures var last := |ratios| - 1;
            0 <= SplitRanges(ratios, size)[last].end - SplitRanges(ratios, size)[last].start - Share(ratios[last], size)
              < |ratios|
  {
    assert |ratios| > 0;
    BoundaryIsClose(ratios, size, |ratios|);
    Distributes(0.0, 0.0, size as real);
    TileExactlyWhenTheyFit(ratios, size);
  }

  /** Raw weights are no ratios: 8, 1, 1 shared out over any items at all asks for ten times too many. */
  lemma RawWeightsOvershoot(size: nat)
    requires size > 0
    ensures var weights := [8.0, 1.0, 1.0];
            && Boundary(weights, size, 3) == 10 * size && !Tile(SplitRanges(weights, size), size)
  {
    var weights := [8.0, 1.0, 1.0];
    WholeShare(8, size);
    WholeShare(1, size);
    hide Share;
    assert Boundary(weights, size, 1) == 8 * size;
    assert Boundary(weights, size, 2) == 9 * size;
    TileExactlyWhenTheyFit(weights, size);
  }

  lemma WholeShare(weight: nat, size: nat)
    ensures Share(weight as real, size) == weight * size
  {
    assert Times(weight as real, size as real) == (weight * size) as real;
  }

  // ----- from_unnormalized

  /** None is the ZeroDivisionError of ratios that sum to zero. */
  function FromUnnormalized(ratios: seq<real>): (normalized: Option<seq<real>>)
    ensures normalized.Some? ==> |normalized.value| == |ratios|
  {
    var total := RatioSum(ratios, |ratios|);
    if total == 0.0 then None else Some(seq(|ratios|, k requires 0 <= k < |ratios| => Over(ratios[k], total)))
  }

  lemma {:induction false} NormalizedSum(ratios: seq<real>, total: real, normalized: seq<real>, k: nat)
    requires total != 0.0 && |normalized| == |ratios| && k <= |ratios|
    requires forall j :: 0 <= j < |ratios| ==> normalized[j] == Over(ratios[j], total)
    ensures RatioSum(normalized, k) == Over(RatioSum(ratios, k), total)
  {
    if k > 0 {
      hide Over;
      NormalizedSum(ratios, total, normalized, k - 1);
      Quotients(RatioSum(ratios, k - 1), ratios[k - 1], total);
    }
  }

  lemma Quotients(a: real, b: real, total: real)
    requires total != 0.0
    ensures Over(a + b, total) == Over(a, total) + Over(b, total)
    ensures Over(total, total) == 1.0 && (b >= 0.0 && total > 0.0 ==> Over(b, total) >= 0.0)
  {
  }

  /** Each share is in proportion to its ratio: together they are the ratios, divided by one number, their sum. */
  lemma SharesAreInProportion(ratios: seq<real>, k: nat)
    requires RatioSum(ratios, |ratios|) != 0.0 && k < |ratios|
    ensures FromUnnormalized(ratios).Some?
    ensures Times(FromUnnormalized(ratios).value[k], RatioSum(ratios, |ratios|)) == ratios[k]
  {
    hide RatioSum;
    QuotientTimes(ratios[k], RatioSum(ratios, |ratios|));
  }

  /** The sum of ratios is what adding them one by one gives. */
  lemma RatioSumAdds(ratios: seq<real>, ratio: real)
    ensures RatioSum(ratios, 0) == 0.0
    ensures RatioSum(ratios + [ratio], |ratios| + 1) == RatioSum(ratios + [ratio], |ratios|) + ratio
  {
  }

  /** Normalizing non-negative ratios with a positive sum gives non-negative ratios that sum to 1. */
  lemma NormalizedRatiosSumToOne(ratios: seq<real>)
    requires AreRatios(ratios) && RatioSum(ratios, |ratios|) > 0.0
    ensures var normalized := FromUnnormalized(ratios);
            && normalized.Some? && AreRatios(normalized.value)
            && RatioSum(normalized.value, |ratios|) == 1.0
  {
    var total, normalized := RatioSum(ratios, |ratios|), FromUnnormalized(ratios).value;
    hide Over, RatioSum;
    NormalizedSum(ratios, total, normalized, |ratios|);
    Quotients(0.0, total, total);
    forall k | 0 <= k < |ratios| ensures normalized[k] >= 0.0 {
      Quotients(0.0, ratios[k], total);
    }
  }

  lemma {:induction false} ScaledSum(ratios: seq<real>, factor: real, scaled: seq<real>, k: nat)
    requires |scaled| == |ratios| && k <= |ratios|
    requires forall j :: 0 <= j < |ratios| ==> scaled[j] == Times(ratios[j], factor)
    ensures RatioSum(scaled, k) == Times(RatioSum(ratios, k), factor)
  {
    hide Times;
    if k > 0 {
      ScaledSum(ratios, factor, scaled, k - 1);
      Distributes(RatioSum(ratios, k - 1), ratios[k - 1], factor);
    } else {
      Distributes(0.0, 0.0, factor);
    }
  }

  lemma CancelFactor(factor: real, a: real, total: real)
    requires factor != 0.0 && total != 0.0
    ensures Times(total, factor) != 0.0 && Over(Times(a, factor), Times(total, factor)) == Over(a, total)
  {
    var q := a / total;
    assert q * (total * factor) == a * factor by {
      assert q * total == a;
      assert q * (total * factor) == (q * total) * factor;
    }
  }

  /** Equal proportions normalize alike. */
  lemma ProportionalRatiosNormalizeAlike(ratios: seq<real>, factor: real, scaled: seq<real>)
    requires |scaled| == |ratios| && factor != 0.0
    requires forall j :: 0 <= j < |ratios| ==> scaled[j] == Times(ratios[j], factor)
    ensures FromUnnormalized(scaled) == FromUnnormalized(ratios)
  {
    var total := RatioSum(ratios, |ratios|);
    ScaledSum(ratios, factor, scaled, |ratios|);
    if total == 0.0 {
      Distributes(0.0, 0.0, factor);
    } else {
      CancelFactor(factor, total, total);
      hide Times, Over, RatioSum;
      forall k | 0 <= k < |ratios| ensures Over(scaled[k], Times(total, factor)) == Over(ratios[k], total) {
        CancelFactor(factor, ratios[k], total);
      }
      assert FromUnnormalized(scaled).value == FromUnnormalized(ratios).value;
    }
  }

  // ----- split_collection

  /** collection[from:to], clamped to the collection's end. */
  function Slice<T>(collection: seq<T>, from: nat, to: nat): seq<T>
    requires from <= to
  {
    var start := if from <= |collection| then from else |collection|;
    var end := if to <= |collection| then to else |collection|;
    collection[start..end]
  }

  ghost predicate IsPiece<T>(ratios: seq<real>, collection: seq<T>, piece: seq<T>, k: nat)
    requires k < |ratios|
  {
    && 0 <= Boundary(ratios, |collection|, k) <= Boundary(ratios, |collection|, k + 1)
    && piece == Slice(collection, Boundary(ratios, |collection|, k), Boundary(ratios, |collection|, k + 1))
  }

  ghost predicate AreSlices<T>(ratios: seq<real>, collection: seq<T>, pieces: seq<seq<T>>, count: nat)
    requires count <= |ratios|
  {
    |pieces| == count && forall k :: 0 <= k < count ==> IsPiece(ratios, collection, pieces[k], k)
  }

  /** The pieces with what is left over, if anything, at the end of the last one. */
  function WithTheRest<T>(collection: seq<T>, pieces: seq<seq<T>>, right: nat): seq<seq<T>>
    requires pieces != []
  {
    if right < |collection| then pieces[|pieces| - 1 := pieces[|pieces| - 1] + collection[right..]] else pieces
  }

  lemma LastTakesTheRest<T>(collection: seq<T>, pieces: seq<seq<T>>, right: nat)
    requires pieces != [] && Flatten(pieces) == Slice(collection, 0, right)
    ensures Flatten(WithTheRest(collection, pieces, right)) == collection
  {
    if right < |collection| {
      ExtendLast(pieces, collection[right..]);
      assert collection[0..right] + collection[right..] == collection;
    }
  }

  lemma PiecesAreTheRanges<T>(ratios: seq<real>, collection: seq<T>, pieces: seq<seq<T>>, k: nat)
    requires AreRatios(ratios) && k < |ratios| == |pieces| && IsPiece(ratios, collection, pieces[k], k)
    requires 0 <= Boundary(ratios, |collection|, |ratios|) <= |collection|
    ensures var r := SplitRange(ratios, |collection|, k);
            && 0 <= r.start <= r.end <= |collection|
            && WithTheRest(collection, pieces, Boundary(ratios, |collection|, |ratios|))[k]
               == collection[r.start..r.end]
  {
    hide Boundary, Slice, WithTheRest;
    BoundariesIncrease(ratios, |collection|, k + 1, |ratios|);
    var start, end := Boundary(ratios, |collection|, k), Boundary(ratios, |collection|, k + 1);
    SliceInside(collection, start, end);
    RestIsLast(collection, pieces, Boundary(ratios, |collection|, |ratios|), k);
  }

  lemma RestIsLast<T>(collection: seq<T>, pieces: seq<seq<T>>, right: nat, k: nat)
    requires k < |pieces| && right <= |collection|
    ensures k < |WithTheRest(collection, pieces, right)|
    ensures WithTheRest(collection, pieces, right)[k] ==
            if k == |pieces| - 1 && right < |collection| then pieces[k] + collection[right..] else pieces[k]
  {
  }

  lemma SliceInside<T>(collection: seq<T>, from: nat, to: nat)
    requires from <= to <= |collection|
    ensures Slice(collection, from, to) == collection[from..to]
    ensures collection[from..to] + collection[to..] == collection[from..|collection|]
  {
  }

  lemma ExtendLast<T>(pieces: seq<seq<T>>, rest: seq<T>)
    requires pieces != []
    ensures var last := |pieces| - 1; Flatten(pieces[last := pieces[last] + rest]) == Flatten(pieces) + rest
  {
    var last := |pieces| - 1;
    var full := pieces[last := pieces[last] + rest];
    FlattenAppend(pieces[..last], pieces[last]);
    FlattenAppend(pieces[..last], pieces[last] + rest);
    assert pieces == pieces[..last] + [pieces[last]] && full == pieces[..last] + [pieces[last] + rest];
    assert Flatten(pieces[..last]) + (pieces[last] + rest) == Flatten(pieces[..last]) + pieces[last] + rest;
  }

  lemma OneMorePiece<T>(ratios: seq<real>, collection: seq<T>, pieces: seq<seq<T>>, k: nat)
    requires AreRatios(ratios) && k < |ratios| && AreSlices(ratios, collection, pieces, k)
    requires Boundary(ratios, |collection|, k) >= 0
    requires Flatten(pieces) == Slice(collection, 0, Boundary(ratios, |collection|, k))
    ensures var left, right := Boundary(ratios, |collection|, k), Boundary(ratios, |collection|, k + 1);
            && right == left + Share(ratios[k], |collection|) && left <= right
            && AreSlices(ratios, collection, pieces + [Slice(collection, left, right)], k + 1)
            && Flatten(pieces + [Slice(collection, left, right)]) == Slice(collection, 0, right)
  {
    var left, right := Boundary(ratios, |collection|, k), Boundary(ratios, |collection|, k + 1);
    ShareIsAFloor(ratios[k], |collection|);
    FlattenAppend(pieces, Slice(collection, left, right));
    assert Slice(collection, 0, left) + Slice(collection, left, right) == Slice(collection, 0, right);
  }

  /** For any non-negative ratios the pieces concatenate to the collection; when the shares fit into it,
      they are the slices get_split_indices gives. */
  method SplitCollection<T>(ratios: seq<real>, collection: seq<T>) returns (result: seq<seq<T>>)
    requires AreRatios(ratios)
    ensures |ratios| < 2 ==> result == [collection]
    ensures |ratios| >= 2 ==> |result| == |ratios|
    ensures Flatten(result) == collection
    ensures |ratios| >= 2 && Boundary(ratios, |collection|, |ratios|) <= |collection| ==>
              forall k :: 0 <= k < |ratios| ==>
                var r := SplitRange(ratios, |collection|, k);
                0 <= r.start <= r.end <= |collection| && result[k] == collection[r.start..r.end]
  {
    if |ratios| < 2 {
      FlattenOne(collection);
      return [collection];
    }
    var size := |collection|;
    result := [];
    var left, right := 0, 0;
    for k := 0 to |ratios|
      invariant right == Boundary(ratios, size, k) >= 0
      invariant Flatten(result) == Slice(collection, 0, right) && AreSlices(ratios, collection, result, k)
    {
      OneMorePiece(ratios, collection, result, k);
      left := right;
      right := left + Share(ratios[k], size);
      result := result + [Slice(collection, left, right)];
    }
    LastTakesTheRest(collection, result, right);
    forall k | 0 <= k < |ratios| && right <= size
      ensures var r := SplitRange(ratios, size, k);
              0 <= r.start <= r.end <= size && WithTheRest(collection, result, right)[k] == collection[r.start..r.end]
    {
      PiecesAreTheRanges(ratios, collection, result, k);
    }
    if right < size {
      var last := |ratios| - 1;
      result := result[last := result[last] + collection[right..]];
    }
  }
}
