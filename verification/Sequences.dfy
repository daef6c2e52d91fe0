/** Sequence helpers shared by every module: joining, summing and maxima. */
module Sequences {

  /** The parts joined in order. */
  function Flatten<T>(parts: seq<seq<T>>): seq<T> {
    if parts == [] then [] else parts[0] + Flatten(parts[1..])
  }

  lemma AppendIsAssociative<T>(a: seq<T>, b: seq<T>, c: seq<T>)
    ensures a + (b + c) == a + b + c
  {
  }

  lemma {:induction false} FlattenConcat<T>(left: seq<seq<T>>, right: seq<seq<T>>)
    ensures Flatten(left + right) == Flatten(left) + Flatten(right)
  {
    if left == [] {
      assert left + right == right;
    } else {
      FlattenConcat(left[1..], right);
      assert (left + right)[1..] == left[1..] + right;
      AppendIsAssociative(left[0], Flatten(left[1..]), Flatten(right));
    }
  }

  lemma FlattenAppend<T>(parts: seq<seq<T>>, last: seq<T>)
    ensures Flatten(parts + [last]) == Flatten(parts) + last
  {
    FlattenConcat(parts, [last]);
    assert Flatten([last]) == last + Flatten<T>([]);
  }

  lemma FlattenOne<T>(part: seq<T>)
    ensures Flatten([part]) == part
  {
    FlattenAppend([], part);
    assert [part] == [] + [part];
  }

  lemma FlattenTwo<T>(first: seq<T>, second: seq<T>)
    ensures Flatten([first, second]) == first + second
  {
    FlattenAppend([first], second);
    FlattenOne(first);
    assert [first, second] == [first] + [second];
  }

  lemma SplitAt<T>(s: seq<T>, k: nat)
    requires k < |s|
    ensures s == s[..k + 1] + s[k + 1..] && s[..k + 1] == s[..k] + [s[k]]
  {
  }

  /** Splitting the parts at k splits the joined sequence at the length of the first k parts. */
  lemma FlattenSplit<T>(parts: seq<seq<T>>, k: nat)
    requires k < |parts|
    ensures Flatten(parts) == Flatten(parts[..k]) + parts[k] + Flatten(parts[k + 1..])
    ensures Flatten(parts[..k + 1]) == Flatten(parts[..k]) + parts[k]
  {
    hide Flatten;
    SplitAt(parts, k);
    FlattenAppend(parts[..k], parts[k]);
    FlattenConcat(parts[..k + 1], parts[k + 1..]);
  }

  /** s cut into consecutive slices of at most size, each but the last of that size. */
  function SlicesOf<T>(s: seq<T>, size: int): (slices: seq<seq<T>>)
    requires size > 0
    ensures Flatten(slices) == s
    ensures forall g :: 0 <= g < |slices| ==> 1 <= |slices[g]| <= size
  {
    if |s| == 0 then []
    else if |s| <= size then
      FlattenOne(s);
      [s]
    else
      var rest := SlicesOf(s[size..], size);
      assert Flatten([s[..size]] + rest) == s[..size] + Flatten(rest);
      [s[..size]] + rest
  }

  lemma {:induction false} SlicesAreFull<T>(s: seq<T>, size: int, g: nat)
    requires size > 0 && g + 1 < |SlicesOf(s, size)|
    ensures |SlicesOf(s, size)[g]| == size
  {
    if g > 0 {
      SlicesAreFull(s[size..], size, g - 1);
    }
  }

  lemma SliceOfSlice<T>(s: seq<T>, from: nat, to: nat, i: nat, j: nat)
    requires from <= to <= |s| && i <= j <= to - from
    ensures s[from..to][i..j] == s[from + i..from + j]
  {
    assert |s[from..to][i..j]| == j - i;
    forall k | 0 <= k < j - i ensures s[from..to][i..j][k] == s[from + i..from + j][k] {
      assert s[from..to][i..j][k] == s[from..to][i + k];
    }
  }

  function Sum(xs: seq<int>): int {
    if xs == [] then 0 else xs[0] + Sum(xs[1..])
  }

  lemma {:induction false} SumConcat(a: seq<int>, b: seq<int>)
    ensures Sum(a + b) == Sum(a) + Sum(b)
  {
    if a == [] {
      assert a + b == b;
    } else {
      SumConcat(a[1..], b);
      assert (a + b)[1..] == a[1..] + b;
    }
  }

  // ----- ragged rows stored end to end

  function CumulativeSum(start: nat, lengths: seq<nat>): (sums: seq<nat>)
    ensures |sums| == |lengths|
    decreases lengths
  {
    if lengths == [] then [] else [start + lengths[0]] + CumulativeSum(start + lengths[0], lengths[1..])
  }

  function Lengths<T>(parts: seq<seq<T>>): (lengths: seq<nat>)
    ensures |lengths| == |parts| && forall i :: 0 <= i < |parts| ==> lengths[i] == |parts[i]|
  {
    seq(|parts|, i requires 0 <= i < |parts| => |parts[i]|)
  }

  function Total(lengths: seq<nat>): nat {
    if lengths == [] then 0 else lengths[0] + Total(lengths[1..])
  }

  lemma {:induction false} FlattenedTotal<T>(parts: seq<seq<T>>)
    ensures |Flatten(parts)| == Total(Lengths(parts))
  {
    if parts != [] {
      FlattenedTotal(parts[1..]);
      assert Lengths(parts)[1..] == Lengths(parts[1..]);
    }
  }

  lemma {:induction false} CumulativeSumIsPrefixLength<T>(base: nat, parts: seq<seq<T>>, r: nat)
    requires r < |parts|
    ensures CumulativeSum(base, Lengths(parts))[r] == base + |Flatten(parts[..r + 1])|
    decreases parts
  {
    assert Lengths(parts)[1..] == Lengths(parts[1..]);
    assert parts[..r + 1][1..] == parts[1..][..r];
    if r > 0 {
      CumulativeSumIsPrefixLength(base + |parts[0]|, parts[1..], r - 1);
    }
  }

  /** Cutting the joined rows at the running totals of their lengths gives the rows back. */
  lemma RowsCutBack<T>(parts: seq<seq<T>>, offsets: seq<nat>, r: nat)
    requires offsets == [0] + CumulativeSum(0, Lengths(parts)) && r < |parts|
    ensures offsets[r] <= offsets[r + 1] <= |Flatten(parts)|
    ensures Flatten(parts)[offsets[r]..offsets[r + 1]] == parts[r]
  {
    FlattenSplit(parts, r);
    CumulativeSumIsPrefixLength(0, parts, r);
    if r > 0 {
      CumulativeSumIsPrefixLength(0, parts, r - 1);
    }
  }

  lemma RowsEndAtTheirTotal<T>(parts: seq<seq<T>>, offsets: seq<nat>)
    requires offsets == [0] + CumulativeSum(0, Lengths(parts))
    ensures offsets[|parts|] == |Flatten(parts)|
  {
    if parts != [] {
      LastTotal(parts);
    }
  }

  lemma LastTotal<T>(parts: seq<seq<T>>)
    requires parts != []
    ensures CumulativeSum(0, Lengths(parts))[|parts| - 1] == |Flatten(parts)|
  {
    CumulativeSumIsPrefixLength(0, parts, |parts| - 1);
    assert parts[..|parts|] == parts;
  }

  lemma {:induction false} FlattenEmpties<T>(parts: seq<seq<T>>)
    requires forall i :: 0 <= i < |parts| ==> parts[i] == []
    ensures Flatten(parts) == []
  {
    if parts != [] {
      FlattenEmpties(parts[1..]);
    }
  }

  /** Filling a part behind which all parts are empty appends to the joined sequence. */
  lemma FillingAppends<T>(parts: seq<seq<T>>, r: nat, part: seq<T>)
    requires r < |parts| && forall q :: r <= q < |parts| ==> parts[q] == []
    ensures Flatten(parts[r := part]) == Flatten(parts) + part
  {
    var filled := parts[r := part];
    FlattenSplit(parts, r);
    FlattenSplit(filled, r);
    FlattenEmpties(parts[r + 1..]);
    assert filled[..r] == parts[..r] && filled[r + 1..] == parts[r + 1..];
  }

  // ----- np.flatnonzero

  /** The indices below `end` whose flag is set, ascending. */
  function TrueIndices(flags: seq<bool>, end: nat): seq<nat>
    requires end <= |flags|
  {
    if end == 0 then [] else TrueIndices(flags, end - 1) + (if flags[end - 1] then [end - 1] else [])
  }

  lemma {:induction false} TrueIndicesAreTheSetOnes(flags: seq<bool>, end: nat)
    requires end <= |flags|
    ensures forall k :: 0 <= k < |TrueIndices(flags, end)| ==>
              TrueIndices(flags, end)[k] < end && flags[TrueIndices(flags, end)[k]]
    ensures forall j, k :: 0 <= j < k < |TrueIndices(flags, end)| ==>
              TrueIndices(flags, end)[j] < TrueIndices(flags, end)[k]
    ensures forall i :: 0 <= i < end && flags[i] ==> i in TrueIndices(flags, end)
  {
    if end > 0 {
      TrueIndicesAreTheSetOnes(flags, end - 1);
    }
  }
}
