/** Encoding a batch of texts in length-sorted buckets, against encoding it in one call. */
module TextEncoder {
  import opened Sequences

  /** Per-token vectors and the 1/0 mask of real tokens, one row per text. */
  datatype TokenEncoding<V> = TokenEncoding(hiddenStates: seq<seq<V>>, attentionMask: seq<seq<nat>>)

  /**
   * A text encoder: tokenizing and forwarding one batch padded to its longest text, how many tokens a text has
   * after truncation, the zero hidden vector, and the bucket size (None disables bucketing).
   */
  datatype Encoder<V> = Encoder(encodeBatch: seq<string> -> TokenEncoding<V>, tokenCount: string -> nat, zero: V,
                                lengthBucketSize: BucketSize)

  datatype BucketSize = NoBuckets | Buckets(size: int)

  datatype Encoded<V> = Encoded(encoding: TokenEncoding<V>) | ValueError

  // ----- the contract of one padded call

  function LongestTokens<V>(encoder: Encoder<V>, texts: seq<string>): (longest: nat)
    ensures forall i :: 0 <= i < |texts| ==> encoder.tokenCount(texts[i]) <= longest
  {
    if texts == [] then 0
    else
      var rest := LongestTokens(encoder, texts[1..]);
      assert forall i :: 0 < i < |texts| ==> texts[i] == texts[1..][i - 1];
      if encoder.tokenCount(texts[0]) < rest then rest else encoder.tokenCount(texts[0])
  }

  function MaskRow(tokens: nat, width: nat): seq<nat>
    requires tokens <= width
  {
    seq(width, k => if k < tokens then 1 else 0)
  }

  /** The tokenizer pads to the batch's longest text and masks the padding. */
  ghost predicate PadsToLongest<V>(encoder: Encoder<V>, texts: seq<string>) {
    var encoding, width := encoder.encodeBatch(texts), LongestTokens(encoder, texts);
    && |encoding.hiddenStates| == |texts| && |encoding.attentionMask| == |texts|
    && forall i :: 0 <= i < |texts| ==>
         && |encoding.hiddenStates[i]| == width
         && encoding.attentionMask[i] == MaskRow(encoder.tokenCount(texts[i]), width)
  }

  function RealTokens<V>(encoder: Encoder<V>, texts: seq<string>, i: nat): seq<V>
    requires i < |texts| && PadsToLongest(encoder, texts)
  {
    encoder.encodeBatch(texts).hiddenStates[i][..encoder.tokenCount(texts[i])]
  }

  ghost predicate SameText<V>(encoder: Encoder<V>, texts: seq<string>, i: nat, texts': seq<string>, i': nat) {
    && i < |texts| && i' < |texts'| && texts[i] == texts'[i']
    && PadsToLongest(encoder, texts) && PadsToLongest(encoder, texts')
  }

  /** A row's real tokens depend only on its own text. */
  ghost predicate Sound<V>(encoder: Encoder<V>) {
    && (forall texts :: texts != [] ==> PadsToLongest(encoder, texts))
    && (forall texts, i, texts', i' :: SameText(encoder, texts, i, texts', i') ==>
          RealTokens(encoder, texts, i) == RealTokens(encoder, texts', i'))
  }

  // ----- sorted(range(n), key=length): stable, so equal lengths keep their order

  function Inserted(texts: seq<string>, index: nat, order: seq<nat>): seq<nat>
    requires index < |texts| && forall k :: 0 <= k < |order| ==> order[k] < |texts|
  {
    if order == [] then [index]
    else if |texts[index]| < |texts[order[0]]| then [index] + order
    else [order[0]] + Inserted(texts, index, order[1..])
  }

  lemma {:induction false} InsertedElements(texts: seq<string>, index: nat, order: seq<nat>)
    requires index < |texts| && forall k :: 0 <= k < |order| ==> order[k] < |texts|
    ensures |Inserted(texts, index, order)| == |order| + 1
    ensures forall i :: i in Inserted(texts, index, order) <==> i == index || i in order
    ensures forall k :: 0 <= k < |Inserted(texts, index, order)| ==>
              Inserted(texts, index, order)[k] == index || Inserted(texts, index, order)[k] in order
    decreases order
  {
    if order != [] {
      InsertedElements(texts, index, order[1..]);
      assert forall i :: i in order <==> i == order[0] || i in order[1..];
    }
  }

  /** Before in the order of a stable sort by length. */
  ghost predicate Before(texts: seq<string>, i: nat, j: nat)
    requires i < |texts| && j < |texts|
  {
    |texts[i]| < |texts[j]| || (|texts[i]| == |texts[j]| && i < j)
  }

  /** Each of the first n indices once, shortest text first, equal lengths in input order. */
  ghost predicate IsStableOrder(texts: seq<string>, order: seq<nat>, n: nat)
    requires n <= |texts|
  {
    && |order| == n
    && (forall i :: i in order <==> 0 <= i < n)
    && (forall k :: 0 <= k < |order| ==> order[k] < n)
    && forall j, k :: 0 <= j < k < |order| ==> Before(texts, order[j], order[k])
  }

  ghost predicate IsSortedRun(texts: seq<string>, order: seq<nat>) {
    && (forall k :: 0 <= k < |order| ==> order[k] < |texts|)
    && forall j, k :: 0 <= j < k < |order| ==> Before(texts, order[j], order[k])
  }

  lemma {:induction false} InsertedIsSorted(texts: seq<string>, index: nat, order: seq<nat>)
    requires index < |texts| && IsSortedRun(texts, order)
    requires forall k :: 0 <= k < |order| ==> order[k] < index
    ensures IsSortedRun(texts, Inserted(texts, index, order))
    decreases order
  {
    InsertedElements(texts, index, order);
    if order != [] && |texts[index]| >= |texts[order[0]]| {
      var rest := Inserted(texts, index, order[1..]);
      InsertedIsSorted(texts, index, order[1..]);
      InsertedElements(texts, index, order[1..]);
      forall k | 0 <= k < |rest| ensures Before(texts, order[0], rest[k]) {
        assert rest[k] in rest;
        if rest[k] in order[1..] {
          var m :| 0 <= m < |order[1..]| && order[1..][m] == rest[k];
          assert order[m + 1] == rest[k];
        }
      }
    }
  }

  lemma OneMoreInOrder(texts: seq<string>, index: nat, order: seq<nat>)
    requires index < |texts| && IsStableOrder(texts, order, index)
    ensures IsStableOrder(texts, Inserted(texts, index, order), index + 1)
  {
    hide Before, Inserted;
    var inserted := Inserted(texts, index, order);
    InsertedElements(texts, index, order);
    InsertedIsSorted(texts, index, order);
    forall i ensures i in inserted <==> 0 <= i < index + 1 {
      assert i in order <==> 0 <= i < index;
    }
    forall k | 0 <= k < |inserted| ensures inserted[k] < index + 1 {
      assert inserted[k] in inserted;
    }
  }

  /** The first n indices in order of length. */
  function SortedByLength(texts: seq<string>, n: nat): (order: seq<nat>)
    requires n <= |texts|
    ensures IsStableOrder(texts, order, n)
  {
    if n == 0 then []
    else
      var order := SortedByLength(texts, n - 1);
      OneMoreInOrder(texts, n - 1, order);
      Inserted(texts, n - 1, order)
  }

  /** Shortest text first, equal lengths in input order. */
  lemma ShortestFirst(texts: seq<string>, j: nat, k: nat)
    requires j < k < |texts|
    ensures var order := SortedByLength(texts, |texts|);
            && |order| == |texts| && order[j] < |texts| && order[k] < |texts|
            && |texts[order[j]]| <= |texts[order[k]]|
            && (|texts[order[j]]| == |texts[order[k]]| ==> order[j] < order[k])
  {
    var order := SortedByLength(texts, |texts|);
    assert Before(texts, order[j], order[k]);
  }

  // ----- buckets

  function TextsOf(texts: seq<string>, bucket: seq<nat>): seq<string>
    requires forall j :: 0 <= j < |bucket| ==> bucket[j] < |texts|
  {
    seq(|bucket|, j requires 0 <= j < |bucket| => texts[bucket[j]])
  }

  ghost predicate AllBelow(s: seq<nat>, n: nat) {
    forall k :: 0 <= k < |s| ==> s[k] < n
  }

  ghost predicate Indexes(buckets: seq<seq<nat>>, n: nat) {
    forall g :: 0 <= g < |buckets| ==> AllBelow(buckets[g], n)
  }

  lemma {:induction false} BucketsIndex(buckets: seq<seq<nat>>, order: seq<nat>, n: nat)
    requires order == Flatten(buckets) && AllBelow(order, n)
    ensures Indexes(buckets, n)
  {
    if buckets != [] {
      var first, rest: seq<nat> := buckets[0], Flatten(buckets[1..]);
      assert order == first + rest;
      assert forall k :: 0 <= k < |rest| ==> rest[k] == order[|first| + k];
      assert forall k :: 0 <= k < |first| ==> first[k] == order[k];
      BucketsIndex(buckets[1..], rest, n);
      assert forall g :: 0 < g < |buckets| ==> buckets[g] == buckets[1..][g - 1];
    }
  }

  // ----- _merge_bucketed_encodings

  /** max over the encodings' widths. */
  function WidestOf<V>(encodings: seq<TokenEncoding<V>>): (width: nat)
    ensures forall g :: 0 <= g < |encodings| ==> WidthOf(encodings[g]) <= width
  {
    if encodings == [] then 0
    else
      var rest := WidestOf(encodings[1..]);
      assert forall g :: 0 < g < |encodings| ==> encodings[g] == encodings[1..][g - 1];
      if WidthOf(encodings[0]) < rest then rest else WidthOf(encodings[0])
  }

  /** hidden_states.shape[1]. */
  function WidthOf<V>(encoding: TokenEncoding<V>): nat {
    if encoding.hiddenStates == [] then 0 else |encoding.hiddenStates[0]|
  }

  function PadRow<T>(row: seq<T>, width: nat, fill: T): seq<T>
    requires |row| <= width
  {
    row + seq(width - |row|, _ => fill)
  }

  function PadRows<T>(rows: seq<seq<T>>, width: nat, fill: T): (padded: seq<seq<T>>)
    requires forall j :: 0 <= j < |rows| ==> |rows[j]| <= width
    ensures |padded| == |rows|
  {
    seq(|rows|, j requires 0 <= j < |rows| => PadRow(rows[j], width, fill))
  }

  ghost predicate Distinct(s: seq<nat>) {
    forall j, k :: 0 <= j < k < |s| ==> s[j] != s[k]
  }

  /** index_copy_ along the first dimension, in place. */
  method IndexCopyInPlace<T>(target: array<T>, indices: seq<nat>, rows: seq<T>)
    requires |indices| == |rows| && Distinct(indices) && forall j :: 0 <= j < |indices| ==> indices[j] < target.Length
    modifies target
    ensures forall j :: 0 <= j < |indices| ==> target[indices[j]] == rows[j]
    ensures forall i :: 0 <= i < target.Length && i !in indices ==> target[i] == old(target[i])
  {
    for k := 0 to |indices|
      invariant forall j :: 0 <= j < k ==> target[indices[j]] == rows[j]
      invariant forall i :: 0 <= i < target.Length && i !in indices[..k] ==> target[i] == old(target[i])
    {
      target[indices[k]] := rows[k];
      assert indices[..k + 1] == indices[..k] + [indices[k]];
    }
    assert indices[..|indices|] == indices;
  }

  /** One row per text of the bucket, every row of the encoding's width. */
  ghost predicate IsRectangular<V>(encoding: TokenEncoding<V>, texts: nat) {
    && |encoding.hiddenStates| == |encoding.attentionMask| == texts
    && forall j :: 0 <= j < texts ==>
         |encoding.hiddenStates[j]| == |encoding.attentionMask[j]| == WidthOf(encoding)
  }

  ghost predicate FitGroups<V>(encodings: seq<TokenEncoding<V>>, indexGroups: seq<seq<nat>>) {
    && |encodings| == |indexGroups| > 0
    && forall g :: 0 <= g < |encodings| ==> IsRectangular(encodings[g], |indexGroups[g]|)
  }

  /** Every position of range(batchSize) appears in exactly one group, once. */
  ghost predicate IsPartition(order: seq<nat>, batchSize: nat) {
    Distinct(order) && AllBelow(order, batchSize) && |order| == batchSize
  }

  /** Every bucket's hidden rows, right-padded with zeros to the widest bucket. */
  function PaddedHidden<V>(encodings: seq<TokenEncoding<V>>, groups: seq<seq<nat>>, zero: V): (padded: seq<seq<seq<V>>>)
    requires FitGroups(encodings, groups)
    ensures |padded| == |groups| && forall g :: 0 <= g < |groups| ==> |padded[g]| == |groups[g]|
  {
    seq(|groups|, g requires 0 <= g < |groups| =>
      assert IsRectangular(encodings[g], |groups[g]|);
      PadRows(encodings[g].hiddenStates, WidestOf(encodings), zero))
  }

  function PaddedMask<V>(encodings: seq<TokenEncoding<V>>, groups: seq<seq<nat>>): (padded: seq<seq<seq<nat>>>)
    requires FitGroups(encodings, groups)
    ensures |padded| == |groups| && forall g :: 0 <= g < |groups| ==> |padded[g]| == |groups[g]|
  {
    seq(|groups|, g requires 0 <= g < |groups| =>
      assert IsRectangular(encodings[g], |groups[g]|);
      PadRows(encodings[g].attentionMask, WidestOf(encodings), 0))
  }

  /** Row order[k] of placed is rows[k]. */
  ghost predicate ArePlaced<T>(placed: seq<T>, order: seq<nat>, rows: seq<T>) {
    && |order| == |rows|
    && forall k :: 0 <= k < |order| ==> order[k] < |placed| && placed[order[k]] == rows[k]
  }

  lemma {:induction false} SameLengths<A, B>(a: seq<seq<A>>, b: seq<seq<B>>)
    requires |a| == |b| && forall g :: 0 <= g < |a| ==> |a[g]| == |b[g]|
    ensures |Flatten(a)| == |Flatten(b)|
  {
    if a != [] {
      SameLengths(a[1..], b[1..]);
    }
  }

  /** One step of the merge: the groups so far are placed, and copying the next group places it too. */
  lemma PlaceOneMore<T>(before: seq<T>, after: seq<T>, done: seq<nat>, rows: seq<T>, group: seq<nat>, groupRows: seq<T>)
    requires ArePlaced(before, done, rows) && |after| == |before| && |group| == |groupRows|
    requires Distinct(done + group) && AllBelow(group, |after|)
    requires forall j :: 0 <= j < |group| ==> after[group[j]] == groupRows[j]
    requires forall i :: 0 <= i < |after| && i !in group ==> after[i] == before[i]
    ensures ArePlaced(after, done + group, rows + groupRows)
  {
    forall k | 0 <= k < |done| ensures after[done[k]] == rows[k] {
      forall j | 0 <= j < |group| ensures done[k] != group[j] {
        assert (done + group)[k] == done[k] && (done + group)[|done| + j] == group[j];
      }
    }
  }

  method MergeBucketedEncodings<V>(encodings: seq<TokenEncoding<V>>, indexGroups: seq<seq<nat>>, batchSize: nat,
                                   zero: V)
    returns (merged: TokenEncoding<V>)
    requires FitGroups(encodings, indexGroups) && IsPartition(Flatten(indexGroups), batchSize)
    ensures |merged.hiddenStates| == |merged.attentionMask| == batchSize
    ensures ArePlaced(merged.hiddenStates, Flatten(indexGroups), Flatten(PaddedHidden(encodings, indexGroups, zero)))
    ensures ArePlaced(merged.attentionMask, Flatten(indexGroups), Flatten(PaddedMask(encodings, indexGroups)))
  {
    hide ArePlaced, IsPartition, WidestOf;
    var maxSeqLen := WidestOf(encodings);
    var hiddenStates := new seq<V>[batchSize](_ => seq(maxSeqLen, _ => zero));
    var attentionMask := new seq<nat>[batchSize](_ => seq(maxSeqLen, _ => 0));
    ghost var hidden, mask := PaddedHidden(encodings, indexGroups, zero), PaddedMask(encodings, indexGroups);
    NothingPlaced(hiddenStates[..]);
    NothingPlaced(attentionMask[..]);
    for g := 0 to |encodings|
      invariant ArePlaced(hiddenStates[..], Flatten(indexGroups[..g]), Flatten(hidden[..g]))
      invariant ArePlaced(attentionMask[..], Flatten(indexGroups[..g]), Flatten(mask[..g]))
    {
      FlattenSplit(indexGroups, g);
      FlattenSplit(hidden, g);
      FlattenSplit(mask, g);
      GroupOfPartition(indexGroups, batchSize, g);
      ghost var h, m := hiddenStates[..], attentionMask[..];
      assert IsRectangular(encodings[g], |indexGroups[g]|);
      IndexCopyInPlace(hiddenStates, indexGroups[g], PadRows(encodings[g].hiddenStates, maxSeqLen, zero));
      IndexCopyInPlace(attentionMask, indexGroups[g], PadRows(encodings[g].attentionMask, maxSeqLen, 0));
      PlaceOneMore(h, hiddenStates[..], Flatten(indexGroups[..g]), Flatten(hidden[..g]), indexGroups[g], hidden[g]);
      PlaceOneMore(m, attentionMask[..], Flatten(indexGroups[..g]), Flatten(mask[..g]), indexGroups[g], mask[g]);
    }
    assert indexGroups[..|encodings|] == indexGroups && hidden[..|encodings|] == hidden && mask[..|encodings|] == mask;
    return TokenEncoding(hiddenStates[..], attentionMask[..]);
  }

  lemma NothingPlaced<T>(placed: seq<T>)
    ensures ArePlaced(placed, Flatten([]), Flatten([]))
  {
  }

  lemma GroupOfPartition(groups: seq<seq<nat>>, batchSize: nat, g: nat)
    requires g < |groups| && IsPartition(Flatten(groups), batchSize)
    ensures Distinct(groups[g]) && AllBelow(groups[g], batchSize)
    ensures Distinct(Flatten(groups[..g]) + groups[g])
  {
    hide Flatten;
    FlattenSplit(groups, g);
    PartOfPartition(Flatten(groups[..g]), groups[g], Flatten(groups[g + 1..]), batchSize);
  }

  lemma PartOfPartition(before: seq<nat>, group: seq<nat>, after: seq<nat>, batchSize: nat)
    requires IsPartition(before + group + after, batchSize)
    ensures Distinct(group) && AllBelow(group, batchSize) && Distinct(before + group)
  {
    var order := before + group + after;
    forall k | 0 <= k < |before + group| ensures (before + group)[k] == order[k] {
    }
    forall j | 0 <= j < |group| ensures group[j] == order[|before| + j] {
    }
  }

  // ----- a property of every (index, row) pair survives joining the groups

  ghost predicate AllGood<R>(good: (nat, R) -> bool, indices: seq<nat>, rows: seq<R>) {
    |indices| == |rows| && forall k :: 0 <= k < |indices| ==> good(indices[k], rows[k])
  }

  lemma {:induction false} AllGoodJoined<R>(good: (nat, R) -> bool, groups: seq<seq<nat>>, rows: seq<seq<R>>)
    requires |groups| == |rows| && forall g :: 0 <= g < |groups| ==> AllGood(good, groups[g], rows[g])
    ensures AllGood(good, Flatten(groups), Flatten(rows))
  {
    if groups != [] {
      AllGoodJoined(good, groups[1..], rows[1..]);
    }
  }

  // ----- _encode_with

  /** row is what some bucket's call gave for this text, right-padded with zeros to width. */
  ghost predicate IsPaddedCall<V>(encoder: Encoder<V>, text: string, row: seq<V>, width: nat) {
    exists bucket, j :: IsPaddedRowOf(encoder, text, row, width, bucket, j)
  }

  ghost predicate IsPaddedRowOf<V>(encoder: Encoder<V>, text: string, row: seq<V>, width: nat, bucket: seq<string>,
                                   j: nat)
  {
    && j < |bucket| && bucket[j] == text && PadsToLongest(encoder, bucket)
    && LongestTokens(encoder, bucket) <= width
    && row == PadRow(encoder.encodeBatch(bucket).hiddenStates[j], width, encoder.zero)
  }

  /** One row per text, as wide as one unbucketed call, with its mask, and its hidden vectors on every real token. */
  ghost predicate AgreesWithOneCall<V>(encoder: Encoder<V>, texts: seq<string>, encoding: TokenEncoding<V>)
    requires PadsToLongest(encoder, texts)
  {
    && |encoding.hiddenStates| == |texts|
    && encoding.attentionMask == encoder.encodeBatch(texts).attentionMask
    && forall i :: 0 <= i < |texts| ==>
         && |encoding.hiddenStates[i]| == LongestTokens(encoder, texts)
         && encoding.hiddenStates[i][..encoder.tokenCount(texts[i])] == RealTokens(encoder, texts, i)
  }

  lemma {:induction false} LongestIsReached<V>(encoder: Encoder<V>, texts: seq<string>) returns (i: nat)
    requires texts != []
    ensures i < |texts| && encoder.tokenCount(texts[i]) == LongestTokens(encoder, texts)
  {
    i := 0;
    if |texts| > 1 && encoder.tokenCount(texts[0]) < LongestTokens(encoder, texts[1..]) {
      i := LongestIsReached(encoder, texts[1..]);
      i := i + 1;
    }
  }

  lemma {:induction false} WidestIsReached<V>(encodings: seq<TokenEncoding<V>>) returns (g: nat)
    requires encodings != []
    ensures g < |encodings| && WidthOf(encodings[g]) == WidestOf(encodings)
  {
    g := 0;
    if |encodings| > 1 && WidthOf(encodings[0]) < WidestOf(encodings[1..]) {
      g := WidestIsReached(encodings[1..]);
      g := g + 1;
    }
  }

  lemma {:induction false} SomeGroupHolds(groups: seq<seq<nat>>, order: seq<nat>, i: nat)
    requires order == Flatten(groups) && i in order
    ensures exists g :: 0 <= g < |groups| && i in groups[g]
  {
    var first, rest: seq<nat> := groups[0], Flatten(groups[1..]);
    assert order == first + rest;
    if i !in first {
      SomeGroupHolds(groups[1..], rest, i);
      var g :| 0 <= g < |groups[1..]| && i in groups[1..][g];
      assert i in groups[g + 1];
    }
  }

  function EncodingsOf<V>(encoder: Encoder<V>, texts: seq<string>, buckets: seq<seq<nat>>): seq<TokenEncoding<V>>
    requires Indexes(buckets, |texts|)
  {
    seq(|buckets|, g requires 0 <= g < |buckets| =>
      assert AllBelow(buckets[g], |texts|); encoder.encodeBatch(TextsOf(texts, buckets[g])))
  }

  ghost predicate AreBuckets(texts: seq<string>, buckets: seq<seq<nat>>) {
    && Indexes(buckets, |texts|) && buckets != []
    && (forall g :: 0 <= g < |buckets| ==> buckets[g] != [])
    && IsPartition(Flatten(buckets), |texts|)
    && forall i: nat :: i < |texts| ==> i in Flatten(buckets)
  }

  lemma CallIsRectangular<V>(encoder: Encoder<V>, texts: seq<string>)
    requires Sound(encoder) && texts != []
    ensures PadsToLongest(encoder, texts)
    ensures IsRectangular(encoder.encodeBatch(texts), |texts|)
    ensures WidthOf(encoder.encodeBatch(texts)) == LongestTokens(encoder, texts)
  {
    assert PadsToLongest(encoder, texts);
    assert |encoder.encodeBatch(texts).hiddenStates[0]| == LongestTokens(encoder, texts);
  }

  lemma BucketCalls<V>(encoder: Encoder<V>, texts: seq<string>, buckets: seq<seq<nat>>)
    requires Sound(encoder) && AreBuckets(texts, buckets)
    ensures var encodings := EncodingsOf(encoder, texts, buckets);
            && FitGroups(encodings, buckets)
            && forall g :: 0 <= g < |buckets| ==>
                 AllBelow(buckets[g], |texts|) && PadsToLongest(encoder, TextsOf(texts, buckets[g])) &&
                 WidthOf(encodings[g]) == LongestTokens(encoder, TextsOf(texts, buckets[g]))
  {
    var encodings := EncodingsOf(encoder, texts, buckets);
    forall g | 0 <= g < |buckets|
      ensures IsRectangular(encodings[g], |buckets[g]|) && AllBelow(buckets[g], |texts|)
      ensures PadsToLongest(encoder, TextsOf(texts, buckets[g]))
      ensures WidthOf(encodings[g]) == LongestTokens(encoder, TextsOf(texts, buckets[g]))
    {
      assert AllBelow(buckets[g], |texts|);
      CallIsRectangular(encoder, TextsOf(texts, buckets[g]));
    }
  }

  /** The widest bucket is exactly as wide as one unbucketed call. */
  lemma WidestIsLongest<V>(encoder: Encoder<V>, texts: seq<string>, buckets: seq<seq<nat>>)
    requires Sound(encoder) && AreBuckets(texts, buckets) && texts != []
    ensures WidestOf(EncodingsOf(encoder, texts, buckets)) == LongestTokens(encoder, texts)
  {
    var encodings := EncodingsOf(encoder, texts, buckets);
    BucketCalls(encoder, texts, buckets);
    var g := WidestIsReached(encodings);
    var inBucket := TextsOf(texts, buckets[g]);
    var j := LongestIsReached(encoder, inBucket);
    assert inBucket[j] == texts[buckets[g][j]];
    var i := LongestIsReached(encoder, texts);
    SomeGroupHolds(buckets, Flatten(buckets), i);
    var g' :| 0 <= g' < |buckets| && i in buckets[g'];
    var j' :| 0 <= j' < |buckets[g']| && buckets[g'][j'] == i;
    assert TextsOf(texts, buckets[g'])[j'] == texts[i];
  }

  lemma MergedRowsAreGood<V>(encoder: Encoder<V>, texts: seq<string>, buckets: seq<seq<nat>>)
    requires Sound(encoder) && AreBuckets(texts, buckets) && texts != []
    ensures FitGroups(EncodingsOf(encoder, texts, buckets), buckets)
    ensures var encodings, width := EncodingsOf(encoder, texts, buckets), LongestTokens(encoder, texts);
            && AllGood((i: nat, row: seq<V>) => i < |texts| && IsPaddedCall(encoder, texts[i], row, width),
                       Flatten(buckets), Flatten(PaddedHidden(encodings, buckets, encoder.zero)))
            && AllGood((i: nat, row: seq<nat>) => i < |texts| && row == MaskRow(encoder.tokenCount(texts[i]), width),
                       Flatten(buckets), Flatten(PaddedMask(encodings, buckets)))
  {
    var encodings, width := EncodingsOf(encoder, texts, buckets), LongestTokens(encoder, texts);
    BucketCalls(encoder, texts, buckets);
    WidestIsLongest(encoder, texts, buckets);
    var hidden, mask := PaddedHidden(encodings, buckets, encoder.zero), PaddedMask(encodings, buckets);
    var goodHidden := (i: nat, row: seq<V>) => i < |texts| && IsPaddedCall(encoder, texts[i], row, width);
    var goodMask := (i: nat, row: seq<nat>) => i < |texts| && row == MaskRow(encoder.tokenCount(texts[i]), width);
    forall g | 0 <= g < |buckets|
      ensures AllGood(goodHidden, buckets[g], hidden[g]) && AllGood(goodMask, buckets[g], mask[g])
    {
      BucketRowsAreGood(encoder, texts, buckets[g], width);
    }
    AllGoodJoined(goodHidden, buckets, hidden);
    AllGoodJoined(goodMask, buckets, mask);
  }

  lemma BucketRowsAreGood<V>(encoder: Encoder<V>, texts: seq<string>, bucket: seq<nat>, width: nat)
    requires AllBelow(bucket, |texts|) && PadsToLongest(encoder, TextsOf(texts, bucket))
    requires LongestTokens(encoder, TextsOf(texts, bucket)) <= width <= LongestTokens(encoder, texts)
    ensures var encoding := encoder.encodeBatch(TextsOf(texts, bucket));
            && (forall j :: 0 <= j < |bucket| ==> IsPaddedCall(encoder, texts[bucket[j]],
                                                    PadRows(encoding.hiddenStates, width, encoder.zero)[j], width))
            && (forall j :: 0 <= j < |bucket| ==> PadRows(encoding.attentionMask, width, 0)[j] ==
                                                    MaskRow(encoder.tokenCount(texts[bucket[j]]), width))
  {
    var inBucket := TextsOf(texts, bucket);
    var encoding := encoder.encodeBatch(inBucket);
    forall j | 0 <= j < |bucket|
      ensures IsPaddedCall(encoder, texts[bucket[j]], PadRows(encoding.hiddenStates, width, encoder.zero)[j], width)
    {
      assert IsPaddedRowOf(encoder, texts[bucket[j]], PadRows(encoding.hiddenStates, width, encoder.zero)[j], width,
                           inBucket, j);
    }
  }

  /** A padded row of any bucket's call agrees with one unbucketed call on the text's real tokens. */
  lemma PaddedCallAgrees<V>(encoder: Encoder<V>, texts: seq<string>, i: nat, row: seq<V>, width: nat)
    requires Sound(encoder) && i < |texts| && IsPaddedCall(encoder, texts[i], row, width)
    ensures PadsToLongest(encoder, texts) && |row| == width && encoder.tokenCount(texts[i]) <= width
    ensures row[..encoder.tokenCount(texts[i])] == RealTokens(encoder, texts, i)
  {
    var bucket, j: nat :| IsPaddedRowOf(encoder, texts[i], row, width, bucket, j);
    assert SameText(encoder, bucket, j, texts, i);
    var tokens := encoder.tokenCount(texts[i]);
    assert row[..tokens] == encoder.encodeBatch(bucket).hiddenStates[j][..tokens];
  }

  lemma MergedAgrees<V>(encoder: Encoder<V>, texts: seq<string>, buckets: seq<seq<nat>>, merged: TokenEncoding<V>)
    requires Sound(encoder) && AreBuckets(texts, buckets) && texts != []
    requires FitGroups(EncodingsOf(encoder, texts, buckets), buckets)
    requires var encodings := EncodingsOf(encoder, texts, buckets);
             && |merged.hiddenStates| == |merged.attentionMask| == |texts|
             && ArePlaced(merged.hiddenStates, Flatten(buckets),
                          Flatten(PaddedHidden(encodings, buckets, encoder.zero)))
             && ArePlaced(merged.attentionMask, Flatten(buckets), Flatten(PaddedMask(encodings, buckets)))
    ensures PadsToLongest(encoder, texts) && AgreesWithOneCall(encoder, texts, merged)
    ensures forall i :: 0 <= i < |texts| ==>
              IsPaddedCall(encoder, texts[i], merged.hiddenStates[i], LongestTokens(encoder, texts))
  {
    hide PaddedHidden, PaddedMask, EncodingsOf, IsPaddedCall, FitGroups;
    MergedRowsAreGood(encoder, texts, buckets);
    var order: seq<nat> := Flatten(buckets);
    forall i: nat | i < |texts|
      ensures IsPaddedCall(encoder, texts[i], merged.hiddenStates[i], LongestTokens(encoder, texts))
      ensures merged.attentionMask[i] == MaskRow(encoder.tokenCount(texts[i]), LongestTokens(encoder, texts))
      ensures |merged.hiddenStates[i]| == LongestTokens(encoder, texts)
      ensures merged.hiddenStates[i][..encoder.tokenCount(texts[i])] == RealTokens(encoder, texts, i)
    {
      assert i in order;
      var k :| 0 <= k < |order| && order[k] == i;
      PaddedCallAgrees(encoder, texts, i, merged.hiddenStates[i], LongestTokens(encoder, texts));
    }
    assert merged.attentionMask == encoder.encodeBatch(texts).attentionMask;
  }

  /** The buckets' own calls, each row padded and put back at its text's index. */
  ghost predicate IsMergeOf<V>(encoder: Encoder<V>, texts: seq<string>, buckets: seq<seq<nat>>,
                               encoding: TokenEncoding<V>)
  {
    && AreBuckets(texts, buckets) && FitGroups(EncodingsOf(encoder, texts, buckets), buckets)
    && |encoding.hiddenStates| == |encoding.attentionMask| == |texts|
    && var encodings := EncodingsOf(encoder, texts, buckets);
       && ArePlaced(encoding.hiddenStates, Flatten(buckets), Flatten(PaddedHidden(encodings, buckets, encoder.zero)))
       && ArePlaced(encoding.attentionMask, Flatten(buckets), Flatten(PaddedMask(encodings, buckets)))
  }

  /** Where each of the first n texts lies in a list of them all fixes a list placed by it. */
  lemma PlacedIsDetermined<R>(a: seq<R>, b: seq<R>, order: seq<nat>, rows: seq<R>)
    requires |a| == |b| && ArePlaced(a, order, rows) && ArePlaced(b, order, rows)
    requires forall i: nat :: i < |a| ==> i in order
    ensures a == b
  {
    forall i: nat | i < |a| ensures a[i] == b[i] {
      assert i in order;
      var k :| 0 <= k < |order| && order[k] == i;
    }
  }

  /** So the buckets fix the encoding. */
  lemma MergeIsDetermined<V>(encoder: Encoder<V>, texts: seq<string>, buckets: seq<seq<nat>>, a: TokenEncoding<V>,
                             b: TokenEncoding<V>)
    requires IsMergeOf(encoder, texts, buckets, a) && IsMergeOf(encoder, texts, buckets, b)
    ensures a == b
  {
    hide ArePlaced, FitGroups, IsPartition, PaddedHidden, PaddedMask, EncodingsOf;
    var encodings := EncodingsOf(encoder, texts, buckets);
    var order: seq<nat> := Flatten(buckets);
    PlacedIsDetermined(a.hiddenStates, b.hiddenStates, order, Flatten(PaddedHidden(encodings, buckets, encoder.zero)));
    PlacedIsDetermined(a.attentionMask, b.attentionMask, order, Flatten(PaddedMask(encodings, buckets)));
  }

  method EncodeWith<V>(encoder: Encoder<V>, texts: seq<string>) returns (r: Encoded<V>)
    requires Sound(encoder)
    ensures r.ValueError? <==> encoder.lengthBucketSize.Buckets? && encoder.lengthBucketSize.size <= 0 &&
                               encoder.lengthBucketSize.size < |texts|
    ensures r.Encoded? && (encoder.lengthBucketSize.NoBuckets? || |texts| <= encoder.lengthBucketSize.size) ==>
              r.encoding == encoder.encodeBatch(texts)
    ensures r.Encoded? && encoder.lengthBucketSize.Buckets? && |texts| > encoder.lengthBucketSize.size ==>
              && encoder.lengthBucketSize.size > 0
              && var buckets := SlicesOf(SortedByLength(texts, |texts|), encoder.lengthBucketSize.size);
                 IsMergeOf(encoder, texts, buckets, r.encoding)
    ensures r.Encoded? && texts != [] ==>
              PadsToLongest(encoder, texts) && AgreesWithOneCall(encoder, texts, r.encoding)
    ensures r.Encoded? ==> forall i :: 0 <= i < |texts| ==>
              i < |r.encoding.hiddenStates| &&
              IsPaddedCall(encoder, texts[i], r.encoding.hiddenStates[i], LongestTokens(encoder, texts))
  {
    if encoder.lengthBucketSize.NoBuckets? || |texts| <= encoder.lengthBucketSize.size {
      if texts != [] {
        OneCallAgrees(encoder, texts);
      }
      return Encoded(encoder.encodeBatch(texts));
    }
    var size := encoder.lengthBucketSize.size;
    if size <= 0 {
      return ValueError;
    }
    var order := SortedByLength(texts, |texts|);
    var buckets := SlicesOf(order, size);
    BucketsArePartition(texts, order, buckets);
    BucketCalls(encoder, texts, buckets);
    var encodings := EncodingsOf(encoder, texts, buckets);
    var merged := MergeBucketedEncodings(encodings, buckets, |texts|, encoder.zero);
    MergedAgrees(encoder, texts, buckets, merged);
    return Encoded(merged);
  }

  lemma OneCallAgrees<V>(encoder: Encoder<V>, texts: seq<string>)
    requires Sound(encoder) && texts != []
    ensures PadsToLongest(encoder, texts) && AgreesWithOneCall(encoder, texts, encoder.encodeBatch(texts))
    ensures forall i :: 0 <= i < |texts| ==>
              IsPaddedCall(encoder, texts[i], encoder.encodeBatch(texts).hiddenStates[i], LongestTokens(encoder, texts))
  {
    var encoding, width := encoder.encodeBatch(texts), LongestTokens(encoder, texts);
    CallIsRectangular(encoder, texts);
    forall i | 0 <= i < |texts| ensures IsPaddedCall(encoder, texts[i], encoding.hiddenStates[i], width) {
      assert encoding.hiddenStates[i] == PadRow(encoding.hiddenStates[i], width, encoder.zero);
      assert IsPaddedRowOf(encoder, texts[i], encoding.hiddenStates[i], width, texts, i);
    }
  }

  lemma BucketsArePartition(texts: seq<string>, order: seq<nat>, buckets: seq<seq<nat>>)
    requires IsStableOrder(texts, order, |texts|) && Flatten(buckets) == order && texts != []
    requires forall g :: 0 <= g < |buckets| ==> buckets[g] != []
    ensures AreBuckets(texts, buckets)
  {
    BucketsIndex(buckets, order, |texts|);
    forall j, k | 0 <= j < k < |order| ensures order[j] != order[k] {
      assert Before(texts, order[j], order[k]);
    }
  }

  /** What a padded row and a mask row hold, position by position. */
  lemma PaddingIsOnTheRight<T>(row: seq<T>, width: nat, fill: T, tokens: nat, k: nat)
    requires |row| <= width && tokens <= width && k < width
    ensures |PadRow(row, width, fill)| == |MaskRow(tokens, width)| == width
    ensures PadRow(row, width, fill)[k] == if k < |row| then row[k] else fill
    ensures MaskRow(tokens, width)[k] == if k < tokens then 1 else 0
  {
  }
}
