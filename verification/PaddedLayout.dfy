/** A batch's card embeddings in one padded layout: left-aligned rows, zero padding, host lengths. */
module PaddedLayout {
  import opened Sequences

  type Vector = seq<real>
  type Row = seq<Vector>

  datatype InputShape = SINGLE_CARD | MULTI_CARD | MULTI_GROUP

  datatype PaddedEmbeddings = PaddedEmbeddings(cards: seq<Row>, mask: seq<seq<bool>>, shape: InputShape,
                                               lengths: seq<nat>)

  // ----- lengths, mask and slots

  /** max(lengths, default=0). */
  function MaxLength(lengths: seq<nat>): (m: nat)
    ensures forall b :: 0 <= b < |lengths| ==> lengths[b] <= m
  {
    if lengths == [] then 0
    else
      var rest := MaxLength(lengths[1..]);
      assert forall b :: 0 < b < |lengths| ==> lengths[b] == lengths[1..][b - 1];
      if lengths[0] < rest then rest else lengths[0]
  }

  function MaskRow(length: nat, maxCards: nat): seq<bool> {
    seq(maxCards, position => position < length)
  }

  function MaskFromLengths(lengths: seq<nat>): seq<seq<bool>> {
    seq(|lengths|, b requires 0 <= b < |lengths| => MaskRow(lengths[b], MaxLength(lengths)))
  }

  /** The slots of one example's real cards in the flattened layout. */
  function ExampleSlots(example: nat, length: nat, maxCards: nat): seq<nat> {
    seq(length, position => example * maxCards + position)
  }

  function SlotsFrom(example: nat, lengths: seq<nat>, maxCards: nat): seq<nat>
    decreases lengths
  {
    if lengths == [] then []
    else ExampleSlots(example, lengths[0], maxCards) + SlotsFrom(example + 1, lengths[1..], maxCards)
  }

  function FlatSlotIndex(lengths: seq<nat>, maxCards: nat): seq<nat> {
    SlotsFrom(0, lengths, maxCards)
  }

  ghost predicate FitWidth(lengths: seq<nat>, maxCards: nat) {
    forall b :: 0 <= b < |lengths| ==> lengths[b] <= maxCards
  }

  ghost predicate StrictlyIncreasing(s: seq<nat>) {
    forall i, j :: 0 <= i < j < |s| ==> s[i] < s[j]
  }

  lemma {:induction false} SlotsIncrease(example: nat, lengths: seq<nat>, maxCards: nat)
    requires FitWidth(lengths, maxCards)
    ensures StrictlyIncreasing(SlotsFrom(example, lengths, maxCards))
    ensures forall i :: 0 <= i < |SlotsFrom(example, lengths, maxCards)| ==>
              example * maxCards <= SlotsFrom(example, lengths, maxCards)[i] < (example + |lengths|) * maxCards
    decreases lengths
  {
    if lengths != [] {
      var first, rest := ExampleSlots(example, lengths[0], maxCards), SlotsFrom(example + 1, lengths[1..], maxCards);
      SlotsIncrease(example + 1, lengths[1..], maxCards);
      NextExample(example, |lengths|, maxCards);
    }
  }

  lemma NextExample(example: nat, count: nat, maxCards: nat)
    requires count > 0
    ensures (example + 1) * maxCards == example * maxCards + maxCards
    ensures example * maxCards + maxCards <= (example + count) * maxCards
    ensures (example + 1 + (count - 1)) * maxCards == (example + count) * maxCards
  {
    assert (example + count) * maxCards == example * maxCards + count * maxCards;
    assert count * maxCards >= maxCards by { assert count * maxCards == maxCards + (count - 1) * maxCards; }
  }

  /** The slots strictly increase and stay inside the layout. */
  lemma FlatSlotsIncreaseInBounds(lengths: seq<nat>, maxCards: nat)
    requires FitWidth(lengths, maxCards)
    ensures StrictlyIncreasing(FlatSlotIndex(lengths, maxCards))
    ensures forall i :: 0 <= i < |FlatSlotIndex(lengths, maxCards)| ==>
              FlatSlotIndex(lengths, maxCards)[i] < SlotCount(|lengths|, maxCards)
  {
    SlotsIncrease(0, lengths, maxCards);
  }

  // ----- scatter and gather

  /** layout with rows[k] at slots[k], in order, out of place. */
  function IndexCopy<T>(layout: seq<T>, slots: seq<nat>, rows: seq<T>): (copied: seq<T>)
    requires |slots| == |rows| && forall k :: 0 <= k < |slots| ==> slots[k] < |layout|
    ensures |copied| == |layout|
    decreases slots
  {
    if slots == [] then layout else IndexCopy(layout[slots[0] := rows[0]], slots[1..], rows[1..])
  }

  function SlotCount(examples: nat, width: nat): nat {
    examples * width
  }

  /** A flat layout cut into `examples` rows of `width`. */
  function Reshape<T>(flat: seq<T>, examples: nat, width: nat): seq<seq<T>>
    requires |flat| == SlotCount(examples, width)
  {
    if examples == 0 then []
    else
      CutOneRow(examples, width);
      [flat[..width]] + Reshape(flat[width..], examples - 1, width)
  }

  lemma CutOneRow(examples: nat, width: nat)
    requires examples > 0
    ensures SlotCount(examples, width) == width + SlotCount(examples - 1, width)
  {
  }

  ghost predicate IsLayout<T>(padded: seq<seq<T>>, examples: nat, width: nat) {
    |padded| == examples && forall b :: 0 <= b < |padded| ==> |padded[b]| == width
  }

  lemma {:induction false} FlattenedSize<T>(padded: seq<seq<T>>, width: nat)
    requires IsLayout(padded, |padded|, width)
    ensures |Flatten(padded)| == SlotCount(|padded|, width)
  {
    if padded != [] {
      FlattenedSize(padded[1..], width);
      CutOneRow(|padded|, width);
    }
  }

  lemma {:induction false} ReshapeOfFlattened<T>(padded: seq<seq<T>>, width: nat)
    requires IsLayout(padded, |padded|, width)
    ensures |Flatten(padded)| == SlotCount(|padded|, width) && Reshape(Flatten(padded), |padded|, width) == padded
  {
    FlattenedSize(padded, width);
    if padded != [] {
      ReshapeOfFlattened(padded[1..], width);
      assert Flatten(padded)[..width] == padded[0] && Flatten(padded)[width..] == Flatten(padded[1..]);
    }
  }

  function ScatterToSlots<T>(flat: seq<T>, padded: seq<seq<T>>, lengths: seq<nat>, maxCards: nat): seq<seq<T>>
    requires IsLayout(padded, |lengths|, maxCards) && FitWidth(lengths, maxCards)
    requires |flat| == |FlatSlotIndex(lengths, maxCards)|
  {
    FlatSlotsIncreaseInBounds(lengths, maxCards);
    FlattenedSize(padded, maxCards);
    Reshape(IndexCopy(Flatten(padded), FlatSlotIndex(lengths, maxCards), flat), |lengths|, maxCards)
  }

  // ----- what scattering does

  /** A copied slot holds its row and every other slot is untouched. */
  lemma {:induction false} IndexCopyAt<T>(layout: seq<T>, slots: seq<nat>, rows: seq<T>, i: nat)
    requires |slots| == |rows| && (forall k :: 0 <= k < |slots| ==> slots[k] < |layout|)
    requires StrictlyIncreasing(slots) && i < |layout|
    ensures i !in slots ==> IndexCopy(layout, slots, rows)[i] == layout[i]
    ensures forall k :: 0 <= k < |slots| && slots[k] == i ==> IndexCopy(layout, slots, rows)[i] == rows[k]
    decreases slots
  {
    if slots != [] {
      IndexCopyAt(layout[slots[0] := rows[0]], slots[1..], rows[1..], i);
      assert forall k :: 0 < k < |slots| ==> slots[k] == slots[1..][k - 1] && rows[k] == rows[1..][k - 1];
    }
  }

  function Shifted(slots: seq<nat>, offset: nat): (shifted: seq<nat>)
    ensures |shifted| == |slots|
  {
    seq(|slots|, k requires 0 <= k < |slots| => slots[k] + offset)
  }

  lemma {:induction false} SlotsOfNextExample(example: nat, lengths: seq<nat>, maxCards: nat)
    ensures SlotsFrom(example + 1, lengths, maxCards) == Shifted(SlotsFrom(example, lengths, maxCards), maxCards)
    decreases lengths
  {
    if lengths != [] {
      SlotsOfNextExample(example + 1, lengths[1..], maxCards);
      NextExample(example, 1, maxCards);
      assert ExampleSlots(example + 1, lengths[0], maxCards) ==
             Shifted(ExampleSlots(example, lengths[0], maxCards), maxCards);
      ShiftedConcat(ExampleSlots(example, lengths[0], maxCards), SlotsFrom(example + 1, lengths[1..], maxCards),
                    maxCards);
    }
  }

  lemma ShiftedConcat(a: seq<nat>, b: seq<nat>, offset: nat)
    ensures Shifted(a + b, offset) == Shifted(a, offset) + Shifted(b, offset)
  {
  }

  lemma {:induction false} IndexCopyInSteps<T>(layout: seq<T>, s1: seq<nat>, s2: seq<nat>, r1: seq<T>, r2: seq<T>)
    requires |s1| == |r1| && |s2| == |r2|
    requires forall k :: 0 <= k < |s1| ==> s1[k] < |layout|
    requires forall k :: 0 <= k < |s2| ==> s2[k] < |layout|
    ensures IndexCopy(layout, s1 + s2, r1 + r2) == IndexCopy(IndexCopy(layout, s1, r1), s2, r2)
    decreases s1
  {
    if s1 == [] {
      assert s1 + s2 == s2 && r1 + r2 == r2;
    } else {
      IndexCopyInSteps(layout[s1[0] := r1[0]], s1[1..], s2, r1[1..], r2);
      assert (s1 + s2)[1..] == s1[1..] + s2 && (r1 + r2)[1..] == r1[1..] + r2;
    }
  }

  lemma {:induction false} IndexCopyLeft<T>(left: seq<T>, right: seq<T>, slots: seq<nat>, rows: seq<T>)
    requires |slots| == |rows| && forall k :: 0 <= k < |slots| ==> slots[k] < |left|
    ensures IndexCopy(left + right, slots, rows) == IndexCopy(left, slots, rows) + right
    decreases slots
  {
    if slots != [] {
      IndexCopyLeft(left[slots[0] := rows[0]], right, slots[1..], rows[1..]);
      assert (left + right)[slots[0] := rows[0]] == left[slots[0] := rows[0]] + right;
    }
  }

  lemma {:induction false} IndexCopyRight<T>(left: seq<T>, right: seq<T>, slots: seq<nat>, rows: seq<T>)
    requires |slots| == |rows| && forall k :: 0 <= k < |slots| ==> slots[k] < |right|
    ensures IndexCopy(left + right, Shifted(slots, |left|), rows) == left + IndexCopy(right, slots, rows)
    decreases slots
  {
    if slots != [] {
      IndexCopyRight(left, right[slots[0] := rows[0]], slots[1..], rows[1..]);
      assert Shifted(slots, |left|)[1..] == Shifted(slots[1..], |left|);
      assert (left + right)[slots[0] + |left| := rows[0]] == left + right[slots[0] := rows[0]];
    }
  }

  /** padded with each example's real slots replaced by its row. */
  function Overlay<T>(rows: seq<seq<T>>, padded: seq<seq<T>>): (overlaid: seq<seq<T>>)
    requires |rows| == |padded| && forall b :: 0 <= b < |rows| ==> |rows[b]| <= |padded[b]|
    ensures |overlaid| == |padded| && forall b :: 0 <= b < |rows| ==> |overlaid[b]| == |padded[b]|
  {
    seq(|rows|, b requires 0 <= b < |rows| => rows[b] + padded[b][|rows[b]|..])
  }

  lemma FirstSlots(length: nat, maxCards: nat)
    ensures forall k :: 0 <= k < length ==> ExampleSlots(0, length, maxCards)[k] == k
  {
    assert 0 * maxCards == 0;
  }

  lemma FirstExampleOverlaid<T>(row: seq<T>, layout: seq<T>)
    requires |row| <= |layout|
    ensures IndexCopy(layout, ExampleSlots(0, |row|, |layout|), row) == row + layout[|row|..]
  {
    var slots := ExampleSlots(0, |row|, |layout|);
    FirstSlots(|row|, |layout|);
    hide IndexCopy, ExampleSlots;
    var copied, overlaid := IndexCopy(layout, slots, row), row + layout[|row|..];
    forall i | 0 <= i < |layout| ensures copied[i] == overlaid[i] {
      FirstSlotCopied(layout, slots, row, i);
    }
  }

  lemma FirstSlotCopied<T>(layout: seq<T>, slots: seq<nat>, row: seq<T>, i: nat)
    requires |slots| == |row| <= |layout| && i < |layout| && forall k :: 0 <= k < |slots| ==> slots[k] == k
    ensures IndexCopy(layout, slots, row)[i] == if i < |row| then row[i] else layout[i]
  {
    IndexCopyAt(layout, slots, row, i);
    if i < |row| {
      assert slots[i] == i;
    }
  }

  lemma {:induction false} FlattenedOverlay<T>(rows: seq<seq<T>>, padded: seq<seq<T>>, width: nat)
    requires IsLayout(padded, |rows|, width) && FitWidth(Lengths(rows), width)
    ensures |Flatten(rows)| == |FlatSlotIndex(Lengths(rows), width)|
    ensures |Flatten(padded)| == SlotCount(|rows|, width)
    ensures forall k :: 0 <= k < |FlatSlotIndex(Lengths(rows), width)| ==>
              FlatSlotIndex(Lengths(rows), width)[k] < |Flatten(padded)|
    ensures IndexCopy(Flatten(padded), FlatSlotIndex(Lengths(rows), width), Flatten(rows)) ==
            Flatten(Overlay(rows, padded))
  {
    var lengths := Lengths(rows);
    FlatSlotsIncreaseInBounds(lengths, width);
    FlattenedSize(padded, width);
    if rows != [] {
      var restLengths := Lengths(rows[1..]);
      assert lengths[1..] == restLengths;
      FlattenedOverlay(rows[1..], padded[1..], width);
      SlotsOfNextExample(0, restLengths, width);
      ConcatenatedOverlay(rows, padded, width, FlatSlotIndex(restLengths, width));
    }
  }

  lemma CopyInTwoParts<T>(left: seq<T>, right: seq<T>, s1: seq<nat>, s2: seq<nat>, r1: seq<T>, r2: seq<T>)
    requires |s1| == |r1| && forall k :: 0 <= k < |s1| ==> s1[k] < |left|
    requires |s2| == |r2| && forall k :: 0 <= k < |s2| ==> s2[k] < |right|
    ensures IndexCopy(left + right, s1 + Shifted(s2, |left|), r1 + r2) ==
            IndexCopy(left, s1, r1) + IndexCopy(right, s2, r2)
  {
    IndexCopyInSteps(left + right, s1, Shifted(s2, |left|), r1, r2);
    IndexCopyLeft(left, right, s1, r1);
    IndexCopyRight(IndexCopy(left, s1, r1), right, s2, r2);
  }

  lemma ConcatenatedOverlay<T>(rows: seq<seq<T>>, padded: seq<seq<T>>, width: nat, rest: seq<nat>)
    requires |rows| == |padded| > 0 && |padded[0]| == width
    requires forall b :: 0 <= b < |rows| ==> |rows[b]| <= |padded[b]|
    requires |Flatten(rows[1..])| == |rest| && forall k :: 0 <= k < |rest| ==> rest[k] < |Flatten(padded[1..])|
    requires IndexCopy(Flatten(padded[1..]), rest, Flatten(rows[1..])) == Flatten(Overlay(rows[1..], padded[1..]))
    ensures var slots := ExampleSlots(0, |rows[0]|, width) + Shifted(rest, width);
            && |Flatten(rows)| == |slots|
            && (forall k :: 0 <= k < |slots| ==> slots[k] < |Flatten(padded)|)
            && IndexCopy(Flatten(padded), slots, Flatten(rows)) == Flatten(Overlay(rows, padded))
  {
    FirstSlots(|rows[0]|, width);
    CopyInTwoParts(padded[0], Flatten(padded[1..]), ExampleSlots(0, |rows[0]|, width), rest, rows[0],
                   Flatten(rows[1..]));
    FirstExampleOverlaid(rows[0], padded[0]);
    assert Overlay(rows, padded)[1..] == Overlay(rows[1..], padded[1..]);
  }

  /** Scattering the joined rows puts row b in example b's first slots and leaves every other slot as it was. */
  lemma ScatterOverlays<T>(rows: seq<seq<T>>, padded: seq<seq<T>>, maxCards: nat)
    requires IsLayout(padded, |rows|, maxCards) && FitWidth(Lengths(rows), maxCards)
    ensures |Flatten(rows)| == |FlatSlotIndex(Lengths(rows), maxCards)|
    ensures ScatterToSlots(Flatten(rows), padded, Lengths(rows), maxCards) == Overlay(rows, padded)
  {
    hide FitWidth, StrictlyIncreasing, SlotCount, Flatten, IndexCopy, FlatSlotIndex, Reshape;
    OverlayKeepsLayout(rows, padded, maxCards);
    hide IsLayout, Overlay, Lengths;
    FlattenedOverlay(rows, padded, maxCards);
    ReshapeOfFlattened(Overlay(rows, padded), maxCards);
  }

  lemma OverlayKeepsLayout<T>(rows: seq<seq<T>>, padded: seq<seq<T>>, width: nat)
    requires IsLayout(padded, |rows|, width) && FitWidth(Lengths(rows), width)
    ensures |rows| == |padded| == |Lengths(rows)| && forall b :: 0 <= b < |rows| ==> |rows[b]| <= |padded[b]|
    ensures IsLayout(Overlay(rows, padded), |rows|, width) && |Overlay(rows, padded)| == |rows|
  {
    assert forall b :: 0 <= b < |rows| ==> Lengths(rows)[b] == |rows[b]|;
  }

  // ----- gathering

  function FlatCards<T>(cards: seq<seq<T>>, lengths: seq<nat>, maxCards: nat): seq<T>
    requires IsLayout(cards, |lengths|, maxCards) && FitWidth(lengths, maxCards)
  {
    FlatSlotsIncreaseInBounds(lengths, maxCards);
    FlattenedSize(cards, maxCards);
    var slots := FlatSlotIndex(lengths, maxCards);
    seq(|slots|, k requires 0 <= k < |slots| => Flatten(cards)[slots[k]])
  }

  /** Gathering after a scatter returns the flat rows, whatever the padded tensor held. */
  lemma GatherAfterScatter<T>(flat: seq<T>, padded: seq<seq<T>>, lengths: seq<nat>, maxCards: nat)
    requires IsLayout(padded, |lengths|, maxCards) && FitWidth(lengths, maxCards)
    requires |flat| == |FlatSlotIndex(lengths, maxCards)|
    ensures var scattered := ScatterToSlots(flat, padded, lengths, maxCards);
            IsLayout(scattered, |lengths|, maxCards) && FlatCards(scattered, lengths, maxCards) == flat
  {
    var slots := FlatSlotIndex(lengths, maxCards);
    FlatSlotsIncreaseInBounds(lengths, maxCards);
    FlattenedSize(padded, maxCards);
    var copied := IndexCopy(Flatten(padded), slots, flat);
    FlattenOfReshaped(copied, |lengths|, maxCards);
    forall k | 0 <= k < |slots| ensures copied[slots[k]] == flat[k] {
      IndexCopyAt(Flatten(padded), slots, flat, slots[k]);
    }
  }

  lemma {:induction false} FlattenOfReshaped<T>(flat: seq<T>, examples: nat, width: nat)
    requires |flat| == SlotCount(examples, width)
    ensures IsLayout(Reshape(flat, examples, width), examples, width)
    ensures Flatten(Reshape(flat, examples, width)) == flat
    decreases examples
  {
    if examples > 0 {
      CutOneRow(examples, width);
      FlattenOfReshaped(flat[width..], examples - 1, width);
      assert flat == flat[..width] + flat[width..];
    }
  }

  /** The real cards of each example. */
  function RealRows<T>(cards: seq<seq<T>>, lengths: seq<nat>): (rows: seq<seq<T>>)
    requires |cards| == |lengths| && forall b :: 0 <= b < |cards| ==> lengths[b] <= |cards[b]|
    ensures Lengths(rows) == lengths
  {
    seq(|cards|, b requires 0 <= b < |cards| => cards[b][..lengths[b]])
  }

  /** Gathering lists every real card in input order. */
  lemma FlatCardsAreTheRealRows<T>(cards: seq<seq<T>>, lengths: seq<nat>, maxCards: nat)
    requires IsLayout(cards, |lengths|, maxCards) && FitWidth(lengths, maxCards)
    ensures FlatCards(cards, lengths, maxCards) == Flatten(RealRows(cards, lengths))
  {
    hide StrictlyIncreasing;
    var rows := RealRows(cards, lengths);
    ScatterOverlays(rows, cards, maxCards);
    forall b | 0 <= b < |cards| ensures Overlay(rows, cards)[b] == cards[b] {
      assert cards[b][..lengths[b]] + cards[b][lengths[b]..] == cards[b];
    }
    assert Overlay(rows, cards) == cards;
    GatherAfterScatter(Flatten(rows), cards, lengths, maxCards);
  }

  /** cards[mask]: the entries where the mask is True, row by row. */
  function Selected<T>(row: seq<T>, mask: seq<bool>): seq<T>
    requires |row| == |mask|
  {
    if row == [] then []
    else if mask[0] then [row[0]] + Selected(row[1..], mask[1..])
    else Selected(row[1..], mask[1..])
  }

  lemma {:induction false} LeftAlignedSelection<T>(row: seq<T>, length: nat)
    requires length <= |row|
    ensures Selected(row, MaskRow(length, |row|)) == row[..length]
  {
    if row != [] {
      var rest := if length == 0 then 0 else length - 1;
      assert MaskRow(length, |row|)[1..] == MaskRow(rest, |row| - 1);
      LeftAlignedSelection(row[1..], rest);
    }
  }

  function MaskSelected<T>(cards: seq<seq<T>>, mask: seq<seq<bool>>): seq<T>
    requires |cards| == |mask| && forall b :: 0 <= b < |cards| ==> |cards[b]| == |mask[b]|
  {
    Flatten(SelectedRows(cards, mask))
  }

  function SelectedRows<T>(cards: seq<seq<T>>, mask: seq<seq<bool>>): (rows: seq<seq<T>>)
    requires |cards| == |mask| && forall b :: 0 <= b < |cards| ==> |cards[b]| == |mask[b]|
    ensures |rows| == |cards|
  {
    seq(|cards|, b requires 0 <= b < |cards| => Selected(cards[b], mask[b]))
  }

  /** The slot gather gives the same rows as indexing with the boolean mask. */
  lemma GatherAgreesWithMask<T>(cards: seq<seq<T>>, lengths: seq<nat>)
    requires IsLayout(cards, |lengths|, MaxLength(lengths))
    ensures FlatCards(cards, lengths, MaxLength(lengths)) == MaskSelected(cards, MaskFromLengths(lengths))
  {
    hide StrictlyIncreasing, FlatCards, SlotCount, Flatten, Selected;
    var mask, rows := MaskFromLengths(lengths), RealRows(cards, lengths);
    FlatCardsAreTheRealRows(cards, lengths, MaxLength(lengths));
    forall b | 0 <= b < |cards| ensures Selected(cards[b], mask[b]) == rows[b] {
      LeftAlignedSelection(cards[b], lengths[b]);
    }
    assert SelectedRows(cards, mask) == rows;
  }

  // ----- from_nested and to_nested

  /** Per-card tensors nested by shape. */
  datatype Nested = Singles(cards: seq<Vector>) | Multis(examples: seq<Row>)

  datatype Packing = Packed(embeddings: PaddedEmbeddings) | ValueError | StackError

  function Zero(width: nat): Vector {
    seq(width, _ => 0.0)
  }

  function ZeroRow(length: nat, width: nat): Row {
    seq(length, _ => Zero(width))
  }

  function Zeros(examples: nat, maxCards: nat, width: nat): (zeros: seq<Row>)
    ensures IsLayout(zeros, examples, maxCards)
  {
    seq(examples, _ => ZeroRow(maxCards, width))
  }

  function RowsOf(embeddings: Nested): seq<Row> {
    match embeddings
    case Singles(cards) => seq(|cards|, i requires 0 <= i < |cards| => [cards[i]])
    case Multis(examples) => examples
  }

  function ShapeOf(embeddings: Nested): InputShape {
    if embeddings.Singles? then SINGLE_CARD else MULTI_CARD
  }

  function FromNested(embeddings: Nested, width: nat): Packing {
    var rows := RowsOf(embeddings);
    var lengths := Lengths(rows);
    var flat := Flatten(rows);
    var maxCards := MaxLength(lengths);
    var mask := MaskFromLengths(lengths);
    if flat != [] && |flat[0]| != width then ValueError
    else if exists k :: 0 <= k < |flat| && |flat[k]| != |flat[0]| then StackError
    else
      var zeros := Zeros(|lengths|, maxCards, width);
      ScatterOverlays(rows, zeros, maxCards);
      var cards := if flat == [] then zeros else ScatterToSlots(flat, zeros, lengths, maxCards);
      Packed(PaddedEmbeddings(cards, mask, ShapeOf(embeddings), lengths))
  }

  /** What construction checks, plus the invariants every reader may rely on. */
  ghost predicate Valid(p: PaddedEmbeddings) {
    && p.shape != MULTI_GROUP
    && IsLayout(p.cards, |p.lengths|, MaxLength(p.lengths))
    && p.mask == MaskFromLengths(p.lengths)
    && (p.shape.SINGLE_CARD? ==> forall b :: 0 <= b < |p.lengths| ==> p.lengths[b] == 1)
  }

  ghost predicate PaddingIsZero(p: PaddedEmbeddings, width: nat)
    requires Valid(p)
  {
    forall b, k :: 0 <= b < |p.lengths| && p.lengths[b] <= k < |p.cards[b]| ==> IsZero(p.cards[b][k], width)
  }

  predicate IsZero(v: Vector, width: nat) {
    |v| == width && forall w :: 0 <= w < width ==> v[w] == 0.0
  }

  function ToNested(p: PaddedEmbeddings): Nested
    requires |p.cards| == |p.lengths| && forall b :: 0 <= b < |p.cards| ==> p.lengths[b] <= |p.cards[b]|
    requires p.shape.SINGLE_CARD? ==> forall b :: 0 <= b < |p.lengths| ==> p.lengths[b] == 1
  {
    var rows := RealRows(p.cards, p.lengths);
    if p.shape.SINGLE_CARD? then Singles(seq(|rows|, b requires 0 <= b < |rows| => rows[b][0])) else Multis(rows)
  }

  ghost predicate HasWidth(row: Row, width: nat) {
    forall k :: 0 <= k < |row| ==> |row[k]| == width
  }

  ghost predicate AllWidth(rows: seq<Row>, width: nat) {
    forall b :: 0 <= b < |rows| ==> HasWidth(rows[b], width)
  }

  /** Overlaying zeros: each row, then zero padding. */
  lemma PaddedRows(rows: seq<Row>, width: nat)
    ensures var lengths := Lengths(rows);
            var zeros := Zeros(|rows|, MaxLength(lengths), width);
            && |Flatten(rows)| == |FlatSlotIndex(lengths, MaxLength(lengths))|
            && ScatterToSlots(Flatten(rows), zeros, lengths, MaxLength(lengths)) == Overlay(rows, zeros)
            && RealRows(Overlay(rows, zeros), lengths) == rows
  {
    var lengths := Lengths(rows);
    var zeros := Zeros(|rows|, MaxLength(lengths), width);
    ScatterOverlays(rows, zeros, MaxLength(lengths));
    forall b | 0 <= b < |rows| ensures RealRows(Overlay(rows, zeros), lengths)[b] == rows[b] {
    }
  }

  lemma WidthOfConcat(a: Row, b: Row, width: nat)
    ensures HasWidth(a + b, width) <==> HasWidth(a, width) && HasWidth(b, width)
  {
    assert forall k :: 0 <= k < |a| ==> (a + b)[k] == a[k];
    assert forall k :: 0 <= k < |b| ==> (a + b)[|a| + k] == b[k];
  }

  lemma {:induction false} FlatWidths(rows: seq<Row>, width: nat)
    ensures AllWidth(rows, width) <==> HasWidth(Flatten(rows), width)
  {
    if rows != [] {
      FlatWidths(rows[1..], width);
      WidthOfConcat(rows[0], Flatten(rows[1..]), width);
      assert forall b :: 0 < b < |rows| ==> rows[b] == rows[1..][b - 1];
      assert forall b :: 0 <= b < |rows| - 1 ==> rows[1..][b] == rows[b + 1];
    }
  }

  lemma {:induction false} NothingToFlatten<T>(rows: seq<seq<T>>)
    requires Flatten(rows) == []
    ensures forall b :: 0 <= b < |rows| ==> rows[b] == []
  {
    if rows != [] {
      NothingToFlatten(rows[1..]);
    }
  }

  /** from_nested packs exactly the batches whose every card has the given width; any lengths, empty examples too.
      Otherwise the first card tells whether its own check or the stacking refuses the batch. */
  lemma PacksExactlyOneWidth(embeddings: Nested, width: nat)
    ensures FromNested(embeddings, width).Packed? <==> AllWidth(RowsOf(embeddings), width)
    ensures FromNested(embeddings, width).ValueError? <==>
            Flatten(RowsOf(embeddings)) != [] && |Flatten(RowsOf(embeddings))[0]| != width
  {
    hide ScatterToSlots, Flatten, MaxLength, Zeros;
    var flat := Flatten(RowsOf(embeddings));
    FlatWidths(RowsOf(embeddings), width);
    if flat != [] && |flat[0]| == width {
      assert (exists k :: 0 <= k < |flat| && |flat[k]| != |flat[0]|) <==>
             !(forall k :: 0 <= k < |flat| ==> |flat[k]| == width);
    }
  }

  lemma CardsOfPacked(embeddings: Nested, width: nat)
    requires FromNested(embeddings, width).Packed?
    ensures var p := FromNested(embeddings, width).embeddings;
            var rows := RowsOf(embeddings);
            && p.lengths == Lengths(rows) && p.mask == MaskFromLengths(p.lengths) && p.shape == ShapeOf(embeddings)
            && p.cards == Overlay(rows, Zeros(|rows|, MaxLength(p.lengths), width))
  {
    var rows := RowsOf(embeddings);
    PaddedRows(rows, width);
    if Flatten(rows) == [] {
      NothingToFlatten(rows);
      var zeros := Zeros(|rows|, MaxLength(Lengths(rows)), width);
      forall b | 0 <= b < |rows| ensures Overlay(rows, zeros)[b] == zeros[b] {
        assert rows[b] + zeros[b][0..] == zeros[b];
      }
      assert Overlay(rows, zeros) == zeros;
    }
  }

  /** Packing keeps the layout invariants, and unpacking gives back exactly what was packed. */
  lemma NestedRoundTrip(embeddings: Nested, width: nat)
    requires FromNested(embeddings, width).Packed?
    ensures var p := FromNested(embeddings, width).embeddings;
            && Valid(p) && PaddingIsZero(p, width)
            && ToNested(p) == embeddings
            && FlatCards(p.cards, p.lengths, MaxLength(p.lengths)) == Flatten(RowsOf(embeddings))
  {
    hide FromNested, FlatCards, StrictlyIncreasing;
    var p, rows := FromNested(embeddings, width).embeddings, RowsOf(embeddings);
    CardsOfPacked(embeddings, width);
    PaddedRows(rows, width);
    FlatCardsAreTheRealRows(p.cards, p.lengths, MaxLength(p.lengths));
    if embeddings.Singles? {
      assert forall b :: 0 <= b < |rows| ==> rows[b][0] == embeddings.cards[b];
      assert ToNested(p).cards == embeddings.cards;
    }
  }
}
