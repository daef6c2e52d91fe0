/** Reading one chunk of decks out of the deck snapshot's CSR arrays, as vectorised index arithmetic. */
module IncidenceGather {
  import opened Sequences

  /** Deck d's cards are cardIndices[deckOffsets[d]..deckOffsets[d + 1]], with cardCounts aligned. */
  datatype Snapshot = Snapshot(deckOffsets: seq<nat>, cardIndices: seq<nat>, cardCounts: seq<nat>)

  /** Offsets in order and in range; each deck lists each card at most once, ascending, with a positive count. */
  ghost predicate Valid(s: Snapshot, cardTotal: nat) {
    && |s.deckOffsets| > 0 && |s.cardCounts| == |s.cardIndices|
    && (forall d :: 0 <= d < |s.deckOffsets| ==> s.deckOffsets[d] <= |s.cardIndices|)
    && (forall d :: 0 < d < |s.deckOffsets| ==> s.deckOffsets[d - 1] <= s.deckOffsets[d])
    && (forall e :: 0 <= e < |s.cardIndices| ==> s.cardIndices[e] < cardTotal && s.cardCounts[e] > 0)
    && forall d, e, f :: 0 < d < |s.deckOffsets| && s.deckOffsets[d - 1] <= e < f < s.deckOffsets[d] ==>
         s.cardIndices[e] < s.cardIndices[f]
  }

  ghost predicate AreDecks(s: Snapshot, deckRows: seq<nat>) {
    forall k :: 0 <= k < |deckRows| ==> deckRows[k] + 1 < |s.deckOffsets|
  }

  // ----- np.repeat and np.arange

  function Constant(length: nat, value: int): (constant: seq<int>)
    ensures |constant| == length && forall i :: 0 <= i < length ==> constant[i] == value
  {
    seq(length, _ => value)
  }

  function Repeat(values: seq<int>, lengths: seq<nat>): seq<int>
    requires |values| == |lengths|
  {
    if values == [] then [] else Constant(lengths[0], values[0]) + Repeat(values[1..], lengths[1..])
  }

  function Minus(a: seq<int>, b: seq<int>): (difference: seq<int>)
    requires |a| == |b|
    ensures |difference| == |a|
  {
    seq(|a|, i requires 0 <= i < |a| => a[i] - b[i])
  }

  function Plus(a: seq<int>, b: seq<int>): (total: seq<int>)
    requires |a| == |b|
    ensures |total| == |a|
  {
    seq(|a|, i requires 0 <= i < |a| => a[i] + b[i])
  }

  function Range(start: int, length: nat): (range: seq<int>)
    ensures |range| == length
  {
    seq(length, i => start + i)
  }

  lemma {:induction false} RepeatedLength(values: seq<int>, lengths: seq<nat>)
    requires |values| == |lengths|
    ensures |Repeat(values, lengths)| == Total(lengths)
  {
    if values != [] {
      RepeatedLength(values[1..], lengths[1..]);
    }
  }

  // ----- the gather reads each deck's slice, deck after deck

  function DeckStarts(s: Snapshot, deckRows: seq<nat>): (starts: seq<int>)
    requires AreDecks(s, deckRows)
    ensures |starts| == |deckRows|
  {
    seq(|deckRows|, k requires 0 <= k < |deckRows| => s.deckOffsets[deckRows[k]])
  }

  function DeckLengths(s: Snapshot, deckRows: seq<nat>, cardTotal: nat): (lengths: seq<nat>)
    requires Valid(s, cardTotal) && AreDecks(s, deckRows)
    ensures |lengths| == |deckRows|
  {
    seq(|deckRows|, k requires 0 <= k < |deckRows| =>
      s.deckOffsets[deckRows[k] + 1] - s.deckOffsets[deckRows[k] + 1 - 1])
  }

  /** arange(total) minus each entry's deck's first position, plus that deck's start. */
  function GatheredFrom(base: nat, starts: seq<int>, lengths: seq<nat>): seq<int>
    requires |starts| == |lengths|
  {
    RepeatedLength(Minus(CumulativeSum(base, lengths), lengths), lengths);
    RepeatedLength(starts, lengths);
    var firstOfDeck := Minus(CumulativeSum(base, lengths), lengths);
    Plus(Minus(Range(base, Total(lengths)), Repeat(firstOfDeck, lengths)), Repeat(starts, lengths))
  }

  function Slices(starts: seq<int>, lengths: seq<nat>): (slices: seq<seq<int>>)
    requires |starts| == |lengths|
    ensures |slices| == |starts|
  {
    seq(|starts|, d requires 0 <= d < |starts| => Range(starts[d], lengths[d]))
  }

  lemma {:induction false} GatherReadsSlices(base: nat, starts: seq<int>, lengths: seq<nat>)
    requires |starts| == |lengths|
    ensures GatheredFrom(base, starts, lengths) == Flatten(Slices(starts, lengths))
    decreases lengths
  {
    if lengths != [] {
      var next := base + lengths[0];
      GatherReadsSlices(next, starts[1..], lengths[1..]);
      assert Slices(starts, lengths)[1..] == Slices(starts[1..], lengths[1..]);
      FirstSliceThenRest(base, starts, lengths);
    }
  }

  lemma FirstSliceThenRest(base: nat, starts: seq<int>, lengths: seq<nat>)
    requires |starts| == |lengths| > 0
    ensures GatheredFrom(base, starts, lengths) ==
            Range(starts[0], lengths[0]) + GatheredFrom(base + lengths[0], starts[1..], lengths[1..])
  {
    var next, n := base + lengths[0], lengths[0];
    var first := Minus(CumulativeSum(base, lengths), lengths);
    var rest := Minus(CumulativeSum(next, lengths[1..]), lengths[1..]);
    assert first[0] == base && first[1..] == rest;
    var all, left := GatheredFrom(base, starts, lengths), Range(starts[0], n);
    var right := GatheredFrom(next, starts[1..], lengths[1..]);
    RepeatedLength(first, lengths);
    RepeatedLength(starts, lengths);
    RepeatedLength(rest, lengths[1..]);
    RepeatedLength(starts[1..], lengths[1..]);
    forall p | 0 <= p < |all| ensures all[p] == (left + right)[p] {
      if p >= n {
        assert Repeat(first, lengths)[p] == Repeat(rest, lengths[1..])[p - n];
        assert Repeat(starts, lengths)[p] == Repeat(starts[1..], lengths[1..])[p - n];
      }
    }
  }

  // ----- kept cards and their columns

  function KeptBefore(cardMask: seq<bool>, row: nat): nat
    requires row <= |cardMask|
  {
    if row == 0 then 0 else KeptBefore(cardMask, row - 1) + (if cardMask[row - 1] then 1 else 0)
  }

  /** Each card's column in the kept-card matrix, -1 if the card is dropped. */
  function Positions(cardMask: seq<bool>): (positions: seq<int>)
    ensures |positions| == |cardMask|
  {
    seq(|cardMask|, row requires 0 <= row < |cardMask| => if cardMask[row] then KeptBefore(cardMask, row) else -1)
  }

  method PositionsOf(cardMask: seq<bool>) returns (result: array<int>)
    ensures fresh(result) && result[..] == Positions(cardMask)
  {
    result := new int[|cardMask|](_ => -1);
    var next := 0;
    for row := 0 to |cardMask|
      invariant next == KeptBefore(cardMask, row)
      invariant forall r :: 0 <= r < row ==> result[r] == Positions(cardMask)[r]
      invariant forall r :: row <= r < |cardMask| ==> result[r] == -1
    {
      if cardMask[row] {
        result[row] := next;
        next := next + 1;
      }
    }
  }

  lemma {:induction false} KeptBeforeGrows(cardMask: seq<bool>, row: nat, later: nat)
    requires row < later <= |cardMask| && cardMask[row]
    ensures KeptBefore(cardMask, row) < KeptBefore(cardMask, later)
    decreases later
  {
    if row < later - 1 {
      KeptBeforeGrows(cardMask, row, later - 1);
    }
  }

  // ----- the coordinate triples of one chunk, and the CSR rows they convert to

  datatype Triple = Triple(deck: int, column: nat, copies: nat)
  datatype Entry = Entry(column: nat, copies: nat)

  ghost predicate InSnapshot(s: Snapshot, positions: seq<int>, entries: seq<int>) {
    forall p :: 0 <= p < |entries| ==>
      0 <= entries[p] < |s.cardIndices| == |s.cardCounts| && s.cardIndices[entries[p]] < |positions|
  }

  /** The kept entries of a gather, each with the chunk row of its deck. */
  function KeptTriples(s: Snapshot, positions: seq<int>, deckOf: seq<int>, entries: seq<int>): seq<Triple>
    requires |deckOf| == |entries| && InSnapshot(s, positions, entries)
    decreases entries
  {
    if entries == [] then []
    else
      assert forall p :: 0 <= p < |entries| - 1 ==> entries[1..][p] == entries[p + 1];
      var column, rest := positions[s.cardIndices[entries[0]]], KeptTriples(s, positions, deckOf[1..], entries[1..]);
      if column >= 0 then [Triple(deckOf[0], column, s.cardCounts[entries[0]])] + rest else rest
  }

  function RowFor(triples: seq<Triple>, deck: int): seq<Entry> {
    if triples == [] then []
    else if triples[0].deck == deck then [Entry(triples[0].column, triples[0].copies)] + RowFor(triples[1..], deck)
    else RowFor(triples[1..], deck)
  }

  /** The kept cards of one slice, in kept-card columns. */
  function KeptEntries(s: Snapshot, positions: seq<int>, entries: seq<int>): seq<Entry>
    requires InSnapshot(s, positions, entries)
    decreases entries
  {
    if entries == [] then []
    else
      assert forall p :: 0 <= p < |entries| - 1 ==> entries[1..][p] == entries[p + 1];
      var column, rest := positions[s.cardIndices[entries[0]]], KeptEntries(s, positions, entries[1..]);
      if column >= 0 then [Entry(column, s.cardCounts[entries[0]])] + rest else rest
  }

  lemma {:induction false} TriplesConcat(s: Snapshot, positions: seq<int>, d1: seq<int>, e1: seq<int>, d2: seq<int>,
                                         e2: seq<int>)
    requires |d1| == |e1| && |d2| == |e2| && InSnapshot(s, positions, e1) && InSnapshot(s, positions, e2)
    ensures InSnapshot(s, positions, e1 + e2)
    ensures KeptTriples(s, positions, d1 + d2, e1 + e2) ==
            KeptTriples(s, positions, d1, e1) + KeptTriples(s, positions, d2, e2)
    decreases e1
  {
    if e1 == [] {
      assert d1 + d2 == d2 && e1 + e2 == e2;
    } else {
      assert forall p :: 0 <= p < |e1| - 1 ==> e1[1..][p] == e1[p + 1];
      TriplesConcat(s, positions, d1[1..], e1[1..], d2, e2);
      assert (d1 + d2)[1..] == d1[1..] + d2 && (e1 + e2)[1..] == e1[1..] + e2;
    }
  }

  lemma {:induction false} RowForConcat(a: seq<Triple>, b: seq<Triple>, deck: int)
    ensures RowFor(a + b, deck) == RowFor(a, deck) + RowFor(b, deck)
  {
    if a == [] {
      assert a + b == b;
    } else {
      RowForConcat(a[1..], b, deck);
      assert (a + b)[1..] == a[1..] + b && (a + b)[0] == a[0];
      var own := [Entry(a[0].column, a[0].copies)];
      assert own + (RowFor(a[1..], deck) + RowFor(b, deck)) == own + RowFor(a[1..], deck) + RowFor(b, deck);
    }
  }

  lemma RestInSnapshot(s: Snapshot, positions: seq<int>, entries: seq<int>)
    requires entries != [] && InSnapshot(s, positions, entries)
    ensures InSnapshot(s, positions, entries[1..])
  {
    var rest := entries[1..];
    forall p | 0 <= p < |rest|
      ensures 0 <= rest[p] < |s.cardIndices| == |s.cardCounts| && s.cardIndices[rest[p]] < |positions|
    {
      assert rest[p] == entries[p + 1];
    }
  }

  /** The triples of one deck's slice give that deck's row, and nothing to any other. */
  lemma {:induction false} OneDeckRow(s: Snapshot, positions: seq<int>, deck: int, entries: seq<int>, other: int)
    requires InSnapshot(s, positions, entries)
    ensures RowFor(KeptTriples(s, positions, Constant(|entries|, deck), entries), other) ==
            if other == deck then KeptEntries(s, positions, entries) else []
    decreases entries
  {
    if entries != [] {
      RestInSnapshot(s, positions, entries);
      OneDeckRow(s, positions, deck, entries[1..], other);
      assert Constant(|entries|, deck)[1..] == Constant(|entries| - 1, deck);
    }
  }

  ghost predicate AllInSnapshot(s: Snapshot, positions: seq<int>, slices: seq<seq<int>>) {
    forall d :: 0 <= d < |slices| ==> InSnapshot(s, positions, slices[d])
  }

  lemma {:induction false} FlattenedInSnapshot(s: Snapshot, positions: seq<int>, slices: seq<seq<int>>)
    requires AllInSnapshot(s, positions, slices)
    ensures InSnapshot(s, positions, Flatten(slices))
  {
    if slices != [] {
      assert forall d :: 0 < d < |slices| ==> slices[d] == slices[1..][d - 1];
      FlattenedInSnapshot(s, positions, slices[1..]);
    }
  }

  function ChunkTriples(s: Snapshot, positions: seq<int>, firstDeck: int, slices: seq<seq<int>>): seq<Triple>
    requires AllInSnapshot(s, positions, slices)
  {
    FlattenedInSnapshot(s, positions, slices);
    FlattenedTotal(slices);
    RepeatedLength(Range(firstDeck, |slices|), Lengths(slices));
    KeptTriples(s, positions, Repeat(Range(firstDeck, |slices|), Lengths(slices)), Flatten(slices))
  }

  lemma ChunkTriplesSplit(s: Snapshot, positions: seq<int>, firstDeck: int, slices: seq<seq<int>>)
    requires AllInSnapshot(s, positions, slices) && slices != []
    ensures AllInSnapshot(s, positions, slices[1..])
    ensures ChunkTriples(s, positions, firstDeck, slices) ==
            KeptTriples(s, positions, Constant(|slices[0]|, firstDeck), slices[0]) +
            ChunkTriples(s, positions, firstDeck + 1, slices[1..])
  {
    assert forall d :: 0 < d < |slices| ==> slices[d] == slices[1..][d - 1];
    FirstRepeated(firstDeck, slices);
    assert Flatten(slices) == slices[0] + Flatten(slices[1..]);
    hide KeptTriples, InSnapshot, Repeat, Flatten;
    FlattenedInSnapshot(s, positions, slices[1..]);
    FlattenedTotal(slices[1..]);
    RepeatedLength(Range(firstDeck + 1, |slices| - 1), Lengths(slices[1..]));
    TriplesConcat(s, positions, Constant(|slices[0]|, firstDeck), slices[0],
                  Repeat(Range(firstDeck + 1, |slices| - 1), Lengths(slices[1..])), Flatten(slices[1..]));
  }

  lemma FirstRepeated(firstDeck: int, slices: seq<seq<int>>)
    requires slices != []
    ensures Repeat(Range(firstDeck, |slices|), Lengths(slices)) ==
            Constant(|slices[0]|, firstDeck) + Repeat(Range(firstDeck + 1, |slices| - 1), Lengths(slices[1..]))
  {
    var decks, lengths := Range(firstDeck, |slices|), Lengths(slices);
    RepeatStep(decks, lengths);
    hide Repeat, Constant;
    assert decks[1..] == Range(firstDeck + 1, |slices| - 1);
    assert lengths[1..] == Lengths(slices[1..]);
  }

  lemma RepeatStep(values: seq<int>, lengths: seq<nat>)
    requires |values| == |lengths| > 0
    ensures Repeat(values, lengths) == Constant(lengths[0], values[0]) + Repeat(values[1..], lengths[1..])
  {
  }

  lemma NoTriples(s: Snapshot, positions: seq<int>, firstDeck: int, deck: int)
    ensures RowFor(ChunkTriples(s, positions, firstDeck, []), deck) == []
  {
  }

  /** Row d of the chunk's matrix holds exactly deck d's kept cards, in stored order; other rows hold none of them. */
  lemma {:induction false} ChunkRows(s: Snapshot, positions: seq<int>, firstDeck: int, slices: seq<seq<int>>, deck: int)
    requires AllInSnapshot(s, positions, slices)
    ensures RowFor(ChunkTriples(s, positions, firstDeck, slices), deck) ==
            if firstDeck <= deck < firstDeck + |slices| then KeptEntries(s, positions, slices[deck - firstDeck]) else []
    decreases slices
  {
    hide ChunkTriples, KeptTriples, KeptEntries, InSnapshot, RowFor;
    if slices == [] {
      NoTriples(s, positions, firstDeck, deck);
    } else {
      ChunkTriplesSplit(s, positions, firstDeck, slices);
      var first := KeptTriples(s, positions, Constant(|slices[0]|, firstDeck), slices[0]);
      RowForConcat(first, ChunkTriples(s, positions, firstDeck + 1, slices[1..]), deck);
      OneDeckRow(s, positions, firstDeck, slices[0], deck);
      ChunkRows(s, positions, firstDeck + 1, slices[1..], deck);
    }
  }
}
