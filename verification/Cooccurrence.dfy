/** The chunked card-by-card co-occurrence count, against the sum over decks of each deck's own products. */
module Cooccurrence {
  import opened Reals
  import opened Sequences
  import opened IncidenceGather
  import opened CooccurrenceWeights

  datatype Inputs = Inputs(snapshot: Snapshot, deckRows: seq<nat>, cardMask: seq<bool>)

  ghost predicate ValidInputs(inputs: Inputs) {
    Valid(inputs.snapshot, |inputs.cardMask|) && AreDecks(inputs.snapshot, inputs.deckRows)
  }

  function CardTotal(inputs: Inputs): nat {
    KeptBefore(inputs.cardMask, |inputs.cardMask|)
  }

  // ----- one deck's row

  /** The kept cards of one deck: its slice of the snapshot, dropped cards removed. */
  function KeptRow(inputs: Inputs, deck: nat): seq<Entry>
    requires ValidInputs(inputs) && deck + 1 < |inputs.snapshot.deckOffsets|
  {
    var start, end := inputs.snapshot.deckOffsets[deck], inputs.snapshot.deckOffsets[deck + 1];
    assert inputs.snapshot.deckOffsets[deck + 1 - 1] == start;
    KeptEntries(inputs.snapshot, Positions(inputs.cardMask), Range(start, end - start))
  }

  lemma ChunkSlices(inputs: Inputs, chunk: seq<nat>)
    requires ValidInputs(inputs) && AreDecks(inputs.snapshot, chunk)
    ensures var slices := Slices(DeckStarts(inputs.snapshot, chunk),
                                 DeckLengths(inputs.snapshot, chunk, |inputs.cardMask|));
            AllInSnapshot(inputs.snapshot, Positions(inputs.cardMask), slices)
  {
    var s := inputs.snapshot;
    forall d | 0 <= d < |chunk|
      ensures InSnapshot(s, Positions(inputs.cardMask),
                         Range(DeckStarts(s, chunk)[d], DeckLengths(s, chunk, |inputs.cardMask|)[d]))
    {
      assert s.deckOffsets[chunk[d] + 1] <= |s.cardIndices|;
    }
  }

  /** The gathered entries are the decks' slices, joined, and each is paired with its deck's row. */
  lemma GatherIsReady(inputs: Inputs, chunk: seq<nat>)
    requires ValidInputs(inputs) && AreDecks(inputs.snapshot, chunk)
    ensures var s, positions := inputs.snapshot, Positions(inputs.cardMask);
            var starts, lengths := DeckStarts(s, chunk), DeckLengths(s, chunk, |inputs.cardMask|);
            var entry, slices := GatheredFrom(0, starts, lengths), Slices(starts, lengths);
            && |Repeat(Range(0, |chunk|), lengths)| == |entry| && InSnapshot(s, positions, entry)
            && entry == Flatten(slices) && AllInSnapshot(s, positions, slices) && Lengths(slices) == lengths
  {
    var s, positions := inputs.snapshot, Positions(inputs.cardMask);
    var starts, lengths := DeckStarts(s, chunk), DeckLengths(s, chunk, |inputs.cardMask|);
    var slices := Slices(starts, lengths);
    GatherReadsSlices(0, starts, lengths);
    ChunkSlices(inputs, chunk);
    FlattenedInSnapshot(s, positions, slices);
    FlattenedTotal(slices);
    RepeatedLength(Range(0, |chunk|), lengths);
    assert Lengths(slices) == lengths;
  }

  /** _copies_of: gather the chunk's slices at once, keep the kept cards' entries, convert to rows. */
  function CopiesOf(inputs: Inputs, chunk: seq<nat>): (copies: seq<seq<Entry>>)
    requires ValidInputs(inputs) && AreDecks(inputs.snapshot, chunk)
    ensures |copies| == |chunk|
  {
    var s := inputs.snapshot;
    var starts, lengths := DeckStarts(s, chunk), DeckLengths(s, chunk, |inputs.cardMask|);
    var deckOfEntry := Repeat(Range(0, |chunk|), lengths);
    var entry := GatheredFrom(0, starts, lengths);
    GatherIsReady(inputs, chunk);
    var triples := KeptTriples(s, Positions(inputs.cardMask), deckOfEntry, entry);
    seq(|chunk|, d requires 0 <= d < |chunk| => RowFor(triples, d))
  }

  /** Row d of the gathered chunk is deck d's own kept cards. */
  lemma CopiesAreKeptRows(inputs: Inputs, chunk: seq<nat>, d: nat)
    requires ValidInputs(inputs) && AreDecks(inputs.snapshot, chunk) && d < |chunk|
    ensures CopiesOf(inputs, chunk)[d] == KeptRow(inputs, chunk[d])
  {
    hide KeptTriples, KeptEntries, InSnapshot, Repeat, Flatten, RowFor, Valid;
    var s, positions := inputs.snapshot, Positions(inputs.cardMask);
    var starts, lengths := DeckStarts(s, chunk), DeckLengths(s, chunk, |inputs.cardMask|);
    GatherIsReady(inputs, chunk);
    ChunkRows(s, positions, 0, Slices(starts, lengths), d);
  }

  function KeptRows(inputs: Inputs, decks: seq<nat>): (rows: seq<seq<Entry>>)
    requires ValidInputs(inputs) && AreDecks(inputs.snapshot, decks)
    ensures |rows| == |decks|
  {
    seq(|decks|, d requires 0 <= d < |decks| => KeptRow(inputs, decks[d]))
  }

  lemma GatheredChunk(inputs: Inputs, chunk: seq<nat>)
    requires ValidInputs(inputs) && AreDecks(inputs.snapshot, chunk)
    ensures CopiesOf(inputs, chunk) == KeptRows(inputs, chunk)
  {
    hide CopiesOf, KeptRow;
    forall d | 0 <= d < |chunk| ensures CopiesOf(inputs, chunk)[d] == KeptRow(inputs, chunk[d]) {
      CopiesAreKeptRows(inputs, chunk, d);
    }
  }

  // ----- a kept row stores each kept card of the deck once, in its own column, and nothing else

  lemma {:induction false} KeptBeforeIsMonotone(cardMask: seq<bool>, row: nat, later: nat)
    requires row <= later <= |cardMask|
    ensures KeptBefore(cardMask, row) <= KeptBefore(cardMask, later)
    decreases later
  {
    if row < later {
      KeptBeforeIsMonotone(cardMask, row, later - 1);
    }
  }

  /** Entries of cards in ascending snapshot order, from card `from` on, with positive counts. */
  ghost predicate IsAscending(s: Snapshot, entries: seq<int>, from: nat) {
    && (forall p :: 0 <= p < |entries| ==> 0 <= entries[p] < |s.cardIndices| == |s.cardCounts|)
    && (forall p :: 0 <= p < |entries| ==> from <= s.cardIndices[entries[p]] && s.cardCounts[entries[p]] > 0)
    && forall p, q :: 0 <= p < q < |entries| ==> s.cardIndices[entries[p]] < s.cardIndices[entries[q]]
  }

  ghost predicate HasAscendingColumns(row: seq<Entry>, from: nat, width: nat) {
    && (forall k :: 0 <= k < |row| ==> from <= row[k].column < width && row[k].copies > 0)
    && forall k, l :: 0 <= k < l < |row| ==> row[k].column < row[l].column
  }

  lemma RestAscends(s: Snapshot, positions: seq<int>, entries: seq<int>, from: nat)
    requires entries != [] && IsAscending(s, entries, from) && InSnapshot(s, positions, entries)
    ensures IsAscending(s, entries[1..], s.cardIndices[entries[0]] + 1) && InSnapshot(s, positions, entries[1..])
  {
    assert forall p :: 0 <= p < |entries| - 1 ==> entries[1..][p] == entries[p + 1];
  }

  lemma {:induction false} KeptColumnsAscend(s: Snapshot, cardMask: seq<bool>, entries: seq<int>, from: nat)
    requires from <= |cardMask| && IsAscending(s, entries, from) && InSnapshot(s, Positions(cardMask), entries)
    ensures HasAscendingColumns(KeptEntries(s, Positions(cardMask), entries), KeptBefore(cardMask, from),
                                KeptBefore(cardMask, |cardMask|))
    decreases |entries|
  {
    if entries != [] {
      var card := s.cardIndices[entries[0]];
      RestAscends(s, Positions(cardMask), entries, from);
      KeptColumnsAscend(s, cardMask, entries[1..], card + 1);
      KeptBeforeIsMonotone(cardMask, from, card);
      KeptBeforeIsMonotone(cardMask, card + 1, |cardMask|);
    }
  }

  lemma {:induction false} EntryIsKept(s: Snapshot, cardMask: seq<bool>, entries: seq<int>, p: nat) returns (k: nat)
    requires InSnapshot(s, Positions(cardMask), entries) && p < |entries| && cardMask[s.cardIndices[entries[p]]]
    ensures var row := KeptEntries(s, Positions(cardMask), entries);
            && k < |row|
            && row[k] == Entry(KeptBefore(cardMask, s.cardIndices[entries[p]]), s.cardCounts[entries[p]])
    decreases |entries|
  {
    assert forall q :: 0 <= q < |entries| - 1 ==> entries[1..][q] == entries[q + 1];
    if p == 0 {
      k := 0;
    } else {
      k := EntryIsKept(s, cardMask, entries[1..], p - 1);
      if cardMask[s.cardIndices[entries[0]]] {
        k := k + 1;
      }
    }
  }

  lemma {:induction false} KeptCameFrom(s: Snapshot, cardMask: seq<bool>, entries: seq<int>, k: nat) returns (p: nat)
    requires InSnapshot(s, Positions(cardMask), entries) && k < |KeptEntries(s, Positions(cardMask), entries)|
    ensures p < |entries| && cardMask[s.cardIndices[entries[p]]]
    ensures KeptEntries(s, Positions(cardMask), entries)[k].column == KeptBefore(cardMask, s.cardIndices[entries[p]])
    decreases |entries|
  {
    assert forall q :: 0 <= q < |entries| - 1 ==> entries[1..][q] == entries[q + 1];
    if cardMask[s.cardIndices[entries[0]]] && k == 0 {
      p := 0;
    } else {
      var later := KeptCameFrom(s, cardMask, entries[1..], if cardMask[s.cardIndices[entries[0]]] then k - 1 else k);
      p := later + 1;
    }
  }

  /** Columns are distinct, within the matrix, and hold positive counts. */
  lemma KeptRowIsRow(inputs: Inputs, deck: nat)
    requires ValidInputs(inputs) && deck + 1 < |inputs.snapshot.deckOffsets|
    ensures HasAscendingColumns(KeptRow(inputs, deck), 0, CardTotal(inputs))
  {
    var s, start := inputs.snapshot, inputs.snapshot.deckOffsets[deck];
    assert s.deckOffsets[deck + 1 - 1] == start;
    var slice := Range(start, s.deckOffsets[deck + 1] - start);
    assert IsAscending(s, slice, 0);
    KeptColumnsAscend(s, inputs.cardMask, slice, 0);
  }

  lemma WeightedRowIsRow(row: seq<Entry>, options: Options, maths: Maths, width: nat)
    requires ValidMaths(maths) && HasAscendingColumns(row, 0, width)
    ensures IsRow(WeightedRow(row, options, maths), width)
  {
  }

  ghost predicate Holds(inputs: Inputs, deck: nat, card: nat)
    requires ValidInputs(inputs) && deck + 1 < |inputs.snapshot.deckOffsets|
  {
    var s := inputs.snapshot;
    exists e :: s.deckOffsets[deck] <= e < s.deckOffsets[deck + 1] <= |s.cardIndices|
                && inputs.snapshot.cardIndices[e] == card
  }

  /** A kept card's weight in a deck holding it is its own copy weight times the deck's scale. */
  lemma WeightOfHeldCard(inputs: Inputs, deck: nat, e: nat, options: Options, maths: Maths)
    requires ValidInputs(inputs) && deck + 1 < |inputs.snapshot.deckOffsets| && ValidMaths(maths)
    requires inputs.snapshot.deckOffsets[deck] <= e < inputs.snapshot.deckOffsets[deck + 1]
    requires inputs.snapshot.deckOffsets[deck + 1] <= |inputs.snapshot.cardIndices|
    requires inputs.cardMask[inputs.snapshot.cardIndices[e]]
    ensures var row, rule := KeptRow(inputs, deck), options.copyCountRule;
            Value(WeightedRow(row, options, maths), Positions(inputs.cardMask)[inputs.snapshot.cardIndices[e]]) ==
            Times(DeckScale(CopyWeighted(row, rule, maths), options.deckSizeRule, maths),
                    CopyWeight(inputs.snapshot.cardCounts[e], rule, maths))
  {
    var s, start := inputs.snapshot, inputs.snapshot.deckOffsets[deck];
    assert s.deckOffsets[deck + 1 - 1] == start;
    var row := KeptRow(inputs, deck);
    KeptRowIsRow(inputs, deck);
    var k := EntryIsKept(s, inputs.cardMask, Range(start, s.deckOffsets[deck + 1] - start), e - start);
    var cells := WeightedRow(row, options, maths);
    ValueOfStored(cells, k);
  }

  lemma {:induction false} KeptBeforeIsInjective(cardMask: seq<bool>, a: nat, b: nat)
    requires a < |cardMask| && b < |cardMask| && cardMask[a] && cardMask[b]
    requires KeptBefore(cardMask, a) == KeptBefore(cardMask, b)
    ensures a == b
  {
    if a < b {
      KeptBeforeGrows(cardMask, a, b);
    } else if b < a {
      KeptBeforeGrows(cardMask, b, a);
    }
  }

  /** A kept card no entry of the deck names weighs nothing in it. */
  lemma WeightOfMissingCard(inputs: Inputs, deck: nat, card: nat, options: Options, maths: Maths)
    requires ValidInputs(inputs) && deck + 1 < |inputs.snapshot.deckOffsets| && ValidMaths(maths)
    requires card < |inputs.cardMask| && inputs.cardMask[card] && !Holds(inputs, deck, card)
    ensures Value(WeightedRow(KeptRow(inputs, deck), options, maths), Positions(inputs.cardMask)[card]) == 0.0
  {
    var s, start := inputs.snapshot, inputs.snapshot.deckOffsets[deck];
    assert s.deckOffsets[deck + 1 - 1] == start;
    var row := KeptRow(inputs, deck);
    var slice := Range(start, s.deckOffsets[deck + 1] - start);
    forall k | 0 <= k < |row| ensures row[k].column != Positions(inputs.cardMask)[card] {
      var p := KeptCameFrom(s, inputs.cardMask, slice, k);
      if row[k].column == KeptBefore(inputs.cardMask, card) {
        KeptBeforeIsInjective(inputs.cardMask, s.cardIndices[slice[p]], card);
      }
    }
    ValueOfAbsent(WeightedRow(row, options, maths), Positions(inputs.cardMask)[card]);
  }
}
