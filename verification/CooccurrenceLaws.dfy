/** What the finished co-occurrence counts are, read off the deck snapshot alone. */
module CooccurrenceLaws {
  import opened Reals
  import opened Sequences
  import opened IncidenceGather
  import opened CooccurrenceWeights
  import opened Cooccurrence
  import opened CooccurrenceCount

  ghost predicate IsDeck(inputs: Inputs, deck: nat) {
    ValidInputs(inputs) && deck + 1 < |inputs.snapshot.deckOffsets|
  }

  predicate IsKept(inputs: Inputs, card: nat) {
    card < |inputs.cardMask| && inputs.cardMask[card]
  }

  /** The stored copies of a card a deck holds. */
  ghost function StoredCopies(inputs: Inputs, deck: nat, card: nat): nat
    requires IsDeck(inputs, deck) && Holds(inputs, deck, card)
  {
    var s := inputs.snapshot;
    var e :| s.deckOffsets[deck] <= e < s.deckOffsets[deck + 1] <= |s.cardIndices| && s.cardIndices[e] == card;
    s.cardCounts[e]
  }

  /** Over the decks that hold both cards, the sum of the product of the two cards' weights. */
  ghost function PairSum(inputs: Inputs, decks: seq<nat>, a: nat, b: nat, weight: nat -> real): real
    requires ValidInputs(inputs) && AreDecks(inputs.snapshot, decks)
  {
    if decks == [] then 0.0
    else
      assert AreDecks(inputs.snapshot, decks[1..]);
      (if Holds(inputs, decks[0], a) && Holds(inputs, decks[0], b)
       then Times(weight(StoredCopies(inputs, decks[0], a)), weight(StoredCopies(inputs, decks[0], b))) else 0.0)
      + PairSum(inputs, decks[1..], a, b, weight)
  }

  /** How many of the decks hold both cards. */
  ghost function HoldingBoth(inputs: Inputs, decks: seq<nat>, a: nat, b: nat): nat
    requires ValidInputs(inputs) && AreDecks(inputs.snapshot, decks)
  {
    if decks == [] then 0
    else
      assert AreDecks(inputs.snapshot, decks[1..]);
      (if Holds(inputs, decks[0], a) && Holds(inputs, decks[0], b) then 1 else 0)
      + HoldingBoth(inputs, decks[1..], a, b)
  }

  // ----- one deck

  ghost predicate WeighsAs(rule: CopyCountRule, maths: Maths, weight: nat -> real) {
    forall copies: nat :: copies > 0 ==> weight(copies) == CopyWeight(copies, rule, maths)
  }

  lemma ValueUnderUniform(inputs: Inputs, deck: nat, card: nat, options: Options, maths: Maths, weight: nat -> real)
    requires IsDeck(inputs, deck) && ValidMaths(maths) && IsKept(inputs, card)
    requires options.deckSizeRule == UNIFORM && WeighsAs(options.copyCountRule, maths, weight)
    ensures Value(WeightedRow(KeptRow(inputs, deck), options, maths), KeptBefore(inputs.cardMask, card)) ==
            if Holds(inputs, deck, card) then weight(StoredCopies(inputs, deck, card)) else 0.0
  {
    hide KeptRow, WeightedRow, Value, CopyWeight;
    var s := inputs.snapshot;
    assert s.deckOffsets[deck + 1 - 1] <= s.deckOffsets[deck + 1];
    if Holds(inputs, deck, card) {
      var e :| s.deckOffsets[deck] <= e < s.deckOffsets[deck + 1] <= |s.cardIndices| && s.cardIndices[e] == card;
      StoredCopiesAt(inputs, deck, e);
      WeightOfHeldCard(inputs, deck, e, options, maths);
      OneTimes(CopyWeight(s.cardCounts[e], options.copyCountRule, maths));
    } else {
      WeightOfMissingCard(inputs, deck, card, options, maths);
    }
  }

  lemma OneTimes(x: real)
    ensures Times(1.0, x) == x
  {
  }

  /** A deck lists a card at most once. */
  lemma StoredCopiesAt(inputs: Inputs, deck: nat, e: nat)
    requires IsDeck(inputs, deck)
    requires inputs.snapshot.deckOffsets[deck] <= e < inputs.snapshot.deckOffsets[deck + 1]
    requires inputs.snapshot.deckOffsets[deck + 1] <= |inputs.snapshot.cardIndices|
    ensures Holds(inputs, deck, inputs.snapshot.cardIndices[e])
    ensures StoredCopies(inputs, deck, inputs.snapshot.cardIndices[e]) == inputs.snapshot.cardCounts[e] > 0
  {
    var s := inputs.snapshot;
    var card := s.cardIndices[e];
    forall f | s.deckOffsets[deck] <= f < s.deckOffsets[deck + 1] && s.cardIndices[f] == card ensures f == e {
      var next := deck + 1;
      assert s.deckOffsets[next - 1] == s.deckOffsets[deck];
    }
  }

  // ----- the pair counts under UNIFORM

  lemma {:induction false} DotIsPairSum(inputs: Inputs, decks: seq<nat>, a: nat, b: nat, options: Options, maths: Maths,
                                        weight: nat -> real)
    requires ValidInputs(inputs) && AreDecks(inputs.snapshot, decks) && ValidMaths(maths)
    requires IsKept(inputs, a) && IsKept(inputs, b)
    requires options.deckSizeRule == UNIFORM && WeighsAs(options.copyCountRule, maths, weight)
    ensures ColumnDot(Incidence(KeptRows(inputs, decks), options, maths), KeptBefore(inputs.cardMask, a),
                      KeptBefore(inputs.cardMask, b)) == PairSum(inputs, decks, a, b, weight)
    decreases |decks|
  {
    hide WeightedRow, Value, KeptRow, Holds, WeighsAs, Times;
    if decks != [] {
      assert AreDecks(inputs.snapshot, decks[1..]);
      DotIsPairSum(inputs, decks[1..], a, b, options, maths, weight);
      assert Incidence(KeptRows(inputs, decks), options, maths)[1..] ==
             Incidence(KeptRows(inputs, decks[1..]), options, maths);
      ValueUnderUniform(inputs, decks[0], a, options, maths, weight);
      ValueUnderUniform(inputs, decks[0], b, options, maths, weight);
      NoughtTimes();
    }
  }

  lemma NoughtTimes()
    ensures forall x: real :: Times(0.0, x) == 0.0 && Times(x, 0.0) == 0.0
  {
  }

  /** Row r of the counts is a kept card, in the column of that card. */
  lemma RowOfCard(inputs: Inputs, r: nat)
    requires ValidInputs(inputs) && r < |TrueIndices(inputs.cardMask, |inputs.cardMask|)|
    ensures |TrueIndices(inputs.cardMask, |inputs.cardMask|)| == CardTotal(inputs)
    ensures var card := TrueIndices(inputs.cardMask, |inputs.cardMask|)[r];
            IsKept(inputs, card) && KeptBefore(inputs.cardMask, card) == r
  {
    var mask := inputs.cardMask;
    TrueIndicesAreTheSetOnes(mask, |mask|);
    KeptCardTotal(mask, |mask|);
    var rows := TrueIndices(mask, |mask|);
    var column := KeptBefore(mask, rows[r]);
    KeptCardAtItsColumn(mask, |mask|, rows[r]);
    assert rows[column] == rows[r];
  }

  ghost predicate AreRowsOf(counts: Counts, r: nat, c: nat) {
    && r < |counts.cardRows| == |counts.pairCounts| && c < |counts.cardRows| == |counts.pairCounts[r]|
    && |counts.deckCounts| == |counts.cardRows|
  }

  lemma EntryIsPairSum(inputs: Inputs, options: Options, maths: Maths, r: nat, c: nat, weight: nat -> real)
    requires ValidInputs(inputs) && ValidMaths(maths) && CountsOf(inputs, options, maths).Counted?
    requires options.deckSizeRule == UNIFORM && WeighsAs(options.copyCountRule, maths, weight)
    requires r < |CountsOf(inputs, options, maths).counts.cardRows| && r != c
    requires c < |CountsOf(inputs, options, maths).counts.cardRows|
    ensures var counts := CountsOf(inputs, options, maths).counts;
            && AreRowsOf(counts, r, c)
            && counts.pairCounts[r][c] ==
               PairSum(inputs, inputs.deckRows, counts.cardRows[r], counts.cardRows[c], weight)
  {
    hide ColumnDot, Incidence, KeptRows, PairSum, WeighsAs, ValidInputs, TrueIndices;
    RowOfCard(inputs, r);
    RowOfCard(inputs, c);
    var cards := CountsOf(inputs, options, maths).counts.cardRows;
    DecksAreDecks(inputs);
    DotIsPairSum(inputs, inputs.deckRows, cards[r], cards[c], options, maths, weight);
  }

  lemma DecksAreDecks(inputs: Inputs)
    requires ValidInputs(inputs)
    ensures AreDecks(inputs.snapshot, inputs.deckRows)
  {
  }

  lemma {:induction false} SumOfOnes(inputs: Inputs, decks: seq<nat>, a: nat, b: nat, weight: nat -> real)
    requires ValidInputs(inputs) && AreDecks(inputs.snapshot, decks)
    requires forall copies: nat :: copies > 0 ==> weight(copies) == 1.0
    ensures PairSum(inputs, decks, a, b, weight) == HoldingBoth(inputs, decks, a, b) as real
    decreases |decks|
  {
    if decks != [] {
      hide Holds;
      assert AreDecks(inputs.snapshot, decks[1..]);
      SumOfOnes(inputs, decks[1..], a, b, weight);
      if Holds(inputs, decks[0], a) && Holds(inputs, decks[0], b) {
        HeldCopiesArePositive(inputs, decks[0], a);
        HeldCopiesArePositive(inputs, decks[0], b);
      }
    }
  }

  lemma HeldCopiesArePositive(inputs: Inputs, deck: nat, card: nat)
    requires IsDeck(inputs, deck) && Holds(inputs, deck, card)
    ensures StoredCopies(inputs, deck, card) > 0
  {
    var s := inputs.snapshot;
    var e :| s.deckOffsets[deck] <= e < s.deckOffsets[deck + 1] <= |s.cardIndices| && s.cardIndices[e] == card;
    StoredCopiesAt(inputs, deck, e);
  }

  /** PRESENCE counts the selected decks holding both cards, however many copies they hold. */
  lemma PresenceCountsDecks(inputs: Inputs, maths: Maths, r: nat, c: nat)
    requires ValidInputs(inputs) && ValidMaths(maths)
    requires CountsOf(inputs, Options(PRESENCE, UNIFORM), maths).Counted?
    requires r < |CountsOf(inputs, Options(PRESENCE, UNIFORM), maths).counts.cardRows| && r != c
    requires c < |CountsOf(inputs, Options(PRESENCE, UNIFORM), maths).counts.cardRows|
    ensures var counts := CountsOf(inputs, Options(PRESENCE, UNIFORM), maths).counts;
            && AreRowsOf(counts, r, c)
            && counts.pairCounts[r][c] ==
               HoldingBoth(inputs, inputs.deckRows, counts.cardRows[r], counts.cardRows[c]) as real
  {
    hide CountsOf, ValidInputs, PairSum;
    var one := (copies: nat) => 1.0;
    DecksAreDecks(inputs);
    EntryIsPairSum(inputs, Options(PRESENCE, UNIFORM), maths, r, c, one);
    var cards := CountsOf(inputs, Options(PRESENCE, UNIFORM), maths).counts.cardRows;
    SumOfOnes(inputs, inputs.deckRows, cards[r], cards[c], one);
  }

  /** COPIES sums, over those decks, the product of the two cards' stored copies. */
  lemma CopiesMultiply(inputs: Inputs, maths: Maths, r: nat, c: nat, weight: nat -> real)
    requires ValidInputs(inputs) && ValidMaths(maths) && forall copies: nat :: weight(copies) == copies as real
    requires CountsOf(inputs, Options(COPIES, UNIFORM), maths).Counted?
    requires r < |CountsOf(inputs, Options(COPIES, UNIFORM), maths).counts.cardRows| && r != c
    requires c < |CountsOf(inputs, Options(COPIES, UNIFORM), maths).counts.cardRows|
    ensures var counts := CountsOf(inputs, Options(COPIES, UNIFORM), maths).counts;
            && AreRowsOf(counts, r, c)
            && counts.pairCounts[r][c] ==
               PairSum(inputs, inputs.deckRows, counts.cardRows[r], counts.cardRows[c], weight)
  {
    hide CountsOf, ValidInputs, PairSum;
    EntryIsPairSum(inputs, Options(COPIES, UNIFORM), maths, r, c, weight);
  }

  /** LOG_COPIES sums the product of 1 + ln(copies); a single copy then weighs what it does under PRESENCE. */
  lemma LogCopiesMultiply(inputs: Inputs, maths: Maths, r: nat, c: nat, weight: nat -> real)
    requires ValidInputs(inputs) && ValidMaths(maths)
    requires forall copies: nat :: copies > 0 ==> weight(copies) == 1.0 + maths.ln(copies as real)
    requires CountsOf(inputs, Options(LOG_COPIES, UNIFORM), maths).Counted?
    requires r < |CountsOf(inputs, Options(LOG_COPIES, UNIFORM), maths).counts.cardRows| && r != c
    requires c < |CountsOf(inputs, Options(LOG_COPIES, UNIFORM), maths).counts.cardRows|
    ensures var counts := CountsOf(inputs, Options(LOG_COPIES, UNIFORM), maths).counts;
            && AreRowsOf(counts, r, c)
            && counts.pairCounts[r][c] ==
               PairSum(inputs, inputs.deckRows, counts.cardRows[r], counts.cardRows[c], weight)
    ensures maths.ln(1.0) == 0.0 ==> weight(1) == 1.0
  {
    hide CountsOf, ValidInputs, PairSum;
    EntryIsPairSum(inputs, Options(LOG_COPIES, UNIFORM), maths, r, c, weight);
    assert 1 as real == 1.0;
  }

  // ----- INVERSE_SIZE only rescales a deck

  lemma {:induction false} ValueScales(cells: seq<Cell>, scale: real, column: nat)
    ensures Value(Scaled(cells, scale), column) == Times(scale, Value(cells, column))
  {
    if cells == [] {
      assert Scaled(cells, scale) == [];
    } else {
      hide Times;
      ValueScales(cells[1..], scale, column);
      assert Scaled(cells, scale)[1..] == Scaled(cells[1..], scale);
      Distributes(scale, if cells[0].column == column then cells[0].weight else 0.0, Value(cells[1..], column));
      Distributes(scale, 0.0, 0.0);
    }
  }

  /** A deck's share of a pair under INVERSE_SIZE, times the deck's pair total under UNIFORM, is the pair's own
      product under UNIFORM: the deck is one unit split over its pairs in proportion. */
  lemma InverseSizeKeepsProportions(row: seq<Entry>, rule: CopyCountRule, maths: Maths, a: nat, b: nat)
    requires ValidMaths(maths) && |row| >= 2 && forall e :: 0 <= e < |row| ==> row[e].copies > 0
    ensures var uniform, inverse := Options(rule, UNIFORM), Options(rule, INVERSE_SIZE);
            Times(Times(Value(WeightedRow(row, inverse, maths), a), Value(WeightedRow(row, inverse, maths), b)),
                  PairTotal(WeightedRow(row, uniform, maths))) ==
            Times(Value(WeightedRow(row, uniform, maths), a), Value(WeightedRow(row, uniform, maths), b))
  {
    hide Times, PairTotal, Value, Scaled;
    var cells := CopyWeighted(row, rule, maths);
    var total := PairTotal(cells);
    CopyWeightsArePositive(row, rule, maths);
    PositiveExactlyWithAPair(cells);
    var scale := Inverse(maths.sqrt(total));
    InverseRootSquared(maths.sqrt(total), total);
    ScaledByOne(cells);
    ValueScales(cells, scale, a);
    ValueScales(cells, scale, b);
    ScaledProduct(scale, Value(cells, a), Value(cells, b));
    Reorder(Times(scale, scale), Times(Value(cells, a), Value(cells, b)), total);
  }

  lemma ScaledByOne(cells: seq<Cell>)
    ensures Scaled(cells, 1.0) == cells
  {
  }

  lemma Reorder(x: real, y: real, z: real)
    requires Times(x, z) == 1.0
    ensures Times(Times(x, y), z) == y
  {
    assert x * y * z == y * (x * z);
  }

  // ----- the deck counts

  ghost function HoldingOne(inputs: Inputs, decks: seq<nat>, card: nat): nat
    requires ValidInputs(inputs) && AreDecks(inputs.snapshot, decks)
  {
    if decks == [] then 0
    else
      assert AreDecks(inputs.snapshot, decks[1..]);
      (if Holds(inputs, decks[0], card) then 1 else 0) + HoldingOne(inputs, decks[1..], card)
  }

  lemma {:induction false} HoldingCountsDecks(inputs: Inputs, decks: seq<nat>, card: nat)
    requires ValidInputs(inputs) && AreDecks(inputs.snapshot, decks) && IsKept(inputs, card)
    ensures Holding(KeptRows(inputs, decks), KeptBefore(inputs.cardMask, card)) == HoldingOne(inputs, decks, card)
    decreases |decks|
  {
    if decks != [] {
      hide Holds, HasPositive, KeptRow;
      assert AreDecks(inputs.snapshot, decks[1..]);
      HoldingCountsDecks(inputs, decks[1..], card);
      assert KeptRows(inputs, decks)[1..] == KeptRows(inputs, decks[1..]);
      ColumnCountsHoldingDecks(inputs, decks[0], card);
    }
  }

  /** Whatever the weighting, a card's deck count is the number of selected decks holding it. */
  lemma DeckCountsCountDecks(inputs: Inputs, options: Options, maths: Maths, r: nat)
    requires ValidInputs(inputs) && ValidMaths(maths) && CountsOf(inputs, options, maths).Counted?
    requires r < |CountsOf(inputs, options, maths).counts.cardRows|
    ensures var counts := CountsOf(inputs, options, maths).counts;
            && |counts.deckCounts| == |counts.cardRows|
            && counts.deckCounts[r] == HoldingOne(inputs, inputs.deckRows, counts.cardRows[r])
  {
    hide Incidence, KeptRows, ValidInputs, TrueIndices, Holding, HoldingOne;
    RowOfCard(inputs, r);
    DecksAreDecks(inputs);
    HoldingCountsDecks(inputs, inputs.deckRows, CountsOf(inputs, options, maths).counts.cardRows[r]);
  }

  /** A deck's row stores two cards exactly when the deck holds two different kept cards, and none exactly when it
      holds none. */
  lemma RowsStoreHeldCards(inputs: Inputs, deck: nat)
    requires IsDeck(inputs, deck)
    ensures |KeptRow(inputs, deck)| >= 1 <==> exists card :: IsKept(inputs, card) && Holds(inputs, deck, card)
    ensures |KeptRow(inputs, deck)| >= 2 <==>
            exists a, b :: IsKept(inputs, a) && IsKept(inputs, b) && a != b
                           && Holds(inputs, deck, a) && Holds(inputs, deck, b)
  {
    hide KeptRow, Holds;
    var row := KeptRow(inputs, deck);
    KeptRowIsRow(inputs, deck);
    forall card | IsKept(inputs, card) && Holds(inputs, deck, card)
      ensures HasPositive(row, KeptBefore(inputs.cardMask, card))
    {
      ColumnCountsHoldingDecks(inputs, deck, card);
    }
    if |row| >= 1 {
      var a := CardOfEntry(inputs, deck, 0);
      if |row| >= 2 {
        var b := CardOfEntry(inputs, deck, 1);
        assert row[0].column < row[1].column;
      }
    }
    if a: nat, b: nat :| IsKept(inputs, a) && IsKept(inputs, b) && a != b
                         && Holds(inputs, deck, a) && Holds(inputs, deck, b) {
      var k :| 0 <= k < |row| && row[k].column == KeptBefore(inputs.cardMask, a) && row[k].copies > 0;
      var l :| 0 <= l < |row| && row[l].column == KeptBefore(inputs.cardMask, b) && row[l].copies > 0;
      assert k != l by {
        if k == l {
          KeptBeforeIsInjective(inputs.cardMask, a, b);
        }
      }
    }
  }

  lemma CardOfEntry(inputs: Inputs, deck: nat, k: nat) returns (card: nat)
    requires IsDeck(inputs, deck) && k < |KeptRow(inputs, deck)|
    ensures IsKept(inputs, card) && Holds(inputs, deck, card)
    ensures KeptRow(inputs, deck)[k].column == KeptBefore(inputs.cardMask, card)
  {
    var s, start := inputs.snapshot, inputs.snapshot.deckOffsets[deck];
    assert s.deckOffsets[deck + 1 - 1] == start;
    var slice := Range(start, s.deckOffsets[deck + 1] - start);
    var p := KeptCameFrom(s, inputs.cardMask, slice, k);
    card := s.cardIndices[slice[p]];
    assert start <= slice[p] < s.deckOffsets[deck + 1];
  }

  /** How many of the decks hold a kept card at all. */
  ghost function HoldingAny(inputs: Inputs, decks: seq<nat>): nat
    requires ValidInputs(inputs) && AreDecks(inputs.snapshot, decks)
  {
    if decks == [] then 0
    else
      assert AreDecks(inputs.snapshot, decks[1..]);
      (if exists card :: IsKept(inputs, card) && Holds(inputs, decks[0], card) then 1 else 0)
      + HoldingAny(inputs, decks[1..])
  }

  lemma {:induction false} StoredRowsAreDecksHoldingAny(inputs: Inputs, decks: seq<nat>)
    requires ValidInputs(inputs) && AreDecks(inputs.snapshot, decks)
    ensures RowsWith(KeptRows(inputs, decks), 1) == HoldingAny(inputs, decks)
    decreases |decks|
  {
    if decks != [] {
      hide Holds, KeptRow;
      assert AreDecks(inputs.snapshot, decks[1..]);
      StoredRowsAreDecksHoldingAny(inputs, decks[1..]);
      assert KeptRows(inputs, decks)[1..] == KeptRows(inputs, decks[1..]);
      RowsStoreHeldCards(inputs, decks[0]);
    }
  }

  /** Whatever the weighting, the deck count is the number of selected decks that hold a kept card. */
  lemma DeckCountIsDecksHoldingAny(inputs: Inputs, options: Options, maths: Maths)
    requires ValidInputs(inputs) && ValidMaths(maths) && CountsOf(inputs, options, maths).Counted?
    ensures CountsOf(inputs, options, maths).counts.deckCount == HoldingAny(inputs, inputs.deckRows)
  {
    hide Incidence, KeptRows, ValidInputs, TrueIndices, Holding, HoldingAny;
    DecksAreDecks(inputs);
    StoredRowsAreDecksHoldingAny(inputs, inputs.deckRows);
  }
}
