/** One game's deck snapshot with a holdout applied: the decks and the cards its teacher counts. */
module TeacherInputs {
  import opened Holdout
  import opened Sequences
  import opened Wrappers
  import Cooccurrence
  import IncidenceGather

  /** unknownIndex is the row of the sentinel that stands for cards the binder lacks. */
  datatype DeckSnapshot = DeckSnapshot(game: string, cardUuids: seq<string>, unknownIndex: nat, deckUuids: seq<string>,
                                       entries: IncidenceGather.Snapshot)

  ghost predicate ValidSnapshot(decks: DeckSnapshot) {
    && IncidenceGather.Valid(decks.entries, |decks.cardUuids|)
    && |decks.entries.deckOffsets| == |decks.deckUuids| + 1 && decks.unknownIndex < |decks.cardUuids|
  }

  /** Each deck row's split under a key, in the snapshot whose stamp this is. */
  datatype DeckSplitIndex = DeckSplitIndex(key: DeckSplitKey, snapshotStamp: string, splits: seq<Split>)

  /** _assign_split_codes, of a spec that knows its deck split. */
  function AssignedSplits(decks: DeckSnapshot, spec: HoldoutSpec, hash: string -> nat): (splits: seq<Split>)
    requires Holdout.Valid(spec) && spec.deckSplitRatios.Some?
    ensures |splits| == |decks.deckUuids|
  {
    seq(|decks.deckUuids|, d requires 0 <= d < |decks.deckUuids| =>
      DeckSplitOf(spec, decks.deckUuids[d], decks.game, hash).value)
  }

  /** An index as load_or_build gives it: assigned under its key by the spec of this or of an earlier run, to the
      decks of the snapshot it is stamped with, which need not be this run's. */
  ghost predicate IsIndex(index: DeckSplitIndex, stamp: DeckSnapshot -> string, hash: string -> nat) {
    exists decks: DeckSnapshot, spec: HoldoutSpec :: IsAssignedBy(index, decks, spec, stamp, hash)
  }

  ghost predicate IsAssignedBy(index: DeckSplitIndex, decks: DeckSnapshot, spec: HoldoutSpec,
                               stamp: DeckSnapshot -> string, hash: string -> nat)
  {
    && Holdout.Valid(spec) && DeckKeyOf(spec, decks.game) == Some(index.key) && index.snapshotStamp == stamp(decks)
    && index.splits == AssignedSplits(decks, spec, hash)
  }

  datatype TeacherInputs = TeacherInputs(decks: DeckSnapshot, index: DeckSplitIndex, holdout: HoldoutSpec)

  /** What the constructor checks: rows of this very snapshot, split by this very holdout. */
  predicate IsAccepted(inputs: TeacherInputs, stamp: DeckSnapshot -> string)
    requires Holdout.Valid(inputs.holdout)
  {
    && inputs.index.snapshotStamp == stamp(inputs.decks)
    && DeckKeyOf(inputs.holdout, inputs.decks.game) == Some(inputs.index.key)
  }

  /** A stamp is a digest of the snapshot's content. */
  ghost predicate TellsApart(stamp: DeckSnapshot -> string) {
    forall a, b :: stamp(a) == stamp(b) ==> a == b
  }

  ghost predicate Valid(inputs: TeacherInputs, stamp: DeckSnapshot -> string, hash: string -> nat) {
    && Holdout.Valid(inputs.holdout) && ValidSnapshot(inputs.decks) && IsIndex(inputs.index, stamp, hash)
    && IsAccepted(inputs, stamp)
  }

  /** Whoever assigned the index and to whatever decks, an accepted one's splits are this holdout's of these decks. */
  lemma IndexIsTheHoldouts(inputs: TeacherInputs, stamp: DeckSnapshot -> string, hash: string -> nat)
    requires Valid(inputs, stamp, hash) && TellsApart(stamp)
    ensures inputs.holdout.deckSplitRatios.Some?
    ensures inputs.index.splits == AssignedSplits(inputs.decks, inputs.holdout, hash)
    ensures forall d :: 0 <= d < |inputs.decks.deckUuids| ==>
              Some(inputs.index.splits[d]) ==
              DeckSplitOf(inputs.holdout, inputs.decks.deckUuids[d], inputs.decks.game, hash)
  {
    hide DeckSplitOf;
    var decks := inputs.decks;
    var indexed: DeckSnapshot, spec: HoldoutSpec :| IsAssignedBy(inputs.index, indexed, spec, stamp, hash);
    assert indexed == decks;
    forall d | 0 <= d < |decks.deckUuids|
      ensures inputs.index.splits[d] == AssignedSplits(decks, inputs.holdout, hash)[d]
      ensures Some(inputs.index.splits[d]) == DeckSplitOf(inputs.holdout, decks.deckUuids[d], decks.game, hash)
    {
      DeckSplitIsWhereTheHashFalls(inputs.holdout, decks.deckUuids[d], decks.game, hash);
      EqualDeckKeysSplitAlike(spec, inputs.holdout, decks.deckUuids[d], decks.game, hash);
    }
  }

  // ----- the selected decks

  function InSplits(splits: seq<Split>, chosen: set<Split>): (flags: seq<bool>)
    ensures |flags| == |splits|
  {
    seq(|splits|, d requires 0 <= d < |splits| => splits[d] in chosen)
  }

  /** DeckSplitIndex.rows_of: np.flatnonzero of one split's code. */
  function RowsOf(splits: seq<Split>, split: Split): seq<nat> {
    TrueIndices(InSplits(splits, {split}), |splits|)
  }

  /** The rows of every deck in the chosen splits, ascending. */
  function SelectedDeckRows(inputs: TeacherInputs, chosen: set<Split>): seq<nat> {
    TrueIndices(InSplits(inputs.index.splits, chosen), |inputs.index.splits|)
  }

  /** The selected rows ascend and are those of the chosen splits, each of which lists only its own. */
  lemma SelectedRowsAreTheChosenSplits(inputs: TeacherInputs, chosen: set<Split>, row: nat)
    ensures var rows := SelectedDeckRows(inputs, chosen);
            && (forall j, k :: 0 <= j < k < |rows| ==> rows[j] < rows[k])
            && (row in rows <==> row < |inputs.index.splits| && inputs.index.splits[row] in chosen)
            && (row in rows <==> exists split :: split in chosen && row in RowsOf(inputs.index.splits, split))
  {
    var splits := inputs.index.splits;
    TrueIndicesAreTheSetOnes(InSplits(splits, chosen), |splits|);
    forall split ensures row in RowsOf(splits, split) <==> row < |splits| && splits[row] == split {
      TrueIndicesAreTheSetOnes(InSplits(splits, {split}), |splits|);
    }
  }

  // ----- the kept cards

  /** The cards of the chosen tiers, never the sentinel. */
  function SelectedCardMask(inputs: TeacherInputs, tiers: set<CardTier>, hash: string -> nat): (mask: seq<bool>)
    requires Holdout.Valid(inputs.holdout)
    ensures |mask| == |inputs.decks.cardUuids|
  {
    var cards := inputs.decks.cardUuids;
    seq(|cards|, c requires 0 <= c < |cards| =>
      TierOf(inputs.holdout, cards[c], inputs.decks.game, hash) in tiers && c != inputs.decks.unknownIndex)
  }

  /** A card is kept exactly when it is not the sentinel and its tier is chosen: VALIDATION in a held-out game, and
      otherwise the tier whose range of the hash its own text falls in. */
  lemma MaskKeepsTheChosenTiers(inputs: TeacherInputs, tiers: set<CardTier>, hash: string -> nat, card: nat)
    requires Holdout.Valid(inputs.holdout) && card < |inputs.decks.cardUuids|
    ensures var (spec, uuid) := (inputs.holdout, inputs.decks.cardUuids[card]);
            var position := hash(CardHashInput(spec.seed, uuid)) % 0x1_0000_0000;
            var ranges := HashBoundaries(spec.tierRatios);
            SelectedCardMask(inputs, tiers, hash)[card] <==>
            && card != inputs.decks.unknownIndex
            && if inputs.decks.game in spec.heldOutGames then CardTier.VALIDATION in tiers
               else
                 || (CardTier.TRAIN in tiers && ranges[0].start <= position < ranges[0].end)
                 || (CardTier.TEST in tiers && ranges[1].start <= position < ranges[1].end)
                 || (CardTier.VALIDATION in tiers && ranges[2].start <= position < ranges[2].end)
  {
    hide TierOf, HashBoundaries;
    TierIsWhereTheHashFalls(inputs.holdout, inputs.decks.cardUuids[card], inputs.decks.game, hash);
  }

  // ----- what the count reads

  function ToCount(inputs: TeacherInputs, splits: set<Split>, tiers: set<CardTier>, hash: string -> nat)
    : Cooccurrence.Inputs
    requires Holdout.Valid(inputs.holdout)
  {
    Cooccurrence.Inputs(inputs.decks.entries, SelectedDeckRows(inputs, splits), SelectedCardMask(inputs, tiers, hash))
  }

  lemma CountIsReady(inputs: TeacherInputs, splits: set<Split>, tiers: set<CardTier>, stamp: DeckSnapshot -> string,
                     hash: string -> nat)
    requires Valid(inputs, stamp, hash) && TellsApart(stamp)
    ensures Cooccurrence.ValidInputs(ToCount(inputs, splits, tiers, hash))
  {
    IndexIsTheHoldouts(inputs, stamp, hash);
    TrueIndicesAreTheSetOnes(InSplits(inputs.index.splits, splits), |inputs.index.splits|);
  }

  /** One snapshot under equal keys: the same decks and the same cards are counted, whatever else the two
      holdouts differ in. */
  lemma EqualKeysCountAlike(a: TeacherInputs, b: TeacherInputs, splits: set<Split>, tiers: set<CardTier>,
                            stamp: DeckSnapshot -> string, hash: string -> nat)
    requires Valid(a, stamp, hash) && Valid(b, stamp, hash) && TellsApart(stamp) && a.decks == b.decks
    requires a.index.key == b.index.key && TierKeyOf(a.holdout) == TierKeyOf(b.holdout)
    ensures ToCount(a, splits, tiers, hash) == ToCount(b, splits, tiers, hash)
  {
    hide TierOf, DeckSplitOf, TierKeyOf, DeckKeyOf, IsIndex, ValidSnapshot, TellsApart;
    var decks := a.decks;
    IndexIsTheHoldouts(a, stamp, hash);
    IndexIsTheHoldouts(b, stamp, hash);
    forall d | 0 <= d < |decks.deckUuids| ensures a.index.splits[d] == b.index.splits[d] {
      EqualDeckKeysSplitAlike(a.holdout, b.holdout, decks.deckUuids[d], decks.game, hash);
    }
    forall c | 0 <= c < |decks.cardUuids|
      ensures SelectedCardMask(a, tiers, hash)[c] == SelectedCardMask(b, tiers, hash)[c]
    {
      EqualTierKeysTierAlike(a.holdout, b.holdout, decks.cardUuids[c], decks.game, hash);
    }
    assert a.index.splits == b.index.splits;
  }
}
