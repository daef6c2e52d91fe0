/** Which tier each card and which split each deck belongs to: a stable hash position in a carved hash range. */
module Holdout {
  import opened Decimals
  import opened Reals
  import opened Splits
  import opened Wrappers

  datatype CardTier = TRAIN | TEST | VALIDATION
  datatype Split = TRAIN | TEST | VALIDATION

  const RESOLUTION: nat := 0x1_0000_0000

  const TIER_ORDER := [CardTier.TRAIN, CardTier.TEST, CardTier.VALIDATION]
  const DECK_SPLIT_ORDER := [Split.TRAIN, Split.TEST, Split.VALIDATION]

  /** deckSplitRatios is None for a spec saved before decks were split by it. */
  datatype HoldoutSpec = HoldoutSpec(seed: int, tierRatios: seq<real>, heldOutGames: set<string>,
                                     deckSplitRatios: Option<seq<real>>)

  ghost predicate ValidRatios(ratios: seq<real>) {
    |ratios| == 3 && AreRatios(ratios) && RatioSum(ratios, 3) > 0.0
  }

  ghost predicate Valid(spec: HoldoutSpec) {
    ValidRatios(spec.tierRatios) && (spec.deckSplitRatios.Some? ==> ValidRatios(spec.deckSplitRatios.value))
  }

  function HashBoundaries(ratios: seq<real>): (ranges: seq<Range>)
    requires RatioSum(ratios, |ratios|) != 0.0
    ensures |ranges| == |ratios|
  {
    SplitRanges(FromUnnormalized(ratios).value, RESOLUTION)
  }

  /** The first range from k on that holds the position; the last range if none does. */
  function BucketOf(position: nat, ranges: seq<Range>, k: nat): (bucket: nat)
    requires k < |ranges|
    ensures k <= bucket < |ranges|
    decreases |ranges| - k
  {
    if ranges[k].start <= position < ranges[k].end || k == |ranges| - 1 then k else BucketOf(position, ranges, k + 1)
  }

  // ----- text of the hash inputs

  function CardHashInput(seed: int, uuid: string): string {
    IntText(seed) + ":" + uuid
  }

  function DeckHashInput(seed: int, uuid: string): string {
    "deck:" + IntText(seed) + ":" + uuid
  }

  /** Decks are salted apart: no deck ever hashes the text a card does. */
  lemma DecksHashApartFromCards(seed: int, card: string, otherSeed: int, deck: string)
    ensures CardHashInput(seed, card) != DeckHashInput(otherSeed, deck)
  {
    assert CardHashInput(seed, card)[0] == IntText(seed)[0];
    assert DeckHashInput(otherSeed, deck)[0] == 'd';
  }

  function HashPosition(digest: string -> nat, input: string): (position: nat)
    ensures position < RESOLUTION
  {
    digest(input) % RESOLUTION
  }

  // ----- tiers and deck splits

  function TierOf(spec: HoldoutSpec, uuid: string, game: string, digest: string -> nat): CardTier
    requires Valid(spec)
  {
    if game in spec.heldOutGames then CardTier.VALIDATION
    else TIER_ORDER[BucketOf(HashPosition(digest, CardHashInput(spec.seed, uuid)), HashBoundaries(spec.tierRatios), 0)]
  }

  /** None is UnknownDeckSplitError, which comes before the held-out games' shortcut. */
  function DeckSplitOf(spec: HoldoutSpec, uuid: string, game: string, digest: string -> nat): Option<Split>
    requires Valid(spec)
  {
    if spec.deckSplitRatios == None then None
    else if game in spec.heldOutGames then Some(Split.VALIDATION)
    else
      var position := HashPosition(digest, DeckHashInput(spec.seed, uuid));
      Some(DECK_SPLIT_ORDER[BucketOf(position, HashBoundaries(spec.deckSplitRatios.value), 0)])
  }

  lemma {:induction false} TiledStarts(ranges: seq<Range>, size: nat, j: nat, k: nat)
    requires Tile(ranges, size) && j < k < |ranges|
    ensures ranges[j].end <= ranges[k].start
    decreases k
  {
    assert ranges[k - 1].end == ranges[k].start && ranges[k - 1].start <= ranges[k - 1].end;
    if j < k - 1 {
      TiledStarts(ranges, size, j, k - 1);
    }
  }

  /** Of ranges that tile, the scan finds the one that holds the position. */
  lemma {:induction false} BucketHoldsThePosition(position: nat, ranges: seq<Range>, size: nat, k: nat)
    requires Tile(ranges, size) && k < |ranges| && ranges[k].start <= position < size
    ensures ranges[BucketOf(position, ranges, k)].start <= position < ranges[BucketOf(position, ranges, k)].end
    decreases |ranges| - k
  {
    if position >= ranges[k].end {
      assert k < |ranges| - 1 ==> ranges[k].end == ranges[k + 1].start;
      BucketHoldsThePosition(position, ranges, size, k + 1);
    }
  }

  lemma BoundariesTile(ratios: seq<real>)
    requires ValidRatios(ratios)
    ensures RatioSum(ratios, |ratios|) != 0.0 && Tile(HashBoundaries(ratios), RESOLUTION)
  {
    NormalizedRatiosSumToOne(ratios);
    NormalizedRatiosLeaveLittleOver(FromUnnormalized(ratios).value, RESOLUTION);
  }

  /** Every hash position falls in exactly one tier, the one the scan returns; its fallback is never taken. */
  lemma EveryPositionInExactlyOneTier(ratios: seq<real>, position: nat, k: nat)
    requires ValidRatios(ratios) && position < RESOLUTION && k < 3
    ensures var ranges := HashBoundaries(ratios);
            ranges[k].start <= position < ranges[k].end <==> k == BucketOf(position, ranges, 0)
  {
    BoundariesTile(ratios);
    var ranges := HashBoundaries(ratios);
    hide Tile, HashBoundaries;
    TileEnds(ranges);
    BucketHoldsThePosition(position, ranges, RESOLUTION, 0);
    var bucket := BucketOf(position, ranges, 0);
    if k < bucket {
      TiledStarts(ranges, RESOLUTION, k, bucket);
    } else if bucket < k {
      TiledStarts(ranges, RESOLUTION, bucket, k);
    }
  }

  lemma TileEnds(ranges: seq<Range>)
    requires Tile(ranges, RESOLUTION)
    ensures ranges != [] && ranges[0].start == 0 && ranges[|ranges| - 1].end == RESOLUTION
  {
  }

  // ----- keys: everything an assignment depends on

  /** The JSON of card_tier_key, as the value it encodes. */
  datatype CardTierKey = CardTierKey(seed: int, tierFractions: seq<real>, heldOutGames: set<string>)

  /** The JSON of deck_split_key; the hashing scheme is the constant 1. */
  datatype DeckSplitKey = HeldOutKey | HashedKey(scheme: nat, seed: int, deckSplitFractions: seq<real>)

  const DECK_HASH_SCHEME: nat := 1

  function TierKeyOf(spec: HoldoutSpec): CardTierKey
    requires Valid(spec)
  {
    CardTierKey(spec.seed, FromUnnormalized(spec.tierRatios).value, spec.heldOutGames)
  }

  function DeckKeyOf(spec: HoldoutSpec, game: string): Option<DeckSplitKey>
    requires Valid(spec)
  {
    if spec.deckSplitRatios == None then None
    else if game in spec.heldOutGames then Some(HeldOutKey)
    else Some(HashedKey(DECK_HASH_SCHEME, spec.seed, FromUnnormalized(spec.deckSplitRatios.value).value))
  }

  /** Specs with equal card tier keys tier every card of every game alike. */
  lemma EqualTierKeysTierAlike(a: HoldoutSpec, b: HoldoutSpec, uuid: string, game: string, digest: string -> nat)
    requires Valid(a) && Valid(b) && TierKeyOf(a) == TierKeyOf(b)
    ensures TierOf(a, uuid, game, digest) == TierOf(b, uuid, game, digest)
  {
    assert HashBoundaries(a.tierRatios) == HashBoundaries(b.tierRatios);
  }

  /** Specs with equal deck keys for a game split every deck of it alike, and raise for it alike. */
  lemma EqualDeckKeysSplitAlike(a: HoldoutSpec, b: HoldoutSpec, uuid: string, game: string, digest: string -> nat)
    requires Valid(a) && Valid(b) && DeckKeyOf(a, game) == DeckKeyOf(b, game)
    ensures DeckSplitOf(a, uuid, game, digest) == DeckSplitOf(b, uuid, game, digest)
  {
    if a.deckSplitRatios.Some? && game !in a.heldOutGames {
      assert HashBoundaries(a.deckSplitRatios.value) == HashBoundaries(b.deckSplitRatios.value);
    }
  }

  /** Equal proportions give equal keys, and so equal tiers. */
  lemma ProportionalSpecsShareTheirKeys(spec: HoldoutSpec, factor: real, scaled: seq<real>)
    requires Valid(spec) && factor > 0.0 && |scaled| == 3
    requires forall k :: 0 <= k < 3 ==> scaled[k] == Times(spec.tierRatios[k], factor)
    ensures ValidRatios(scaled) && TierKeyOf(spec.(tierRatios := scaled)) == TierKeyOf(spec)
  {
    ScaledRatiosAreValid(spec.tierRatios, factor, scaled);
    ProportionalRatiosNormalizeAlike(spec.tierRatios, factor, scaled);
  }

  lemma ScaledRatiosAreValid(ratios: seq<real>, factor: real, scaled: seq<real>)
    requires ValidRatios(ratios) && factor > 0.0 && |scaled| == 3
    requires forall k :: 0 <= k < 3 ==> scaled[k] == Times(ratios[k], factor)
    ensures ValidRatios(scaled)
  {
    ScaledSum(ratios, factor, scaled, 3);
    forall k | 0 <= k < 3 ensures scaled[k] >= 0.0 {
      NonNegativeProduct(ratios[k], factor);
    }
    NonNegativeProduct(RatioSum(ratios, 3), factor);
  }

  /** Holding out another game, or other card tiers, leaves a game's deck key unchanged. */
  lemma DeckKeyIgnoresTheRest(spec: HoldoutSpec, tierRatios: seq<real>, other: string, game: string)
    requires Valid(spec) && ValidRatios(tierRatios) && other != game
    ensures DeckKeyOf(spec.(tierRatios := tierRatios, heldOutGames := spec.heldOutGames + {other}), game)
            == DeckKeyOf(spec, game)
  {
  }

  // ----- a tier of ratio zero

  predicate IsWhole(x: real) {
    x == x.Floor as real
  }

  /** The last of three tiers with a zero ratio is empty exactly when the other two shares are whole numbers:
      otherwise it takes the slot rounding leaves over. */
  lemma ZeroTierIsEmptyExactlyWhenSharesAreWhole(ratios: seq<real>)
    requires ValidRatios(ratios) && ratios[2] == 0.0
    ensures var ranges, shares := HashBoundaries(ratios), FromUnnormalized(ratios).value;
            ranges[2].start == ranges[2].end <==>
            IsWhole(Times(shares[0], RESOLUTION as real)) && IsWhole(Times(shares[1], RESOLUTION as real))
  {
    NormalizedRatiosSumToOne(ratios);
    BoundariesTile(ratios);
    var shares, n := FromUnnormalized(ratios).value, RESOLUTION as real;
    hide Times, Over, Tile, Truncate;
    ZeroShare(ratios, shares);
    ThreeTerms(shares);
    Distributes(shares[0], shares[1], n);
    ShareIsAFloor(shares[0], RESOLUTION);
    ShareIsAFloor(shares[1], RESOLUTION);
    TwoBoundaries(shares, RESOLUTION);
    TileEnds(HashBoundaries(ratios));
  }

  lemma ZeroShare(ratios: seq<real>, shares: seq<real>)
    requires ValidRatios(ratios) && ratios[2] == 0.0 && FromUnnormalized(ratios) == Some(shares)
    ensures shares[2] == 0.0
  {
  }

  lemma ThreeTerms(shares: seq<real>)
    requires |shares| == 3
    ensures RatioSum(shares, 3) == shares[0] + shares[1] + shares[2]
  {
    assert RatioSum(shares, 1) == shares[0] && RatioSum(shares, 2) == shares[0] + shares[1];
  }

  lemma TwoBoundaries(shares: seq<real>, size: nat)
    requires |shares| == 3
    ensures Boundary(shares, size, 2) == Share(shares[0], size) + Share(shares[1], size)
  {
    assert Boundary(shares, size, 1) == Share(shares[0], size);
  }

  /** (2, 1, 0) still puts one of the 2**32 slots in VALIDATION. */
  lemma ZeroTierCanHoldCards()
    ensures var ratios := [2.0, 1.0, 0.0];
            && ValidRatios(ratios) && HashBoundaries(ratios)[2] == Range(RESOLUTION - 1, RESOLUTION)
  {
    var ratios := [2.0, 1.0, 0.0];
    ThreeTerms(ratios);
    var shares := FromUnnormalized(ratios).value;
    assert shares == [2.0 / 3.0, 1.0 / 3.0, 0.0];
    TwoBoundaries(shares, RESOLUTION);
    ShareIsAFloor(2.0 / 3.0, RESOLUTION);
    ShareIsAFloor(1.0 / 3.0, RESOLUTION);
    assert Times(2.0 / 3.0, RESOLUTION as real).Floor == 2863311530;
    assert Times(1.0 / 3.0, RESOLUTION as real).Floor == 1431655765;
    BoundariesTile(ratios);
    TileEnds(HashBoundaries(ratios));
  }

  /** no_holdout's (1, 0, 0) leaves no slot to the other tiers. */
  lemma NoHoldoutTrainsEverything(seed: int, uuid: string, game: string, digest: string -> nat)
    ensures var spec := HoldoutSpec(seed, [1.0, 0.0, 0.0], {}, Some([8.0, 1.0, 1.0]));
            Valid(spec) && TierOf(spec, uuid, game, digest) == CardTier.TRAIN
  {
    var ratios := [1.0, 0.0, 0.0];
    ThreeTerms(ratios);
    ThreeTerms([8.0, 1.0, 1.0]);
    assert FromUnnormalized(ratios).value == ratios;
    assert Boundary(ratios, RESOLUTION, 1) == Share(1.0, RESOLUTION) == RESOLUTION;
  }

  // ----- what a tier and a split are

  /** A held-out game's cards are VALIDATION; any other game's card is of the tier whose range of the hash holds the
      position its own text hashes to. */
  lemma TierIsWhereTheHashFalls(spec: HoldoutSpec, uuid: string, game: string, digest: string -> nat)
    requires Valid(spec)
    ensures var tier := TierOf(spec, uuid, game, digest);
            var position := digest(IntText(spec.seed) + ":" + uuid) % 0x1_0000_0000;
            var ranges := HashBoundaries(spec.tierRatios);
            if game in spec.heldOutGames then tier == CardTier.VALIDATION
            else
              && (tier == CardTier.TRAIN <==> ranges[0].start <= position < ranges[0].end)
              && (tier == CardTier.TEST <==> ranges[1].start <= position < ranges[1].end)
              && (tier == CardTier.VALIDATION <==> ranges[2].start <= position < ranges[2].end)
  {
    hide HashBoundaries;
    var position := digest(IntText(spec.seed) + ":" + uuid) % 0x1_0000_0000;
    forall k: nat | k < 3
      ensures HashBoundaries(spec.tierRatios)[k].start <= position < HashBoundaries(spec.tierRatios)[k].end
              <==> k == BucketOf(position, HashBoundaries(spec.tierRatios), 0)
    {
      EveryPositionInExactlyOneTier(spec.tierRatios, position, k);
    }
  }

  /** Likewise a deck, by its own ratios and a text no card hashes; without deck ratios there is no answer. */
  lemma DeckSplitIsWhereTheHashFalls(spec: HoldoutSpec, uuid: string, game: string, digest: string -> nat)
    requires Valid(spec)
    ensures DeckSplitOf(spec, uuid, game, digest) == None <==> spec.deckSplitRatios == None
    ensures spec.deckSplitRatios.Some? ==>
              var split := DeckSplitOf(spec, uuid, game, digest).value;
              var position := digest("deck:" + IntText(spec.seed) + ":" + uuid) % 0x1_0000_0000;
              var ranges := HashBoundaries(spec.deckSplitRatios.value);
              if game in spec.heldOutGames then split == Split.VALIDATION
              else
                && (split == Split.TRAIN <==> ranges[0].start <= position < ranges[0].end)
                && (split == Split.TEST <==> ranges[1].start <= position < ranges[1].end)
                && (split == Split.VALIDATION <==> ranges[2].start <= position < ranges[2].end)
  {
    hide HashBoundaries;
    if spec.deckSplitRatios.Some? {
      var ratios := spec.deckSplitRatios.value;
      var position := digest("deck:" + IntText(spec.seed) + ":" + uuid) % 0x1_0000_0000;
      forall k: nat | k < 3
        ensures HashBoundaries(ratios)[k].start <= position < HashBoundaries(ratios)[k].end
                <==> k == BucketOf(position, HashBoundaries(ratios), 0)
      {
        EveryPositionInExactlyOneTier(ratios, position, k);
      }
    }
  }

  /** The three ranges cover the hash in order, the first two as long as their rounded shares of it. */
  lemma TiersHaveTheirShares(ratios: seq<real>)
    requires ValidRatios(ratios)
    ensures RatioSum(ratios, 3) != 0.0
    ensures var ranges, total := HashBoundaries(ratios), ratios[0] + ratios[1] + ratios[2];
            && total > 0.0 && |ranges| == 3
            && ranges[0].start == 0 && ranges[0].end == ranges[1].start && ranges[1].end == ranges[2].start
            && ranges[2].end == 0x1_0000_0000
            && ranges[0].end - ranges[0].start == Times(Over(ratios[0], total), 4294967296.0).Floor
            && ranges[1].end - ranges[1].start == Times(Over(ratios[1], total), 4294967296.0).Floor
  {
    ThreeTerms(ratios);
    NormalizedRatiosSumToOne(ratios);
    var shares := FromUnnormalized(ratios).value;
    NormalizedRatiosLeaveLittleOver(shares, RESOLUTION);
    ShareIsAFloor(shares[0], RESOLUTION);
    ShareIsAFloor(shares[1], RESOLUTION);
  }

  lemma FirstColonSplits(a: string, b: string, rest: string, otherRest: string)
    requires a + ":" + rest == b + ":" + otherRest && ':' !in a && ':' !in b
    ensures a == b && rest == otherRest
  {
    var text := a + ":" + rest;
    assert text == b + ":" + otherRest;
    forall i | 0 <= i < |a| ensures text[i] != ':' {
      assert text[i] == a[i];
    }
    forall i | 0 <= i < |b| ensures text[i] != ':' {
      assert text[i] == b[i];
    }
    assert text[|a|] == ':' == text[|b|] && |a| == |b|;
    assert text[..|a|] == a && text[..|b|] == b;
    assert text[|a| + 1..] == rest && text[|b| + 1..] == otherRest;
  }

  lemma SeedAndUuid(seed: int, uuid: string, other: int, otherUuid: string)
    requires IntText(seed) + ":" + uuid == IntText(other) + ":" + otherUuid
    ensures seed == other && uuid == otherUuid
  {
    NoColonInSeeds(seed);
    NoColonInSeeds(other);
    hide IntText;
    FirstColonSplits(IntText(seed), IntText(other), uuid, otherUuid);
    IntTextIsInjective(seed, other);
  }

  lemma NoColonInSeeds(seed: int)
    ensures ':' !in IntText(seed)
  {
  }

  /** The hashed texts tell seeds and uuids apart. */
  lemma HashTextsAreInjective(seed: int, uuid: string, other: int, otherUuid: string)
    ensures CardHashInput(seed, uuid) == CardHashInput(other, otherUuid) ==> seed == other && uuid == otherUuid
    ensures DeckHashInput(seed, uuid) == DeckHashInput(other, otherUuid) ==> seed == other && uuid == otherUuid
  {
    hide IntText;
    if CardHashInput(seed, uuid) == CardHashInput(other, otherUuid) {
      SeedAndUuid(seed, uuid, other, otherUuid);
    }
    if DeckHashInput(seed, uuid) == DeckHashInput(other, otherUuid) {
      assert DeckHashInput(seed, uuid)[5..] == IntText(seed) + ":" + uuid;
      assert DeckHashInput(other, otherUuid)[5..] == IntText(other) + ":" + otherUuid;
      SeedAndUuid(seed, uuid, other, otherUuid);
    }
  }
}
