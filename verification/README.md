# Verified model of the card-embedding project

A Dafny model of the parts of the repository where a fast, in-place or concurrent form must agree with a
plain definition, with proofs that it does. Verify all of it with `dafny verify dfyconfig.toml`.

What is modelled, by module:

- **Batching.** `BudgetedBatching`: greedy packing under count times largest cost, and that no contiguous
  packing uses fewer groups.
- **Weighted nested choice.** `DropTables` (filtering, reachability, chances), `DropTableDraws` (the
  explicit-stack probability loop, the span walk and the pull) and `DropTableLaws` (what fixes a chance, a roll and
  a filter).
- **Path-copying editor.** `CardFactory`: dicts and lists as objects of an explicit heap that only grows, so that
  "the same object" and "a fresh object" can be said.
- **Padded batches.** `PaddedLayout` (flat slots, scatter, gather, pack, unpack), `CardEncoder` (the one batched
  path for every input shape) and `TextEncoder` (length-sorted buckets merged back in place).
- **Teacher.** `IncidenceGather`, `Cooccurrence`, `CooccurrenceWeights`, `CooccurrenceCount` and `CooccurrenceLaws`: the
  chunked, CSR-gathered co-occurrence count, and what its entries are in decks and copies. `Neighbours` and
  `NeighbourSearch`: the blocked top-k into CSR arrays. `TeacherInputs` (the decks and cards a holdout selects) and
  `TeacherCache` (stamped files against a fresh build, counting included).
- **Training.** `TrainingEvents` (a run as its events), `TrainingParts` (fault ledger, batch feed, loss scaler,
  tracker), `TrainingRounds` (what a round, a phase and a run must be, and that such a run is safe), `Trainer` (the
  loops, which make exactly such rounds, phases and runs), `TrainingOutcome` (there is only one such run) and
  `TrainingLaws` (how attempts and phases end, read off the events and the world).
- **Binder mods.** `BinderBake` (modding the clean cards in place) and `BinderMods` (the save protocol as a state
  machine over processes that interleave, fail and are killed).
- **Splits and identities.** `Splits`, `Holdout` and `DeckIds`.
- **Polite HTTP.** `RateLimiter` and `PacedGet`.

`Sequences`, `Reals`, `Decimals` and `Wrappers` hold what several modules share.

Weights, chances, losses, cosines, ratios and clock times are reals. What the code calls but does not
define is a parameter with the contract its callers document: the card pipeline and a local `contextualize`
(`CardEncoder.Sound`), the tokenizer and model call (`TextEncoder.Sound`), `log` and `sqrt`
(`CooccurrenceWeights.ValidMaths`), the diet sampler, each step's gradients and each evaluation
(`TrainingRounds.ValidWorld`), the mod pipeline, the fitting and ranking of a teacher with content stamps and digests
that tell contents apart (`TeacherCache.ValidWorld`), the hash digest, the server's replies, and a monotone clock
whose sleeps are never short (`RateLimiter.Clock`).

Where a promise turned out to hold only under a condition, the code is modelled as it is and the condition is
proved exact:

- Greedy packing is the fewest if and only if the budget is not negative or there is at most one example
  (`FewestExactlyWhenBudgetNotNegative`).
- `_retry_after_seconds` documents no exceptions, but raises ValueError if and only if the header is made of digits with
  a superscript among them (`RetryAfterRaisesExactlyForSuperscripts`); the GET then raises it too.
- The loss scale stays at or above its floor in every run if and only if it starts at a power of two
  (`FloorHoldsExactlyForPowersOfTwo`); the scaler's default does.
- A run ended by a feed error has one attempt that is neither step, skip nor failure only if the error came from
  `next_batch`; an error when a round begins uses no attempt (`RunIsAccountedFor`, `IsRound`).
- A binder-mods directory is safe to share in every run if and only if all its bakes write the same data and equal
  fingerprints mean equal clean versions (`SafeExactlyWhenAllWriteTheSame`); `MixedBake` is the run that fails.
- `TTVSplits` documents its ratios as relative weights, but `get_split_indices` and `split_collection` treat them
  as fractions: the ranges fit every collection if and only if the ratios sum to at most 1
  (`FitEverySizeExactlyWhenNormalized`); 8, 1, 1 never fit (`RawWeightsOvershoot`). `HoldoutSpec` normalizes first.
- A last tier of ratio zero is empty if and only if the other shares are whole numbers
  (`ZeroTierIsEmptyExactlyWhenSharesAreWhole`); ratios 2, 1, 0 leave it one hash slot.

## Model

| member | source | states |
|---|---|---|
| BudgetedBatching.LargestIsMaximum | src/dojos/budgeted_batching.py:27 | the maximum that padded cost multiplies by is reached by some cost and exceeded by none |
| BudgetedBatching.PartIsChargedWithinBudget | src/dojos/budgeted_batching.py:15-27 | under a non-negative budget, any contiguous part of a group that fits also fits: padded cost is monotone under sub-intervals |
| BudgetedBatching.GreedyStaysAhead | src/dojos/budgeted_batching.py:52-70 | after k groups the greedy packing has covered at least as many examples as any other packing has after k |
| BudgetedBatching.FullPackingIsFewest | src/dojos/budgeted_batching.py:52-70 | a packing in which no group had room for the next example has no more groups than any contiguous packing within the budget |
| BudgetedBatching.GreedyIsUnique | src/dojos/budgeted_batching.py:52-70 | whatever the budget, the examples have one greedy packing: each group within the budget, charged within it once it holds two, and closed only when the next example would go over |
| BudgetedBatching.GroupByBudget | src/dojos/budgeted_batching.py:30-70 | the loop groups exactly when every example alone fits, and yields that greedy packing; it has the fewest groups of any contiguous packing if and only if the budget is not negative or there is at most one example. Otherwise it raises at the first example that does not fit, having yielded exactly the closed groups before it |
| BudgetedBatching.FewestExactlyWhenBudgetNotNegative | src/dojos/budgeted_batching.py:52-70 | for any examples and any budget the greedy packing is the fewest if and only if the budget is not negative or there is at most one example |
| BudgetedBatching.NegativeBudgetSplitsTooMuch | src/dojos/budgeted_batching.py:56-66 | under a negative budget the loop gives every example a group of its own, because its running maximum starts at 0 and no two examples are charged less, although all of them fit one group |
| BudgetedBatching.CostIsAdditive | src/dojos/budgeted_batching.py:56 | an example costs what its cards cost together: joined examples add up, one card costs what the budget says of it, no card costs nothing |
| BudgetedBatching.SlotsStayWithinBudget | src/dojos/budgeted_batching.py:30-70 | with every card costing 1, the loop groups exactly when no example has more cards than the budget; then every group has at most the budget in slots padded to any of its examples, and could not have taken the next example; otherwise it stops at the first example with too many cards |
| DropTables.FilteredIsValid | src/utils/drop_table.py:176-208 | a filtered table is one the constructor accepts, at every nesting depth |
| DropTables.FilteredByAlways | src/utils/drop_table.py:176-208 | keeping everything gives back the same table |
| DropTables.FilteredTwice | src/utils/drop_table.py:176-208 | filtering by a and then by b is filtering once by both, the None results included |
| DropTables.SurvivingRowsReach | src/utils/drop_table.py:231-246 | among the surviving rows exactly the kept reachable outcomes are reachable |
| DropTables.ReachableAfterFiltering | src/utils/drop_table.py:176-208 | an outcome is reachable afterwards if and only if it was reachable and is kept |
| DropTables.FilteredAwayExactlyWhenNothingKept | src/utils/drop_table.py:204-207 | the result is None if and only if no reachable outcome is kept |
| DropTables.PositiveExactlyWhenReachable | src/utils/drop_table.py:139-174 | an outcome has a positive chance if and only if it is reachable through positive weights |
| DropTables.FilteringNeverLowersAKeptChance | src/utils/drop_table.py:176-208 | filtering never lowers the chance of a kept outcome, at any depth; if nothing is left, its chance was 0 |
| DropTableLaws.RowsAreFilteredOneByOne | src/utils/drop_table.py:231-246 | rows are filtered one by one and stay in order: a kept outcome's row as it was, a sub-table's row at its own weight with the filtered table if anything is left of it |
| DropTableLaws.MixedTables | src/utils/drop_table.py:139-174 | rolling on the rows of two tables together, each is rolled on in proportion to its total weight |
| DropTableLaws.OneRowTable | src/utils/drop_table.py:139-174 | a table of one row is that row: its value for certain, or its sub-table |
| DropTableLaws.WeightlessRow | src/utils/drop_table.py:139-174 | a row of weight zero changes no chance |
| DropTableDraws.PushedAccounts | src/utils/drop_table.py:168-170 | pushing a sub-table with its chance keeps the total at 1 and each outcome at its recursive probability |
| DropTableDraws.GivenAccounts | src/utils/drop_table.py:171-173 | adding a plain outcome its chance moves exactly that chance from pending to the result |
| DropTableDraws.OutcomeProbabilities | src/utils/drop_table.py:139-174 | the explicit-stack loop ends, lists exactly the reachable outcomes, gives each its recursive product of shares, and the chances sum to exactly 1 |
| DropTableDraws.RowChosenExactlyOnItsSpan | src/utils/drop_table.py:210-228 | for a point below the total, a row is chosen if and only if the point lies in its span of the running total |
| DropTableLaws.RollDrawsByWeight | src/utils/drop_table.py:210-228 | a random value draws a row if and only if, times the total weight, it lies past the rows before it and within its own weight |
| DropTableDraws.PastTheEndChoosesLastPositive | src/utils/drop_table.py:210-228 | at or past the end the chosen row has a positive weight and every later row weighs zero |
| DropTableDraws.EntryAt | src/utils/drop_table.py:210-228 | the subtracting walk returns the row whose span holds the point, always one of positive weight |
| DropTableDraws.Pull | src/utils/drop_table.py:114-137 | the loop ends at a plain outcome that is reachable, the one the drawn values lead to table by table |
| DropTableDraws.PulledReadsLaterDraws | src/utils/drop_table.py:114-137 | a table reached at some depth is rolled with the draws from that depth on and no others |
| DropTableDraws.PullReturnsExactlyThePossible | src/utils/drop_table.py:114-137 | an outcome has a positive chance if and only if some sequence of random values makes pull return it |
| CardFactory.HasField | src/schema/card_factory.py:136-166 | answers whether reading the path from the card finds a value; a malformed path is refused with its own error first |
| CardFactory.FirstBadStepNamesTheError | src/schema/card_factory.py:169-186 | a path is refused for its first bad step, TypeError for a malformed one and ValueError for a negative index; without one only the empty path is refused, with ValueError |
| CardFactory.ContainersAlong | src/schema/card_factory.py:188-231 | returns one container per step, each holding the next, exactly when the policy lets the path be written; otherwise the policy's own error or "ran out" |
| CardFactory.FollowFindsExactlyWhatReads | src/schema/card_factory.py:136-166 | walking down stops nowhere if and only if the path reads to a value |
| CardFactory.PolicyDecidesAtFirstStop | src/schema/card_factory.py:188-279 | where the walk first stops (missing slot, list end, wrong type) and the policy alone decide whether with_field writes, keeps or raises, and which error |
| CardFactory.AddedBelowNewDict | src/schema/card_factory.py:250-279 | ADD creates one dict per missing key and fails with IndexError if a list index comes below a created dict |
| CardFactory.StrictWritesExactlyWhenPresent | src/schema/card_factory.py:101-118 | STRICT, and PASS, write if and only if has_field answers true; PASS never raises but for a type mismatch |
| CardFactory.EditKeepsTheRest | src/schema/card_factory.py:281-300 | every path that diverges from the written one reads the very same object as before |
| CardFactory.EditIsNew | src/schema/card_factory.py:281-300 | every container on the path of the new card is a fresh object |
| CardFactory.EditOverwritesOnly | src/schema/card_factory.py:113-118 | a bottom-up rebuild reads back the value, is fresh along the path, and leaves every diverging path reading as before |
| CardFactory.WithField | src/schema/card_factory.py:65-118 | the old heap is a prefix of the new one, so no existing object changes; a write reads back its value, is fresh along the path and shares everything else; PASS on a missing slot returns the same card; errors are those of the path check, then of the policy |
| CardFactory.SecondWriteWins | src/schema/card_factory.py:65-118 | writing v1 then v2 at a path reads everywhere like writing v2 alone |
| PaddedLayout.FlatSlotsIncreaseInBounds | src/schema/padded_embeddings.py:326-347 | the flat slots strictly increase and stay inside the padded layout |
| PaddedLayout.IndexCopyAt | src/schema/padded_embeddings.py:350-370 | a copied slot holds its row; every other slot is untouched |
| PaddedLayout.ScatterOverlays | src/schema/padded_embeddings.py:350-370 | scattering the joined rows puts each example's row in its first slots and leaves the rest of the layout as it was |
| PaddedLayout.GatherAfterScatter | src/schema/padded_embeddings.py:168-182 | gathering after a scatter returns the flat rows, whatever the padded tensor held |
| PaddedLayout.FlatCardsAreTheRealRows | src/schema/padded_embeddings.py:168-182 | flat_cards lists every real card, in input order, and no padding |
| PaddedLayout.GatherAgreesWithMask | src/schema/padded_embeddings.py:305-323 | the slot gather equals indexing by the boolean mask |
| PaddedLayout.PacksExactlyOneWidth | src/schema/padded_embeddings.py:228-273 | from_nested packs a batch if and only if every card has the given width, for any lengths, empty examples included; the ValueError comes exactly when the first card has another |
| PaddedLayout.NestedRoundTrip | src/schema/padded_embeddings.py:228-295 | packing meets the constructor's invariants, leaves padding zero, and to_nested of from_nested is the identity |
| CardEncoder.EachSequenceAsIfAlone | src/encoder_model/card_encoder_model.py:251-278 | in any batch, each card's row is the one its own sequence gives when it is the whole batch, given that contextualize is local |
| CardEncoder.AloneIsOneCall | src/encoder_model/card_encoder_model.py:251-278 | a sequence alone is one contextualize call on its cards' own embeddings under a mask that is all real |
| CardEncoder.PaddedSequencesLayout | src/encoder_model/card_encoder_model.py:251-278 | the real rows are the per-sequence results in input order and every padded slot is zero |
| CardEncoder.RegroupRestores | src/encoder_model/card_encoder_model.py:281-300 | regrouping by the group counts restores the examples, empty groups included |
| CardEncoder.RegroupedBy | src/encoder_model/card_encoder_model.py:281-300 | the cursor loop hands each example its next groups in order |
| CardEncoder.Forward | src/encoder_model/card_encoder_model.py:209-249 | for single cards, multi-card and multi-group batches the output has the input's nesting and each card its own sequence's row; ValueError exactly when the first entry at some level is missing |
| TextEncoder.SortedByLength | src/encoder_model/text_encoder.py:366 | the order is a stable sort of all indices by text length |
| TextEncoder.ShortestFirst | src/encoder_model/text_encoder.py:366 | of two texts in the order the later is no shorter, and comes later in the input if they are equally long |
| Sequences.SlicesOf | src/encoder_model/text_encoder.py:367-370 | the slices join to the sequence and each holds between one and size of its items: the length buckets here, the deck chunks of count_cooccurrence too |
| TextEncoder.IndexCopyInPlace | src/encoder_model/text_encoder.py:411-419 | rows land at their indices of the preallocated tensor; every other row stays as it was |
| TextEncoder.MergeBucketedEncodings | src/encoder_model/text_encoder.py:378-420 | every position holds its own text's row, right-padded with zeros and a zero mask to the widest bucket |
| TextEncoder.PaddingIsOnTheRight | src/encoder_model/text_encoder.py:378-420 | a padded row is the row followed by fill; a mask row is ones for the tokens followed by zeros |
| TextEncoder.WidestIsLongest | src/encoder_model/text_encoder.py:405 | the merged width is exactly the width of one unbucketed call |
| TextEncoder.PaddedCallAgrees | src/encoder_model/text_encoder.py:378-420 | a padded row of any bucket agrees with one unbucketed call on the text's real tokens |
| TextEncoder.MergedAgrees | src/encoder_model/text_encoder.py:346-420 | the merged encoding has the same width, the same mask and the same real tokens as one unbucketed call |
| TextEncoder.MergeIsDetermined | src/encoder_model/text_encoder.py:378-420 | the buckets fix the merged encoding, row by row and mask by mask |
| TextEncoder.EncodeWith | src/encoder_model/text_encoder.py:308-376 | a batch longer than the bucket size is encoded as the merge of its length-sorted buckets of at most that many texts, any other in one call; either way it agrees with one call on every real token and mask; ValueError exactly for a bucket size of zero or less on a batch longer than it |
| IncidenceGather.PositionsOf | src/teacher/cooccurrence.py:137-147 | the array holds each kept card's rank among the kept cards and -1 for a dropped card |
| IncidenceGather.GatherReadsSlices | src/teacher/cooccurrence.py:177-184 | arange minus the repeated first positions plus the repeated starts reads each deck's slice, deck after deck |
| IncidenceGather.ChunkRows | src/teacher/cooccurrence.py:186-193 | row d of the chunk's matrix holds exactly deck d's kept entries, and no other row holds any of them |
| Cooccurrence.CopiesAreKeptRows | src/teacher/cooccurrence.py:161-193 | each row of a gathered chunk is its deck's own kept cards with their stored copies |
| Cooccurrence.KeptRowIsRow | src/teacher/cooccurrence.py:186-193 | a row's columns strictly ascend within the kept-card width and its copies are positive |
| Cooccurrence.WeightOfHeldCard | src/teacher/cooccurrence.py:196-210 | a kept card in a deck has its own copy weight times the deck's scale in its column |
| Cooccurrence.WeightOfMissingCard | src/teacher/cooccurrence.py:186-193 | a kept card the deck does not hold weighs nothing there |
| CooccurrenceWeights.PositiveExactlyWithAPair | src/teacher/cooccurrence.py:257-261 | the weighted pair total is never negative, and positive if and only if the deck keeps two cards or more |
| CooccurrenceWeights.OffDiagonalTotal | src/teacher/cooccurrence.py:257-259 | the off-diagonal entries one row contributes to the product add up to (sum x) squared minus the sum of squares |
| CooccurrenceWeights.InverseSizeWeighsOne | src/teacher/cooccurrence.py:250-263 | under INVERSE_SIZE a deck with two kept cards or more contributes exactly one, every other deck zero, for every copy-count rule |
| Sequences.SlicesAreFull | src/teacher/cooccurrence.py:150-158 | every slice but the last is full: chunks are cut at whole multiples of the chunk size |
| CooccurrenceCount.ColumnCountsHoldingDecks | src/teacher/cooccurrence.py:92-93 | a kept card's column counts a deck if and only if the deck holds the card |
| CooccurrenceCount.KeptCardAtItsColumn | src/teacher/cooccurrence.py:109-113 | the card listed for a matrix row is the kept card with that column |
| CooccurrenceCount.CountCooccurrence | src/teacher/cooccurrence.py:56-120 | for every chunk size, pair_counts is entry by entry the sum over all selected decks of weight_i times weight_j with the diagonal cleared; deck_counts and deck_count are those of the selected decks whatever the weighting; no deck, then no card, is the error |
| CooccurrenceLaws.PresenceCountsDecks | src/teacher/cooccurrence.py:92-117 | under PRESENCE and UNIFORM an entry of pair_counts is the number of selected decks holding both cards, however many copies |
| CooccurrenceLaws.CopiesMultiply | src/teacher/cooccurrence.py:213-223 | under COPIES and UNIFORM it is the sum, over the selected decks, of the product of the two cards' stored copies |
| CooccurrenceLaws.LogCopiesMultiply | src/teacher/cooccurrence.py:213-223 | under LOG_COPIES and UNIFORM it is the sum of the products of 1 + ln(copies), so single copies count as under PRESENCE |
| CooccurrenceLaws.InverseSizeKeepsProportions | src/teacher/cooccurrence.py:226-263 | under INVERSE_SIZE a deck's pairs keep the proportions they have under UNIFORM, divided by its pair total |
| CooccurrenceLaws.DeckCountsCountDecks | src/teacher/cooccurrence.py:92-93 | a card's deck count is the number of selected decks holding it, whatever the weighting |
| CooccurrenceLaws.DeckCountIsDecksHoldingAny | src/teacher/cooccurrence.py:94 | the deck count is the number of selected decks holding a kept card at all |
| CooccurrenceCount.PairCountsAreSymmetric | src/teacher/cooccurrence.py:238-247 | pair_counts is symmetric with a zero diagonal |
| CooccurrenceCount.InverseSizeCountsPairedDecks | src/teacher/cooccurrence.py:250-263 | under INVERSE_SIZE all entries of pair_counts sum to the number of decks keeping two cards or more |
| CooccurrenceCount.PairCountsSumToPairedDecks | src/teacher/cooccurrence.py:96-117 | so the pair_counts a run finishes with, under INVERSE_SIZE, sum to the number of selected decks keeping two cards or more |
| Neighbours.WantedIsPrefix | src/teacher/neighbour_rules.py:43-56 | in a descending row the cosines a rule wants are exactly the first kept_count of them, so counting is cutting |
| Neighbours.CutIsTheNeighbours | src/teacher/neighbour_rules.py:94-107 | the cut of a padded ranking never keeps padding or the row itself, and leaves out no wanted candidate unless the limit is full of better ones |
| Neighbours.NeighbourCount | src/teacher/neighbour_rules.py:94-107 | a row keeps the smaller of the limit and the number of other confident rows the rule wants |
| Neighbours.CosinesAreDetermined | src/teacher/teacher_neighbours.py:241-259 | however ties are broken, a row's neighbour cosines are the same |
| Neighbours.NeighboursAreDeterminedWithoutTies | src/teacher/teacher_neighbours.py:241-259 | without ties, so are the neighbours |
| NeighbourSearch.ArgPartition | src/teacher/teacher_neighbours.py:247-248 | taken distinct indices, none of which is beaten by one left out |
| NeighbourSearch.ArgSortDescending | src/teacher/teacher_neighbours.py:250 | a permutation in descending order, ties in index order |
| NeighbourSearch.RankRow | src/teacher/teacher_neighbours.py:223-259 | each row gets its best confident rows, descending, padded with minus infinity; its own similarity is minus infinity |
| NeighbourSearch.FindNeighbours | src/teacher/teacher_neighbours.py:162-207 | for any block size the offsets start at 0, increase and end at the array length; each confident row's slice is its neighbours: distinct, confident, other than itself, descending, nothing better left out, as many as the rule allows; every other row's slice is empty |
| NeighbourSearch.SliceHoldsOtherConfidentRows | src/teacher/teacher_neighbours.py:162-207 | a confident row's slice holds distinct other confident rows, each with its own cosine to the row, descending |
| NeighbourSearch.ThresholdKeepsWhatReachesIt | src/teacher/neighbour_rules.py:94-107 | a threshold rule's slice holds only finite cosines at or above min_cosine; another confident row that reaches it is left out only if the slice is full of cosines at least as high |
| NeighbourSearch.TopKKeepsTheBest | src/teacher/neighbour_rules.py:43-56 | a top-k slice has the smaller of k and the number of other confident rows, and no row left out has a higher cosine than one kept |
| NeighbourSearch.SearchesAgree | src/teacher/teacher_neighbours.py:182-206 | two searches of one table, whatever their block sizes, agree on every offset and every cosine |
| TrainingRounds.RunIsAccountedFor | src/training/trainer.py:489-622 | over a whole run the attempts are the steps taken plus overflow skips plus baseline skips plus failures, plus one if and only if the run stopped because the feed failed on a step |
| TrainingLaws.AttemptEndsAsItMet | src/training/trainer.py:489-622 | in every run each attempt ended Failed if and only if its batch or step raised, or its gradients were not finite without fp16 or at a loss scale of at most 1; a baseline skip, an overflow skip, a step and a feed error likewise, each exactly for what it met |
| TrainingLaws.FailingDojoIsAttemptedUpToItsLimit | src/training/diet/dojo_fault_ledger.py:29-54 | a dojo whose every attempt meets an error of its own is attempted in a phase at most as often as the smaller of its two limits |
| TrainingLaws.StreakSinceLastRun | src/training/diet/dojo_fault_ledger.py:29-63 | a dojo's streak is its failed attempts since its last one that ran, a skipped batch not being one |
| TrainingLaws.OverallStreakSinceLastRun | src/training/diet/dojo_fault_ledger.py:29-63 | the overall streak is the failed attempts and sampler failures since any dojo's attempt ran |
| TrainingLaws.QuarantinedByAFailure | src/training/diet/dojo_fault_ledger.py:48-54 | a dojo is quarantined if and only if one of its failures brought its streak or its total to a limit |
| TrainingLaws.NothingAfterGivingUp | src/training/trainer.py:474-477 | no step of a phase is attempted once the overall streak has reached its limit |
| TrainingLaws.AttemptsAreOnActiveDojos | src/training/trainer.py:429-487 | every attempt is on an active dojo, and active at that moment are exactly the phase's dojos the last evaluation did not leave saturated and that are not quarantined so far |
| TrainingLaws.ActiveDojosStayInOrder | src/training/trainer.py:429-435 | the active dojos keep the tracker's order |
| TrainingLaws.PhaseEndsForItsReason | src/training/trainer.py:258-302 | a phase stops for too many failures if and only if its overall streak reached the limit, else for quarantine if and only if every dojo is quarantined, for the feed if and only if an attempt met its error or it failed as the last round began; without a reason the round cap or the target share was reached |
| TrainingLaws.NoEarlierRoundEndsThePhase | src/training/trainer.py:270-302 | after no earlier round of the phase did any of that hold |
| TrainingLaws.SaturatedByShare | src/training/diet/saturation_tracker.py:91-104 | enough dojos are saturated if and only if the saturated ones among the names are at least the target share of them |
| TrainingLaws.NextScale | src/training/trainer.py:595-622 | from one attempt to the next the loss scale stays without fp16 and after an attempt without gradients, halves on an overflow above the floor and stays at the floor at it, and stays or doubles on a step |
| TrainingLaws.GrowsEvery2000Steps | src/training/trainer.py:368-370 | the scaler doubles its scale at the 2000th finite step in a row, and not before |
| TrainingLaws.OverflowRestartsTheCount | src/training/trainer.py:606-618 | an overflow halves a scale above 1, holds any other at 1, and starts the count of finite steps again |
| TrainingEvents.ActiveNamesAreNotQuarantined | src/training/trainer.py:429-435 | the active dojos are exactly the tracker's active ones that are not quarantined |
| TrainingEvents.QuarantineIsFinal | src/training/trainer.py:475-487 | in a run whose every attempt was allowed, a quarantined dojo is never attempted again in the phase |
| TrainingEvents.FailuresStayWithinLimit | src/training/diet/dojo_fault_ledger.py:29-54 | no dojo ever fails more often than its consecutive or total limit, and one not quarantined has reached neither |
| TrainingEvents.StepKeepsPowersOfTwo | src/training/trainer.py:595-622 | a scaled step takes a power-of-two scale to a power of two at or above the floor |
| TrainingEvents.OtherScalesFallBelowTheFloor | src/training/trainer.py:606-618 | any other scale is driven below the floor by enough overflows, halving past 1 without meeting it |
| TrainingEvents.FloorHoldsExactlyForPowersOfTwo | src/training/trainer.py:595-622 | the loss scale stays at or above 1 in every run if and only if it starts at a power of two |
| TrainingEvents.DefaultScaleIsAPowerOfTwo | src/training/trainer.py:368-370 | the scaler's own first scale, 65536, is one |
| TrainingParts.DojoFaultLedger.RecordFailure | src/training/diet/dojo_fault_ledger.py:29-54 | the counts and the quarantine become those of the run with one more failure; the sampler's failure counts toward the overall limit only |
| TrainingParts.DojoFaultLedger.RecordSuccess | src/training/diet/dojo_fault_ledger.py:56-63 | a success, an overflow skip included, ends the dojo's streak and the overall one, and lifts no quarantine |
| TrainingParts.DojoFaultLedger.UntouchedStillReflects | src/training/trainer.py:514-517 | an attempt that neither failed nor ran leaves the ledger right as it is |
| TrainingParts.DojoFaultLedger.GaveUpNow | src/training/diet/dojo_fault_ledger.py:73-77 | the run gives up when its latest failures, the sampler's included, reach the overall limit with no success between |
| TrainingParts.BatchFeed.BeginRound | src/training/diet/batch_feed.py:96-104 | raises a mismatch if a round is open, else opens this one |
| TrainingParts.BatchFeed.NextBatch | src/training/diet/batch_feed.py:106-116 | takes the next scheduled step only if it is the dojo asked for; a dojo's own error consumes the step |
| TrainingParts.BatchFeed.Reschedule | src/training/diet/batch_feed.py:118-127 | replaces every unconsumed step; a mismatch with no round open |
| TrainingParts.UnsaturatedAreTheRest | src/training/diet/saturation_tracker.py:76-89 | the active names are exactly the tracked ones not saturated |
| Trainer.Trainer.ScaledStep | src/training/trainer.py:595-622 | a finite step is taken; an overflow above the floor is skipped; at the floor the scale is held and the step fails |
| Trainer.Trainer.TakeStep | src/training/trainer.py:545-593 | each way a step can end, with exactly the counter that way moves and the scale that results; a non-finite gradient without a scaler is a failure |
| Trainer.Trainer.AttemptStep | src/training/trainer.py:489-517 | the attempt is counted, begins at the current loss scale, ends as its own event says, and its outcome reaches the counters and the ledger; its dojo is next in the feed, so the feed never disagrees; the phase budget is never exceeded |
| Trainer.Trainer.DrawSchedule | src/training/trainer.py:519-543 | the schedule is the sampler's own next draw; none, and no draw used, without an active dojo or a step left; a failing sampler records one failure of no dojo and uses no attempt |
| Trainer.Trainer.Redraw | src/training/trainer.py:479-487 | a change of the active dojos replaces exactly the rest of the round, and the feed's pending steps, by the sampler's next draw over the dojos now active; the round is over if and only if nothing is left to do or the sampler raises |
| Trainer.Trainer.TrainRound | src/training/trainer.py:437-487 | the round is exactly one the sampler and the world make (IsRound): its schedules are the sampler's consecutive draws, each attempted step is the one its current schedule names, a redraw happens exactly where the active dojos changed, and it goes on until all steps are taken, the sampler or the feed fails, too many failures or no dojo is active, and not beyond; it fails at its beginning exactly when a drawn round finds the worker gone |
| Trainer.AttemptLogged | src/training/trainer.py:474-487 | one more attempt under the current draw keeps every event of the round due under the sampler's draws |
| Trainer.OneMoreDraw | src/training/trainer.py:479-487 | a redraw changes no step already attempted |
| Trainer.SamplerEndsRound | src/training/trainer.py:519-543 | a sampler that raises on a redraw ends the round with that as its last event |
| Trainer.Trainer.FinishRound | src/training/trainer.py:284-301 | the skips are reported afresh, and the phase stops exactly for too many failures, else every dojo quarantined, else enough dojos saturated |
| TrainingRounds.AttemptsKeepTheFloor | src/training/trainer.py:595-622 | with a power-of-two first scale every attempt of a phase begins at or above the floor |
| Trainer.Trainer.RunPhase | src/training/trainer.py:258-302 | the phase is a chain of whole rounds, each begun only with no reason to stop, and the reason returned is exactly the one that holds after the last (IsPhase): None if and only if the round cap is reached or enough dojos are saturated and nothing else stops it |
| Trainer.Trainer.Run | src/training/trainer.py:212-256 | the run is the plan's phases in order, each but the last ended with no reason, the last with the run's reason, all phases run when there is none (IsRun); the counters account for every attempt |
| TrainingRounds.PhaseStaysWithinBudget | src/training/trainer.py:258-302 | a phase runs at most max_rounds rounds and attempts at most max_rounds times steps_per_round steps |
| TrainingRounds.DueAttemptIsAllowed | src/training/trainer.py:429-487 | an attempt the schedule calls for is of a tracked dojo, active and not quarantined at that moment |
| TrainingRounds.RoundFeedErrors | src/training/trainer.py:489-517 | a round holds one attempt that met a feed error if it failed on a step and none otherwise |
| TrainingRounds.DirectFeedNeverStopsThePhase | src/training/diet/batch_feed.py:81-139 | a feed whose worker never stops never ends a phase |
| TrainingRounds.RunIsSafe | src/training/trainer.py:212-302 | in every phase of a run each attempt was on one of the phase's dojos, active and not quarantined then, within the step budget, and at or above the loss-scale floor for a power-of-two first scale |
| TrainingOutcome.NextStep | src/training/trainer.py:474-487 | whether a step is taken under the old draw, a new one, or ends in a sampler failure is fixed by the steps before it |
| TrainingOutcome.RoundIsDetermined | src/training/trainer.py:437-487 | where a round starts and what the world answers fix its draws, every attempt with its ending and loss scale, and how it ends |
| TrainingOutcome.PhaseIsDetermined | src/training/trainer.py:258-302 | likewise a phase's rounds and the reason it stopped |
| TrainingOutcome.RunIsDetermined | src/training/trainer.py:212-256 | two runs of one plan in one world are the same run, attempt for attempt, stopped for the same reason |
| Trainer.FailuresByDojoAddUp | src/training/diet/dojo_fault_ledger.py:46-47 | summed over the phase's dojos the recorded failures are exactly the failed attempts |
| BinderBake.AscendingVisitsEachOnce | src/training/binder_mods.py:105 | the pass visits each stored card once, in uuid order |
| BinderBake.ModdedCardBinder.Replace | src/data_refinement/card_binder/card_binder.py:162-196 | overwrites a stored card; a card of another uuid, or a uuid not stored, is refused and leaves the binder as it was |
| BinderBake.ModdedCardBinder.BakeFromCleanFile | src/training/binder_mods.py:79-109 | the cards become the clean ones modded in uuid order with one random state carried through, whatever the file's order; the version stays the clean one |
| BinderBake.BakeKeepsIdentities | src/training/binder_mods.py:105-109 | a bake keeps every uuid, leaves the Unknown sentinel alone and makes every other card cacheable |
| BinderBake.EachCardFromItsPredecessorsState | src/training/binder_mods.py:98-109 | a bake is one chain of random states from the seed: each card but the sentinel is the pipeline's, made in the state its predecessor left, and cacheable |
| BinderBake.BakeFailsAtTheFirstBadCard | src/training/binder_mods.py:98-109 | a failed bake has one first bad card, every card before it bakes, and its error is what that card met: no card, a raise, or another uuid |
| BinderMods.StepKeepsInv | src/training/binder_mods.py:265-366 | any step of any process keeps: files in place are complete and right, a stamp only above complete data, every staged file as far along as its process |
| BinderMods.EveryRunIsSafe | src/training/binder_mods.py:347-366 | for processes that write the same, in any interleaving with kills, failures and reused process ids, a stamp in place means complete correct data files in place, and every binder returned, loaded or fresh, is the process's own bake |
| BinderMods.LoadsWhatIsSaved | src/training/binder_mods.py:283-296 | a process whose fingerprint the stamp carries loads whatever data is in place |
| BinderMods.LoadAnswersFromTheFiles | src/training/binder_mods.py:265-296 | beside any stamp, a process left alone changes no file and raises exactly for an unreadable or foreign stamp, a missing or partial binder or a partial ledger; otherwise it returns what it finds, no aliases without a ledger, under the stamped version |
| BinderMods.LoneProcessSavesItsBake | src/training/binder_mods.py:334-366 | left alone where no stamp is in place, a process saves all three files whole and returns its own bake |
| BinderMods.MixedBake | src/training/binder_mods.py:359-364 | one process moves its data, another overwrites it and dies before its stamp, the first moves its stamp: a later loader gets the other's cards under the first's version |
| BinderMods.SafeExactlyWhenAllWriteTheSame | src/training/binder_mods.py:334-366 | sharing a save directory is safe in every run if and only if all jobs write the same cards and aliases and jobs of one fingerprint have one clean version |
| TeacherInputs.IndexIsTheHoldouts | src/dojos/file_managers/deck_split_index.py:91-140 | an accepted split index gives every deck of the snapshot the split the holdout gives it, whichever spec it was cached under and to whichever snapshot it was assigned: the key and the stamp that are checked rule the others out |
| TeacherInputs.SelectedRowsAreTheChosenSplits | src/teacher/teacher_inputs.py:60-71 | the selected deck rows ascend and are those any chosen split lists |
| TeacherInputs.MaskKeepsTheChosenTiers | src/teacher/teacher_inputs.py:73-96 | a card is kept if and only if it is not the sentinel and the tier it hashes to, or VALIDATION in a held-out game, is chosen |
| TeacherInputs.EqualKeysCountAlike | src/teacher/teacher_inputs.py:60-96 | over one snapshot, equal deck and tier keys select the same decks and keep the same cards, whatever else two holdouts differ in |
| TeacherCache.StampCoversTheBuild | src/teacher/teacher_cache.py:104-119 | equal stamps mean equal tables: the build reads each deck's split and each card's tier, and the stamp's keys fix them all, so the same counts are fitted |
| TeacherCache.BuiltFilesAreHonest | src/teacher/teacher_cache.py:138-170 | a file written by a call holds what its stamp and rule say it holds |
| TeacherCache.TableRowsAreTheKeptCards | src/teacher/teacher_cache.py:138-170 | a built table has a row per kept card in snapshot order, with the fitted vectors, the deck counts, and confidence exactly where the deck count reaches the least |
| TeacherCache.RefusedExactlyWhenNotConfiguredOrHeldOut | src/teacher/teacher_cache.py:104-136 | a game is refused exactly when it is not configured, or else held out |
| TeacherCache.Cache.TableOf | src/teacher/teacher_cache.py:84-89 | the table is the fresh one whatever lies at its path; a failed write is answered exactly when the table was not cached and its write failed, and the file changes exactly when it was written |
| TeacherCache.Cache.LoadOrBuildTeacher | src/teacher/teacher_cache.py:58-101 | the table and neighbours are those of a fresh build, or the build's own error; a failed write is answered exactly when a file was needed and its write failed; the files left are exactly the old ones with what was needed and written |
| TeacherCache.FirstCallWritesBothFiles | src/teacher/teacher_cache.py:84-100 | in an empty directory a call needs both files, and if both writes succeed leaves exactly those |
| TeacherCache.SecondCallWritesNothing | src/teacher/teacher_cache.py:84-100 | once a call has answered, the same call again needs no write, whatever else lies in the directory, and changes no file |
| TeacherCache.OnlyItsOwnFilesChange | src/teacher/teacher_cache.py:84-100 | a call changes at most its own table's and its own neighbours' file |
| TeacherCache.Cache.Replay | src/teacher/teacher_cache.py:58-101 | over every history of calls with any settings and of deleted, damaged or copied files, with any tag collisions, each call answers what a fresh build would, or a failed write exactly when the files then there made it write and the write failed |
| Splits.GetSplitIndices | src/schema/ttv_splits.py:157-193 | the ranges run from the rounded-down shares, the last one to the end; IndexError exactly without ratios |
| Splits.BoundaryIsClose | src/schema/ttv_splits.py:184-187 | the first k splits together never exceed their exact share and fall short of it by less than k items |
| Splits.TileExactlyWhenTheyFit | src/schema/ttv_splits.py:182-193 | the ranges tile the collection if and only if the rounded shares fit into it |
| Splits.FitEverySizeExactlyWhenNormalized | src/schema/ttv_splits.py:24-29 | the shares fit into every collection if and only if the ratios sum to at most 1 |
| Splits.RawWeightsOvershoot | src/schema/ttv_splits.py:24-29 | raw weights 8, 1, 1 ask for ten times the collection, so their ranges never tile one that is not empty, unlike what the docstring says |
| Splits.NormalizedRatiosLeaveLittleOver | src/schema/ttv_splits.py:157-193 | ratios that sum to 1 give contiguous ranges of floor sizes from 0 to the end, and the last takes fewer leftovers than there are splits |
| Splits.NormalizedRatiosSumToOne | src/schema/ttv_splits.py:50-73 | from_unnormalized of non-negative ratios with a positive sum gives non-negative ratios that sum to 1 |
| Splits.SharesAreInProportion | src/schema/ttv_splits.py:72-73 | each normalized ratio times the sum is the given one |
| Splits.ProportionalRatiosNormalizeAlike | src/schema/ttv_splits.py:72-73 | proportional ratios normalize to the same ones |
| Splits.SplitCollection | src/schema/ttv_splits.py:116-138 | for any non-negative ratios the pieces join to the collection; whenever the shares fit they are the get_split_indices slices; fewer than two ratios give the whole collection |
| Holdout.EveryPositionInExactlyOneTier | src/schema/holdout.py:359-367 | every hash position lies in exactly one range, the one the scan returns, so its fallback is never taken |
| Holdout.TierIsWhereTheHashFalls | src/schema/holdout.py:138-155 | a held-out game's card is VALIDATION; any other card is of the tier whose range holds the position its seed and uuid hash to |
| Holdout.DeckSplitIsWhereTheHashFalls | src/schema/holdout.py:157-180 | likewise a deck, by its own ratios and its salted text; without deck ratios there is no answer |
| Holdout.TiersHaveTheirShares | src/schema/holdout.py:343-348 | the three ranges cover the hash range in order, the first two as long as their rounded-down shares of it |
| Holdout.HashTextsAreInjective | src/schema/holdout.py:138-180 | equal hash texts mean equal seeds and uuids |
| Holdout.DecksHashApartFromCards | src/schema/holdout.py:318-324 | no deck ever hashes the text a card does, whatever the seeds |
| Holdout.EqualTierKeysTierAlike | src/schema/holdout.py:214-234 | specs with equal card_tier_key tier every card of every game alike |
| Holdout.EqualDeckKeysSplitAlike | src/schema/holdout.py:182-212 | specs with equal deck_split_key for a game split its every deck alike, the unknown split included |
| Holdout.ProportionalSpecsShareTheirKeys | src/schema/holdout.py:351-356 | proportional ratios give the same card_tier_key |
| Holdout.DeckKeyIgnoresTheRest | src/schema/holdout.py:182-212 | holding out another game or changing the card tiers leaves a game's deck key alone |
| Holdout.ZeroTierIsEmptyExactlyWhenSharesAreWhole | src/schema/holdout.py:343-348 | a last tier of ratio zero is empty if and only if the other two shares of the hash range are whole numbers |
| Holdout.ZeroTierCanHoldCards | src/schema/holdout.py:343-348 | ratios 2, 1, 0 still give one of the 2**32 slots to VALIDATION |
| Holdout.NoHoldoutTrainsEverything | src/schema/holdout.py:116-125 | no_holdout puts every card of every game in TRAIN |
| RateLimiter.RateLimiter.Wait | src/data_retrieval/rate_limiter.py:35-64 | the recorded call times stay at least one interval apart; the call sleeps exactly what is left of the interval at its first reading, never more than one interval and not at all on the first call, and records the clock when it returns |
| RateLimiter.WindowHoldsFewCalls | src/data_retrieval/rate_limiter.py:52-64 | any window of a given length holds at most length / interval + 1 of the calls |
| PacedGet.RetryAfterReadsTheSeconds | src/data_retrieval/download_utils.py:423-434 | a Retry-After of n in digits, spaces around it or not, waits n seconds, at most 900 |
| PacedGet.RetryAfterRaisesExactlyForSuperscripts | src/data_retrieval/download_utils.py:423-434 | reading the header raises ValueError if and only if it is made of digits with a superscript one, two or three among them: isdigit takes those, float does not |
| PacedGet.OtherHeadersAskForAMinute | src/data_retrieval/download_utils.py:423-434 | any header not made of digits and superscripts throughout, none included, waits 60 seconds |
| PacedGet.OneCharacterBeforeADigit | src/data_retrieval/download_utils.py:423-434 | which Latin-1 characters are skipped, read as a digit, raise ValueError or make the header unreadable before a digit |
| PacedGet.RetriedEndsAtTheFirstSuccess | src/data_retrieval/download_utils.py:112-127 | a group of attempts ends at the first that does not raise, or after all of them raised, with one pause between each two |
| PacedGet.PacedMakesFewRequests | src/data_retrieval/download_utils.py:407-420 | at most (max_rate_limited_waits + 1) times max_attempts requests |
| PacedGet.DefaultsMakeAtMostEighteen | src/data_retrieval/download_utils.py:66-70 | with the default arguments, at most eighteen requests |
| PacedGet.PacedEndsRight | src/data_retrieval/download_utils.py:407-420 | a 429 is never returned; a reply is returned exactly when it neither raises nor is a 429; still rate limited exactly after max_rate_limited_waits + 1 429s; an earlier 429 ends the GET exactly when its Retry-After cannot be read |
| PacedGet.RaisesExactlyAfterAWholeGroup | src/data_retrieval/download_utils.py:407-420 | the last error is raised if and only if the last max_attempts requests all raised |
| PacedGet.ErrorsAreRetriedThenRaised | src/data_retrieval/download_utils.py:112-127 | a server that only gives network errors, or one untolerated 4xx or 5xx, is asked max_attempts times with two seconds between, and the error is raised |
| PacedGet.OtherRepliesAreReturned | src/data_retrieval/download_utils.py:407-412 | any other reply but a 429 is returned at once, tolerated errors included |
| PacedGet.RateLimitsAreWaitedOut | src/data_retrieval/download_utils.py:407-420 | a server that only gives 429s is waited out by its own Retry-After max_rate_limited_waits times, and then raised |
| PacedGet.Session.Attempt | src/data_retrieval/download_utils.py:390-405 | every request is made at the very moment its wait recorded, one wait to a request; a network error or an untolerated 4xx or 5xx other than 429 raises |
| PacedGet.Session.RequestsArePaced | src/data_retrieval/rate_limiter.py:52-64 | so any window of a given length holds at most length / interval + 1 of the GET's requests |
| PacedGet.Session.CallWithRetries | src/data_retrieval/download_utils.py:75-127 | the replies used and the pauses taken are those of trying until one does not raise, none after the last |
| PacedGet.Session.PacedGet | src/data_retrieval/download_utils.py:327-420 | the two argument errors come first; then requests, waits and pauses are those of the whole paced GET |
| DeckIds.TextIsInjective | src/data_refinement/deck_ids.py:64 | the canonical text tells uuids apart |
| DeckIds.TextIsCanonical | src/data_refinement/deck_ids.py:64 | the text is 32 lower-case hexadecimal digits with dashes after the 8th, 12th, 16th and 20th |
| DeckIds.OrderIsLexicographic | src/data_refinement/deck_ids.py:64 | one text sorts before another exactly as strings do |
| DeckIds.SortedSorts | src/data_refinement/deck_ids.py:64 | sorting gives an ascending arrangement of the same multiset |
| DeckIds.SortedIsUnique | src/data_refinement/deck_ids.py:64 | a multiset of texts has one ascending arrangement |
| DeckIds.JoinPutsCommasBetween | src/data_refinement/deck_ids.py:65 | the join is the texts in order with one comma between each two |
| DeckIds.JoinIsInjective | src/data_refinement/deck_ids.py:65 | the comma join of uuid texts comes apart again |
| DeckIds.SameHashInputExactlyWhenSameCards | src/data_refinement/deck_ids.py:40-65 | two decks hash the same text if and only if they hold the same cards the same number of times |

## Left out

- Floating-point rounding, including the float32 cosines and vectors, the overflow of a growing loss scale, and
  ratios that are not exact: everything is over the reals.
- CooccurrenceCount.CountCooccurrence: does not model sparse storage (explicit zeros and their elimination), because
  only the stored values are observable.
- NeighbourSearch.ArgPartition: promises what numpy documents; the model's own selection loop is one way to meet it,
  and the order within the partition stays open to its caller.
- TextEncoder.EncodeWith: gradients, devices and the tokenizer's truncation are not modelled.
- CardFactory.WithField: `json`-like containers only; provenance, names and the `cacheable` flag of the card are
  carried along unread.
- Trainer.Trainer.Run: evaluation, reports, checkpoints and listeners are not modelled; an evaluation is the set of
  dojos it leaves saturated, so the saturation tracker's own patience and reactivation rules are not modelled.
- The Trainer constructor's checks of the plan against the registered dojos, and a `modded_binder` without a save
  directory (it only bakes): one-line validation and one branch.
- Trainer.Trainer.AttemptStep: the learning-rate multiplier itself is not modelled, only that its step stays below
  the phase's budget; nor are gradient clipping and its tally.
- TrainingParts.BatchFeed.NextBatch: the prefetching feed's worker, its built-ahead batches and reservations are not
  modelled beyond the worker being gone at some step or round.
- BinderMods.EveryRunIsSafe: process ids are those of one machine, so two live processes never share a staging
  directory; file contents are values, and a partial write is one that was not finished.
- BinderBake.ModdedCardBinder.BakeFromCleanFile: reading and writing the JSON lines, with their alias rows, is not
  modelled.
- TeacherInputs.IndexIsTheHoldouts: the split index's own cache file is not modelled; an index holds what some spec
  with its key assigned to the decks of the snapshot whose stamp it carries.
- TeacherCache.StampCoversTheBuild: the fit and the ranking are functions of the counts, the table and the settings;
  their numerics are not modelled.
- TeacherCache.Cache.Replay: calls come one after another; two processes writing one file at once are not modelled,
  and a failed write leaves the file as it was because the write is atomic.
- Holdout.EqualTierKeysTierAlike: the keys are the values their JSON text encodes; `to_json` and `from_json` of a
  spec are not modelled.
- Splits.SplitCollection: shuffling is not modelled; the collection is the one after it. Negative ratios are not
  covered, whose slices would count from the end.
- RateLimiter.RateLimiter.Wait: one caller at a time, as the class has no lock.
- PacedGet.Session.PacedGet: redirects a request follows by itself are part of one request; header text is Latin-1,
  as HTTP clients decode it.
- DeckIds.SameHashInputExactlyWhenSameCards: stops at the hashed text; that uuid5 tells texts apart is not modelled.
- Network numerics (attention, normalization, autocast, AdamW, SVD), and the internals of the feature cache: abstract
  functions or nothing at all.
- Arrow, YAML, SQLite and HTTP plumbing, command-line scripts, logging, plots, the dojo catalog, presets and the other
  plain data classes: no deep invariant.
