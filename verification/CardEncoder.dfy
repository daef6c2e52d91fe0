/** The one batched path every input shape takes through a card encoder, against running each sequence alone. */
module CardEncoder {
  import opened Sequences
  import opened PaddedLayout

  /** The pieces forward composes: the per-card pipeline, the subclass's contextualize, and the embedding width. */
  datatype Encoder<!Card> = Encoder(embed: Card -> Vector, contextualize: (seq<Row>, seq<seq<bool>>) -> seq<Row>,
                                    width: nat)

  /** A batch of single cards, of multi-card inputs, or of multi-group inputs. */
  datatype Batch<Card> = SingleCards(cards: seq<Card>) | MultiCards(examples: seq<seq<Card>>)
                       | MultiGroups(groups: seq<seq<seq<Card>>>)

  datatype Output = Padded(embeddings: PaddedEmbeddings) | Regrouped(examples: seq<seq<Row>>) | Unclassifiable

  // ----- the contracts of the collaborators

  /** The padded tensor and mask contextualize receives for these rows. */
  function PaddedInput(rows: seq<Row>, width: nat): seq<Row> {
    Overlay(rows, Zeros(|rows|, MaxLength(Lengths(rows)), width))
  }

  function Contextualized<Card>(encoder: Encoder<Card>, rows: seq<Row>): seq<Row> {
    encoder.contextualize(PaddedInput(rows, encoder.width), MaskFromLengths(Lengths(rows)))
  }

  ghost predicate KeepsShape<Card>(encoder: Encoder<Card>, rows: seq<Row>) {
    IsLayout(Contextualized(encoder, rows), |rows|, MaxLength(Lengths(rows)))
  }

  /** A real card's contextualized row depends only on the real cards of its own sequence. */
  ghost predicate IsLocal<Card>(encoder: Encoder<Card>) {
    && (forall rows :: AllWidth(rows, encoder.width) ==> KeepsShape(encoder, rows))
    && (forall rows, rows', b: nat, b': nat :: SameSequence(encoder, rows, b, rows', b') ==>
          Contextualized(encoder, rows)[b][..|rows[b]|] == Contextualized(encoder, rows')[b'][..|rows[b]|])
  }

  ghost predicate SameSequence<Card>(encoder: Encoder<Card>, rows: seq<Row>, b: nat, rows': seq<Row>, b': nat) {
    && AllWidth(rows, encoder.width) && AllWidth(rows', encoder.width)
    && KeepsShape(encoder, rows) && KeepsShape(encoder, rows')
    && b < |rows| && b' < |rows'| && rows[b] == rows'[b']
  }

  ghost predicate EmbedsAtWidth<Card(!new)>(encoder: Encoder<Card>) {
    forall card :: |encoder.embed(card)| == encoder.width
  }

  ghost predicate Sound<Card(!new)>(encoder: Encoder<Card>) {
    IsLocal(encoder) && EmbedsAtWidth(encoder)
  }

  // ----- _padded_sequences

  function Embedded<Card>(encoder: Encoder<Card>, cards: seq<Card>): Row {
    seq(|cards|, i requires 0 <= i < |cards| => encoder.embed(cards[i]))
  }

  function MaskedFill(rows: seq<Row>, mask: seq<seq<bool>>, width: nat): seq<Row>
    requires |rows| == |mask| && forall b :: 0 <= b < |rows| ==> |rows[b]| == |mask[b]|
  {
    seq(|rows|, b requires 0 <= b < |rows| =>
      seq(|rows[b]|, k requires 0 <= k < |rows[b]| => if mask[b][k] then rows[b][k] else Zero(width)))
  }

  function EmbeddedRows<Card>(encoder: Encoder<Card>, sequences: seq<seq<Card>>): (rows: seq<Row>)
    ensures Lengths(rows) == Lengths(sequences)
  {
    seq(|sequences|, b requires 0 <= b < |sequences| => Embedded(encoder, sequences[b]))
  }

  lemma {:induction false} EmbeddingFlattens<Card>(encoder: Encoder<Card>, sequences: seq<seq<Card>>)
    ensures Embedded(encoder, Flatten(sequences)) == Flatten(EmbeddedRows(encoder, sequences))
  {
    if sequences != [] {
      EmbeddingFlattens(encoder, sequences[1..]);
      assert EmbeddedRows(encoder, sequences)[1..] == EmbeddedRows(encoder, sequences[1..]);
      assert Embedded(encoder, sequences[0] + Flatten(sequences[1..])) ==
             Embedded(encoder, sequences[0]) + Embedded(encoder, Flatten(sequences[1..]));
    }
  }

  lemma EmbeddedAtWidth<Card(!new)>(encoder: Encoder<Card>, sequences: seq<seq<Card>>)
    requires EmbedsAtWidth(encoder)
    ensures AllWidth(EmbeddedRows(encoder, sequences), encoder.width)
  {
  }

  /** A batch of one sequence has no padding: its input is the cards' embeddings, its mask all real. */
  lemma OneSequenceIsUnpadded<Card(!new)>(encoder: Encoder<Card>, sequence: seq<Card>, embedded: Row, isReal: seq<bool>)
    requires Sound(encoder) && |embedded| == |isReal| == |sequence|
    requires forall k :: 0 <= k < |sequence| ==> embedded[k] == encoder.embed(sequence[k]) && isReal[k]
    ensures var output := encoder.contextualize([embedded], [isReal]);
            && Contextualized(encoder, EmbeddedRows(encoder, [sequence])) == output
            && |output| == 1 && |output[0]| == |sequence|
  {
    var rows := EmbeddedRows(encoder, [sequence]);
    EmbeddedAtWidth(encoder, [sequence]);
    assert Embedded(encoder, sequence) == embedded;
    assert |rows| == 1 && rows[0] == embedded;
    assert rows == [embedded] && KeepsShape(encoder, rows);
    assert Lengths(rows) == [|sequence|] && MaxLength([|sequence|]) == |sequence|;
    var input, mask := PaddedInput(rows, encoder.width), MaskFromLengths([|sequence|]);
    assert input[0] == embedded && input == [embedded];
    assert mask[0] == isReal && mask == [isReal];
  }

  /** Embed every card at once, scatter into zeros, contextualize, zero the padding. */
  function PaddedSequences<Card(!new)>(encoder: Encoder<Card>, sequences: seq<seq<Card>>, shape: InputShape)
    : (p: PaddedEmbeddings)
    requires Sound(encoder)
    ensures p.lengths == Lengths(sequences) && p.shape == shape && p.mask == MaskFromLengths(p.lengths)
    ensures IsLayout(p.cards, |sequences|, MaxLength(p.lengths))
  {
    var lengths := Lengths(sequences);
    var base := Embedded(encoder, Flatten(sequences));
    var mask := MaskFromLengths(lengths);
    var empty := Zeros(|lengths|, MaxLength(lengths), encoder.width);
    EmbeddingFlattens(encoder, sequences);
    EmbeddedAtWidth(encoder, sequences);
    ScatterOverlays(EmbeddedRows(encoder, sequences), empty, MaxLength(lengths));
    assert KeepsShape(encoder, EmbeddedRows(encoder, sequences));
    var padded := ScatterToSlots(base, empty, lengths, MaxLength(lengths));
    PaddedEmbeddings(MaskedFill(encoder.contextualize(padded, mask), mask, encoder.width), mask, shape, lengths)
  }

  /** The embeddings of one sequence's cards, contextualized with nothing else in the batch. */
  function Alone<Card(!new)>(encoder: Encoder<Card>, sequence: seq<Card>): (rows: Row)
    requires Sound(encoder)
    ensures |rows| == |sequence| && KeepsShape(encoder, EmbeddedRows(encoder, [sequence]))
    ensures rows == Contextualized(encoder, EmbeddedRows(encoder, [sequence]))[0]
  {
    var embedded := seq(|sequence|, k requires 0 <= k < |sequence| => encoder.embed(sequence[k]));
    var isReal := seq(|sequence|, _ => true);
    EmbeddedAtWidth(encoder, [sequence]);
    assert KeepsShape(encoder, EmbeddedRows(encoder, [sequence]));
    OneSequenceIsUnpadded(encoder, sequence, embedded, isReal);
    encoder.contextualize([embedded], [isReal])[0]
  }

  /** Any list of the cards' embeddings, under a mask that is all real, gives those rows. */
  lemma AloneIsOneCall<Card(!new)>(encoder: Encoder<Card>, sequence: seq<Card>, embedded: Row, isReal: seq<bool>)
    requires Sound(encoder) && |embedded| == |isReal| == |sequence|
    requires forall k :: 0 <= k < |sequence| ==> embedded[k] == encoder.embed(sequence[k]) && isReal[k]
    ensures |encoder.contextualize([embedded], [isReal])| == 1
    ensures Alone(encoder, sequence) == encoder.contextualize([embedded], [isReal])[0]
  {
    hide Alone;
    OneSequenceIsUnpadded(encoder, sequence, embedded, isReal);
  }

  function AllAlone<Card(!new)>(encoder: Encoder<Card>, sequences: seq<seq<Card>>): seq<Row>
    requires Sound(encoder)
  {
    seq(|sequences|, b requires 0 <= b < |sequences| => Alone(encoder, sequences[b]))
  }

  // ----- one batched call agrees with one call per sequence

  lemma CardsOfPaddedSequences<Card(!new)>(encoder: Encoder<Card>, sequences: seq<seq<Card>>, shape: InputShape, b: nat)
    requires Sound(encoder) && b < |sequences|
    ensures var rows := EmbeddedRows(encoder, sequences);
            var p := PaddedSequences(encoder, sequences, shape);
            && KeepsShape(encoder, rows)
            && p.cards[b][..|sequences[b]|] == Contextualized(encoder, rows)[b][..|sequences[b]|]
            && forall k :: |sequences[b]| <= k < |p.cards[b]| ==> p.cards[b][k] == Zero(encoder.width)
  {
    var rows := EmbeddedRows(encoder, sequences);
    EmbeddingFlattens(encoder, sequences);
    EmbeddedAtWidth(encoder, sequences);
    ScatterOverlays(rows, Zeros(|rows|, MaxLength(Lengths(rows)), encoder.width), MaxLength(Lengths(rows)));
    assert KeepsShape(encoder, rows);
  }

  /** Batching never mixes sequences: each card's row is the one its own sequence gives when it is the whole batch. */
  lemma EachSequenceAsIfAlone<Card(!new)>(encoder: Encoder<Card>, sequences: seq<seq<Card>>, shape: InputShape, b: nat)
    requires Sound(encoder) && b < |sequences|
    ensures var p := PaddedSequences(encoder, sequences, shape);
            p.cards[b][..|sequences[b]|] == Alone(encoder, sequences[b])
  {
    hide PaddedSequences;
    var rows, rows' := EmbeddedRows(encoder, sequences), EmbeddedRows(encoder, [sequences[b]]);
    EmbeddedAtWidth(encoder, sequences);
    EmbeddedAtWidth(encoder, [sequences[b]]);
    CardsOfPaddedSequences(encoder, sequences, shape, b);
    assert rows'[0] == rows[b];
    assert SameSequence(encoder, rows, b, rows', 0);
  }

  lemma PaddedSequencesLayout<Card(!new)>(encoder: Encoder<Card>, sequences: seq<seq<Card>>, shape: InputShape)
    requires Sound(encoder)
    ensures var p := PaddedSequences(encoder, sequences, shape);
            && RealRows(p.cards, p.lengths) == AllAlone(encoder, sequences)
            && forall b, k :: 0 <= b < |sequences| && |sequences[b]| <= k < |p.cards[b]| ==>
                 p.cards[b][k] == Zero(encoder.width)
  {
    hide PaddedSequences, Alone;
    var p := PaddedSequences(encoder, sequences, shape);
    forall b | 0 <= b < |sequences|
      ensures p.cards[b][..|sequences[b]|] == Alone(encoder, sequences[b])
      ensures forall k :: |sequences[b]| <= k < |p.cards[b]| ==> p.cards[b][k] == Zero(encoder.width)
    {
      EachSequenceAsIfAlone(encoder, sequences, shape, b);
      CardsOfPaddedSequences(encoder, sequences, shape, b);
    }
  }

  // ----- regrouping

  function Regroup<T>(nested: seq<T>, counts: seq<nat>): seq<seq<T>>
    requires |nested| == Total(counts)
  {
    if counts == [] then [] else [nested[..counts[0]]] + Regroup(nested[counts[0]..], counts[1..])
  }

  /** Regrouping the joined parts by their own lengths gives the parts back, empty ones included. */
  lemma {:induction false} RegroupRestores<T>(parts: seq<seq<T>>)
    ensures |Flatten(parts)| == Total(Lengths(parts))
    ensures Regroup(Flatten(parts), Lengths(parts)) == parts
  {
    if parts != [] {
      RegroupRestores(parts[1..]);
      assert Lengths(parts)[1..] == Lengths(parts[1..]);
      assert Flatten(parts)[..|parts[0]|] == parts[0] && Flatten(parts)[|parts[0]|..] == Flatten(parts[1..]);
    }
  }

  /** Hand each example its next groups, in order. */
  method RegroupedBy<T>(nested: seq<T>, groupCounts: seq<nat>) returns (result: seq<seq<T>>)
    requires |nested| == Total(groupCounts)
    ensures result == Regroup(nested, groupCounts)
  {
    result := [];
    var start := 0;
    assert groupCounts[0..] == groupCounts && nested[0..] == nested;
    for i := 0 to |groupCounts|
      invariant start + Total(groupCounts[i..]) == |nested|
      invariant Regroup(nested, groupCounts) == result + Regroup(nested[start..], groupCounts[i..])
    {
      assert groupCounts[i..][0] == groupCounts[i] && groupCounts[i..][1..] == groupCounts[i + 1..];
      var next := start + groupCounts[i];
      assert nested[start..][..groupCounts[i]] == nested[start..next];
      assert nested[start..][groupCounts[i]..] == nested[next..];
      result := result + [nested[start..next]];
      start := next;
    }
  }

  // ----- forward

  /** The shape is read from the first entry at each level, so each of these must be there. */
  predicate IsClassifiable<Card>(x: Batch<Card>) {
    match x
    case SingleCards(cards) => cards != []
    case MultiCards(examples) => examples != [] && examples[0] != []
    case MultiGroups(groups) => groups != [] && groups[0] != [] && groups[0][0] != []
  }

  /** x with every sequence replaced by what it gives alone, in x's own nesting. */
  ghost function ExpectedGroups<Card(!new)>(encoder: Encoder<Card>, groups: seq<seq<seq<Card>>>): seq<seq<Row>>
    requires Sound(encoder)
  {
    seq(|groups|, e requires 0 <= e < |groups| => AllAlone(encoder, groups[e]))
  }

  lemma AllAloneConcat<Card(!new)>(encoder: Encoder<Card>, a: seq<seq<Card>>, b: seq<seq<Card>>)
    requires Sound(encoder)
    ensures AllAlone(encoder, a + b) == AllAlone(encoder, a) + AllAlone(encoder, b)
    ensures |AllAlone(encoder, a)| == |a|
  {
    hide Alone, Sound;
  }

  lemma {:induction false} ExpectedGroupsFlatten<Card(!new)>(encoder: Encoder<Card>, groups: seq<seq<seq<Card>>>)
    requires Sound(encoder)
    ensures AllAlone(encoder, Flatten(groups)) == Flatten(ExpectedGroups(encoder, groups))
    ensures Lengths(ExpectedGroups(encoder, groups)) == Lengths(groups)
  {
    if groups != [] {
      hide AllAlone, Sound;
      ExpectedGroupsFlatten(encoder, groups[1..]);
      assert ExpectedGroups(encoder, groups)[1..] == ExpectedGroups(encoder, groups[1..]);
      AllAloneConcat(encoder, groups[0], Flatten(groups[1..]));
    }
  }

  method Forward<Card(!new)>(encoder: Encoder<Card>, x: Batch<Card>) returns (output: Output)
    requires Sound(encoder)
    ensures output.Unclassifiable? <==>
            match x
            case SingleCards(cards) => cards == []
            case MultiCards(examples) => examples == [] || examples[0] == []
            case MultiGroups(groups) => groups == [] || groups[0] == [] || groups[0][0] == []
    ensures !output.Unclassifiable? ==>
              match x
              case SingleCards(cards) =>
                output.Padded? && Valid(output.embeddings) && PaddingIsZero(output.embeddings, encoder.width) &&
                output.embeddings.shape == SINGLE_CARD &&
                RealRows(output.embeddings.cards, output.embeddings.lengths) ==
                AllAlone(encoder, seq(|cards|, i requires 0 <= i < |cards| => [cards[i]]))
              case MultiCards(examples) =>
                output.Padded? && Valid(output.embeddings) && PaddingIsZero(output.embeddings, encoder.width) &&
                output.embeddings.shape == MULTI_CARD
                && ToNested(output.embeddings) == Multis(AllAlone(encoder, examples))
              case MultiGroups(groups) => output == Regrouped(ExpectedGroups(encoder, groups))
  {
    hide Sound, PaddedSequences, Alone, Flatten, MaxLength;
    if !IsClassifiable(x) {
      return Unclassifiable;
    }
    match x {
      case SingleCards(cards) =>
        var sequences := seq(|cards|, i requires 0 <= i < |cards| => [cards[i]]);
        PaddedSequencesLayout(encoder, sequences, SINGLE_CARD);
        return Padded(PaddedSequences(encoder, sequences, SINGLE_CARD));
      case MultiCards(examples) =>
        PaddedSequencesLayout(encoder, examples, MULTI_CARD);
        return Padded(PaddedSequences(encoder, examples, MULTI_CARD));
      case MultiGroups(groups) =>
        var padded := PaddedSequences(encoder, Flatten(groups), MULTI_CARD);
        PaddedSequencesLayout(encoder, Flatten(groups), MULTI_CARD);
        ExpectedGroupsFlatten(encoder, groups);
        RegroupRestores(ExpectedGroups(encoder, groups));
        var examples := RegroupedBy(ToNested(padded).examples, Lengths(groups));
        return Regrouped(examples);
    }
  }
}
