/** Modding one game's clean binder in place, card by card, with a seeded pipeline. */
module BinderBake {
  type Uuid = nat

  datatype Card = Card(uuid: Uuid, content: string, cacheable: bool)

  /** What the pipeline makes of a card; `rng` is its mods' random state afterwards. */
  datatype Modded = Modded(card: Card, rng: nat) | NotACard | ModRaised

  /** What replace answers: done, or the ValueError or KeyError it raises. */
  datatype Refusal = Replaced | WrongUuid | NotStored

  datatype BakeError = UuidChanged | NotOneCard | ModFailed

  datatype Result<T> = Ok(value: T) | Err(error: BakeError)

  // ----- the pass in uuid order

  ghost predicate IsSmallest(uuids: set<Uuid>, m: Uuid) {
    m in uuids && forall u :: u in uuids ==> m <= u
  }

  lemma {:induction false} SmallestExists(uuids: set<Uuid>)
    requires uuids != {}
    ensures exists m :: IsSmallest(uuids, m)
    decreases |uuids|
  {
    var any :| any in uuids;
    var rest := uuids - {any};
    assert forall u :: u in uuids ==> u == any || u in rest;
    if rest == {} {
      assert IsSmallest(uuids, any);
    } else {
      SmallestExists(rest);
      var other :| IsSmallest(rest, other);
      assert IsSmallest(uuids, if any < other then any else other);
    }
  }

  ghost function Smallest(uuids: set<Uuid>): (m: Uuid)
    requires uuids != {}
    ensures IsSmallest(uuids, m)
  {
    SmallestExists(uuids);
    var m :| IsSmallest(uuids, m);
    m
  }

  ghost function Ascending(uuids: set<Uuid>): seq<Uuid>
    decreases |uuids|
  {
    if uuids == {} then [] else [Smallest(uuids)] + Ascending(uuids - {Smallest(uuids)})
  }

  /** Each uuid of the set once, ascending. */
  lemma {:induction false} AscendingVisitsEachOnce(uuids: set<Uuid>)
    ensures forall u :: u in Ascending(uuids) <==> u in uuids
    ensures forall i, j :: 0 <= i < j < |Ascending(uuids)| ==> Ascending(uuids)[i] < Ascending(uuids)[j]
    decreases |uuids|
  {
    if uuids != {} {
      var least, rest := Smallest(uuids), Ascending(uuids - {Smallest(uuids)});
      AscendingVisitsEachOnce(uuids - {least});
      assert Ascending(uuids) == [least] + rest;
      forall i, j | 0 <= i < j < |[least] + rest| ensures ([least] + rest)[i] < ([least] + rest)[j] {
        assert rest[j - 1] in uuids - {least};
      }
    }
  }

  function Cached(card: Card): Card {
    card.(cacheable := true)
  }

  /** The cards after modding those of `order`, the random state carried from one to the next. */
  function ModdedInOrder(pipeline: (nat, Card) -> Modded, rng: nat, order: seq<Uuid>, cards: map<Uuid, Card>,
                         unknown: Uuid): Result<map<Uuid, Card>>
    decreases order
  {
    if order == [] then Ok(cards)
    else if order[0] == unknown || order[0] !in cards then ModdedInOrder(pipeline, rng, order[1..], cards, unknown)
    else
      match pipeline(rng, cards[order[0]])
      case NotACard => Err(NotOneCard)
      case ModRaised => Err(ModFailed)
      case Modded(card, next) =>
        if card.uuid != order[0] then Err(UuidChanged)
        else ModdedInOrder(pipeline, next, order[1..], cards[order[0] := Cached(card)], unknown)
  }

  /** A bake keeps every identity, leaves the sentinel and the unvisited alone, and makes the rest cacheable. */
  lemma {:induction false} BakeKeepsIdentities(pipeline: (nat, Card) -> Modded, rng: nat, order: seq<Uuid>,
                                               cards: map<Uuid, Card>, unknown: Uuid)
    requires forall u :: u in cards ==> cards[u].uuid == u
    ensures var baked := ModdedInOrder(pipeline, rng, order, cards, unknown);
            baked.Ok? ==>
              && baked.value.Keys == cards.Keys
              && forall u :: u in cards ==>
                   && baked.value[u].uuid == u
                   && (u == unknown || u !in order ==> baked.value[u] == cards[u])
                   && (u != unknown && u in order ==> baked.value[u].cacheable)
    decreases order
  {
    if order != [] {
      if order[0] == unknown || order[0] !in cards {
        BakeKeepsIdentities(pipeline, rng, order[1..], cards, unknown);
      } else {
        var modded := pipeline(rng, cards[order[0]]);
        if modded.Modded? && modded.card.uuid == order[0] {
          BakeKeepsIdentities(pipeline, modded.rng, order[1..], cards[order[0] := Cached(modded.card)], unknown);
        }
      }
    }
  }

  class ModdedCardBinder {
    var cards: map<Uuid, Card>
    var cleanVersion: string

    constructor ()
      ensures cards == map[] && cleanVersion == ""
    {
      cards := map[];
      cleanVersion := "";
    }

    /** Overwrite a stored card's content; the identity never moves. */
    method Replace(uuid: Uuid, card: Card) returns (refusal: Refusal)
      modifies this`cards
      ensures refusal == if card.uuid != uuid then WrongUuid else if uuid !in old(cards) then NotStored else Replaced
      ensures cards == if refusal.Replaced? then old(cards)[uuid := card] else old(cards)
    {
      if card.uuid != uuid {
        return WrongUuid;
      }
      if uuid !in cards {
        return NotStored;
      }
      cards := cards[uuid := card];
      refusal := Replaced;
    }

    /** The clean cards modded in uuid order, answering the version the clean cards had. */
    method BakeFromCleanFile(clean: map<Uuid, Card>, unknown: Uuid, pipeline: (nat, Card) -> Modded, seed: nat,
                             versionOf: map<Uuid, Card> -> string) returns (error: Result<()>)
      modifies this
      ensures var baked := ModdedInOrder(pipeline, seed, Ascending(clean.Keys), clean, unknown);
              && (error.Ok? <==> baked.Ok?) && (error.Ok? ==> cards == baked.value)
              && (error.Err? ==> error.error == baked.error)
      ensures cleanVersion == versionOf(clean)
    {
      cards := clean;
      cleanVersion := versionOf(cards);
      ghost var goal := ModdedInOrder(pipeline, seed, Ascending(clean.Keys), clean, unknown);
      var left, rng := clean.Keys, seed;
      while left != {}
        invariant left <= cards.Keys && cleanVersion == versionOf(clean)
        invariant ModdedInOrder(pipeline, rng, Ascending(left), cards, unknown) == goal
        decreases |left|
      {
        SmallestExists(left);
        assert IsSmallest(left, Smallest(left));
        var uuid :| uuid in left && forall u :: u in left ==> uuid <= u;
        assert uuid == Smallest(left) && Ascending(left)[0] == uuid;
        assert Ascending(left)[1..] == Ascending(left - {uuid});
        left := left - {uuid};
        if uuid != unknown {
          var modded := pipeline(rng, cards[uuid]);
          if modded.ModRaised? {
            return Err(ModFailed);
          }
          if modded.NotACard? {
            return Err(NotOneCard);
          }
          var refusal := Replace(uuid, Cached(modded.card));
          if refusal != Replaced {
            return Err(UuidChanged);
          }
          rng := modded.rng;
        }
      }
      error := Ok(());
    }
  }

  // ----- each card is the pipeline's own

  /** What visiting the i-th card of `order` in state `before` does: the sentinel keeps card and state, any other
      card becomes the pipeline's, cacheable, and hands on the state its mods left. */
  ghost predicate IsVisit(pipeline: (nat, Card) -> Modded, order: seq<Uuid>, cards: map<Uuid, Card>, unknown: Uuid,
                          baked: map<Uuid, Card>, before: nat, after: nat, i: nat)
    requires i < |order|
  {
    && order[i] in cards && order[i] in baked
    && if order[i] == unknown then after == before && baked[order[i]] == cards[order[i]]
       else
         && pipeline(before, cards[order[i]]).Modded?
         && pipeline(before, cards[order[i]]).card.uuid == order[i]
         && pipeline(before, cards[order[i]]).rng == after
         && baked[order[i]] == pipeline(before, cards[order[i]]).card.(cacheable := true)
  }

  /** A bake is one chain of random states from the seed, each card made in the state its predecessor left. */
  lemma {:induction false} EachCardFromItsPredecessorsState(pipeline: (nat, Card) -> Modded, seed: nat,
                                                            order: seq<Uuid>, cards: map<Uuid, Card>, unknown: Uuid)
    returns (states: seq<nat>)
    requires forall i, j :: 0 <= i < j < |order| ==> order[i] != order[j]
    requires forall i :: 0 <= i < |order| ==> order[i] in cards
    requires ModdedInOrder(pipeline, seed, order, cards, unknown).Ok?
    ensures |states| == |order| + 1 && states[0] == seed
    ensures forall i :: 0 <= i < |order| ==>
              IsVisit(pipeline, order, cards, unknown, ModdedInOrder(pipeline, seed, order, cards, unknown).value,
                      states[i], states[i + 1], i)
    decreases order
  {
    if order == [] {
      states := [seed];
    } else {
      var uuid, rest := order[0], order[1..];
      var baked := ModdedInOrder(pipeline, seed, order, cards, unknown).value;
      var next, more := seed, cards;
      if uuid != unknown {
        next, more := pipeline(seed, cards[uuid]).rng, cards[uuid := Cached(pipeline(seed, cards[uuid]).card)];
      }
      var later := EachCardFromItsPredecessorsState(pipeline, next, rest, more, unknown);
      states := [seed] + later;
      UnvisitedStays(pipeline, next, rest, more, unknown, uuid);
      forall i | 0 <= i < |order|
        ensures IsVisit(pipeline, order, cards, unknown, baked, states[i], states[i + 1], i)
      {
        if i > 0 {
          assert IsVisit(pipeline, rest, more, unknown, baked, later[i - 1], later[i], i - 1);
          assert more[order[i]] == cards[order[i]];
        }
      }
    }
  }

  lemma {:induction false} UnvisitedStays(pipeline: (nat, Card) -> Modded, rng: nat, order: seq<Uuid>,
                                          cards: map<Uuid, Card>, unknown: Uuid, uuid: Uuid)
    requires uuid in cards && uuid !in order && ModdedInOrder(pipeline, rng, order, cards, unknown).Ok?
    ensures var baked := ModdedInOrder(pipeline, rng, order, cards, unknown).value;
            uuid in baked && baked[uuid] == cards[uuid]
    decreases order
  {
    if order != [] {
      if order[0] == unknown || order[0] !in cards {
        UnvisitedStays(pipeline, rng, order[1..], cards, unknown, uuid);
      } else {
        var modded := pipeline(rng, cards[order[0]]);
        UnvisitedStays(pipeline, modded.rng, order[1..], cards[order[0] := Cached(modded.card)], unknown, uuid);
      }
    }
  }

  /** A bake of one more card fails as that card does, unless the cards before it already failed. */
  lemma {:induction false} BakeFailsAtTheFirstBadCard(pipeline: (nat, Card) -> Modded, seed: nat, order: seq<Uuid>,
                                                      cards: map<Uuid, Card>, unknown: Uuid)
    returns (k: nat, state: nat)
    requires forall i, j :: 0 <= i < j < |order| ==> order[i] != order[j]
    requires forall i :: 0 <= i < |order| ==> order[i] in cards
    requires ModdedInOrder(pipeline, seed, order, cards, unknown).Err?
    ensures k < |order| && order[k] != unknown && ModdedInOrder(pipeline, seed, order[..k], cards, unknown).Ok?
    ensures var answer := pipeline(state, cards[order[k]]);
            ModdedInOrder(pipeline, seed, order, cards, unknown).error ==
            match answer
            case NotACard => NotOneCard
            case ModRaised => ModFailed
            case Modded(card, _) => UuidChanged
    ensures pipeline(state, cards[order[k]]).Modded? ==> pipeline(state, cards[order[k]]).card.uuid != order[k]
    decreases order
  {
    var uuid, rest := order[0], order[1..];
    if uuid == unknown {
      k, state := BakeFailsAtTheFirstBadCard(pipeline, seed, rest, cards, unknown);
      k := k + 1;
      assert order[..k][1..] == rest[..k - 1];
    } else {
      var answer := pipeline(seed, cards[uuid]);
      if answer.Modded? && answer.card.uuid == uuid {
        var more := cards[uuid := Cached(answer.card)];
        k, state := BakeFailsAtTheFirstBadCard(pipeline, answer.rng, rest, more, unknown);
        assert more[rest[k]] == cards[order[k + 1]];
        k := k + 1;
        assert order[..k][1..] == rest[..k - 1];
      } else {
        k, state := 0, seed;
        assert order[..0] == [];
      }
    }
  }
}
