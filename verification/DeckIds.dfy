/** The canonical text a deck's content-addressed id hashes: its cards' uuids, sorted and joined by commas. */
module DeckIds {

  /** A UUID's 32 hexadecimal digits. */
  type Uuid = u: seq<nat> | |u| == 32 && forall i :: 0 <= i < 32 ==> u[i] < 16 witness seq(32, _ => 0)

  const HEX := "0123456789abcdef"

  /** Where the canonical form's four dashes fall. */
  predicate IsDash(i: nat) {
    i == 8 || i == 13 || i == 18 || i == 23
  }

  /** The digit shown at place i of the canonical form. */
  function DigitAt(i: nat): nat
    requires i < 36 && !IsDash(i)
    ensures DigitAt(i) < 32
  {
    if i < 8 then i else if i < 13 then i - 1 else if i < 18 then i - 2 else if i < 23 then i - 3 else i - 4
  }

  /** str(uuid). */
  function Text(u: Uuid): (text: string)
    ensures |text| == 36
  {
    seq(36, i requires 0 <= i < 36 => if IsDash(i) then '-' else HEX[u[DigitAt(i)]])
  }

  lemma HexIsInjective(a: nat, b: nat)
    requires a < 16 && b < 16 && HEX[a] == HEX[b]
    ensures a == b
  {
  }

  /** The place of digit d. */
  function PlaceOf(d: nat): (i: nat)
    requires d < 32
    ensures i < 36 && !IsDash(i) && DigitAt(i) == d
  {
    if d < 8 then d else if d < 12 then d + 1 else if d < 16 then d + 2 else if d < 20 then d + 3 else d + 4
  }

  lemma TextIsInjective(a: Uuid, b: Uuid)
    requires Text(a) == Text(b)
    ensures a == b
  {
    forall d | 0 <= d < 32 ensures a[d] == b[d] {
      assert Text(a)[PlaceOf(d)] == Text(b)[PlaceOf(d)];
      HexIsInjective(a[d], b[d]);
    }
  }

  lemma TextHasNoComma(u: Uuid)
    ensures ',' !in Text(u)
  {
  }

  // ----- the order texts are sorted by

  predicate LessEq(a: string, b: string) {
    a == [] || (b != [] && (a[0] < b[0] || (a[0] == b[0] && LessEq(a[1..], b[1..]))))
  }

  lemma {:induction false} LessEqIsTotal(a: string, b: string)
    ensures LessEq(a, b) || LessEq(b, a)
    decreases |a|
  {
    if a != [] && b != [] && a[0] == b[0] {
      LessEqIsTotal(a[1..], b[1..]);
    }
  }

  lemma {:induction false} LessEqIsAntisymmetric(a: string, b: string)
    requires LessEq(a, b) && LessEq(b, a)
    ensures a == b
    decreases |a|
  {
    if a != [] {
      LessEqIsAntisymmetric(a[1..], b[1..]);
      assert a == [a[0]] + a[1..] && b == [b[0]] + b[1..];
    }
  }

  lemma {:induction false} LessEqIsTransitive(a: string, b: string, c: string)
    requires LessEq(a, b) && LessEq(b, c)
    ensures LessEq(a, c)
    decreases |a|
  {
    if a != [] && a[0] == b[0] == c[0] {
      LessEqIsTransitive(a[1..], b[1..], c[1..]);
    }
  }

  // ----- sorting

  function Insert(x: string, sorted: seq<string>): seq<string> {
    if sorted == [] || LessEq(x, sorted[0]) then [x] + sorted else [sorted[0]] + Insert(x, sorted[1..])
  }

  function Sorted(texts: seq<string>): seq<string> {
    if texts == [] then [] else Insert(texts[0], Sorted(texts[1..]))
  }

  ghost predicate IsSorted(texts: seq<string>) {
    forall i, j :: 0 <= i < j < |texts| ==> LessEq(texts[i], texts[j])
  }

  lemma {:induction false} InsertSorts(x: string, sorted: seq<string>)
    requires IsSorted(sorted)
    ensures IsSorted(Insert(x, sorted)) && multiset(Insert(x, sorted)) == multiset{x} + multiset(sorted)
  {
    if sorted == [] {
    } else if LessEq(x, sorted[0]) {
      forall j | 0 <= j < |sorted| ensures LessEq(x, sorted[j]) {
        if j > 0 {
          LessEqIsTransitive(x, sorted[0], sorted[j]);
        }
      }
    } else {
      InsertSorts(x, sorted[1..]);
      LessEqIsTotal(x, sorted[0]);
      assert sorted == [sorted[0]] + sorted[1..];
      var rest := Insert(x, sorted[1..]);
      forall j | 0 <= j < |rest| ensures LessEq(sorted[0], rest[j]) {
        assert rest[j] in multiset(rest);
        assert rest[j] == x || rest[j] in sorted[1..];
      }
    }
  }

  lemma {:induction false} SortedSorts(texts: seq<string>)
    ensures IsSorted(Sorted(texts)) && multiset(Sorted(texts)) == multiset(texts)
  {
    if texts != [] {
      SortedSorts(texts[1..]);
      InsertSorts(texts[0], Sorted(texts[1..]));
      assert texts == [texts[0]] + texts[1..];
    }
  }

  /** A multiset has one sorted arrangement. */
  lemma {:induction false} SortedIsUnique(a: seq<string>, b: seq<string>)
    requires IsSorted(a) && IsSorted(b) && multiset(a) == multiset(b)
    ensures a == b
    decreases |a|
  {
    SameSize(a, b);
    if a != [] {
      hide LessEq;
      FirstsAgree(a, b);
      WithoutFirst(a);
      WithoutFirst(b);
      SortedIsUnique(a[1..], b[1..]);
      assert a == [a[0]] + a[1..] && b == [b[0]] + b[1..];
    }
  }

  lemma FirstsAgree(a: seq<string>, b: seq<string>)
    requires IsSorted(a) && IsSorted(b) && multiset(a) == multiset(b) && a != [] && b != []
    ensures a[0] == b[0]
  {
    hide LessEq;
    assert a[0] in multiset(b) && b[0] in multiset(a);
    FirstIsLeast(a, b[0]);
    FirstIsLeast(b, a[0]);
    LessEqIsAntisymmetric(a[0], b[0]);
  }

  lemma WithoutFirst(texts: seq<string>)
    requires texts != []
    ensures multiset(texts[1..]) == multiset(texts) - multiset{texts[0]}
  {
    assert texts == [texts[0]] + texts[1..];
  }

  lemma SameSize(a: seq<string>, b: seq<string>)
    requires multiset(a) == multiset(b)
    ensures |a| == |b|
  {
    assert |multiset(a)| == |a| && |multiset(b)| == |b|;
  }

  lemma FirstIsLeast(sorted: seq<string>, x: string)
    requires IsSorted(sorted) && x in sorted
    ensures LessEq(sorted[0], x)
  {
    var i :| 0 <= i < |sorted| && sorted[i] == x;
    LessEqIsTotal(x, x);
  }

  // ----- joining

  /** ",".join(texts). */
  function Join(texts: seq<string>): string {
    if texts == [] then "" else if |texts| == 1 then texts[0] else texts[0] + "," + Join(texts[1..])
  }

  /** One text alone, or the first, a comma and the rest. */
  lemma JoinPutsCommasBetween(first: string, rest: seq<string>)
    ensures Join([]) == "" && Join([first]) == first
    ensures rest != [] ==> Join([first] + rest) == first + "," + Join(rest)
  {
    assert ([first] + rest)[1..] == rest;
  }

  ghost predicate AreUuidTexts(texts: seq<string>) {
    forall i :: 0 <= i < |texts| ==> |texts[i]| == 36 && ',' !in texts[i]
  }

  /** Joined texts of one length come apart again. */
  lemma {:induction false} JoinIsInjective(a: seq<string>, b: seq<string>)
    requires AreUuidTexts(a) && AreUuidTexts(b) && Join(a) == Join(b)
    ensures a == b
    decreases |a|
  {
    if a != [] && b != [] {
      assert Join(a)[..36] == a[0] && Join(b)[..36] == b[0];
      if |a| > 1 {
        assert Join(a)[36..] == "," + Join(a[1..]);
      }
      if |b| > 1 {
        assert Join(b)[36..] == "," + Join(b[1..]);
      }
      if |a| > 1 && |b| > 1 {
        assert Join(a[1..]) == Join(a)[36..][1..] == Join(b)[36..][1..] == Join(b[1..]);
        JoinIsInjective(a[1..], b[1..]);
      }
      assert a == [a[0]] + a[1..] && b == [b[0]] + b[1..];
    }
  }

  // ----- the deck's hash input

  function Texts(cards: seq<Uuid>): (texts: seq<string>)
    ensures |texts| == |cards|
  {
    seq(|cards|, i requires 0 <= i < |cards| => Text(cards[i]))
  }

  /** What deck_uuid_from_cards hashes. */
  function HashInput(cards: seq<Uuid>): string {
    Join(Sorted(Texts(cards)))
  }

  lemma SortedTextsAreTexts(cards: seq<Uuid>)
    ensures AreUuidTexts(Sorted(Texts(cards)))
  {
    var texts, sorted := Texts(cards), Sorted(Texts(cards));
    SortedSorts(texts);
    forall i | 0 <= i < |sorted| ensures |sorted[i]| == 36 && ',' !in sorted[i] {
      assert sorted[i] in multiset(texts);
      var j :| 0 <= j < |texts| && texts[j] == sorted[i];
      TextHasNoComma(cards[j]);
    }
  }

  /** Counting a card is counting its text. */
  lemma {:induction false} TextsCount(cards: seq<Uuid>, card: Uuid)
    ensures multiset(Texts(cards))[Text(card)] == multiset(cards)[card]
  {
    if cards != [] {
      TextsCount(cards[1..], card);
      assert cards == [cards[0]] + cards[1..];
      assert Texts(cards) == [Text(cards[0])] + Texts(cards[1..]);
      if Text(cards[0]) == Text(card) {
        TextIsInjective(cards[0], card);
      }
    }
  }

  lemma SameTextsSameCards(a: seq<Uuid>, b: seq<Uuid>)
    ensures multiset(Texts(a)) == multiset(Texts(b)) <==> multiset(a) == multiset(b)
  {
    if multiset(Texts(a)) == multiset(Texts(b)) {
      forall card: Uuid ensures multiset(a)[card] == multiset(b)[card] {
        TextsCount(a, card);
        TextsCount(b, card);
      }
      assert multiset(a) == multiset(b);
    }
    if multiset(a) == multiset(b) {
      forall text: string ensures multiset(Texts(a))[text] == multiset(Texts(b))[text] {
        TextCountsAgree(a, b, text);
      }
      assert multiset(Texts(a)) == multiset(Texts(b));
    }
  }

  lemma TextCountsAgree(a: seq<Uuid>, b: seq<Uuid>, text: string)
    requires multiset(a) == multiset(b)
    ensures multiset(Texts(a))[text] == multiset(Texts(b))[text]
  {
    if text in Texts(a) {
      var i :| 0 <= i < |a| && Texts(a)[i] == text;
      TextsCount(a, a[i]);
      TextsCount(b, a[i]);
    } else if text in Texts(b) {
      var i :| 0 <= i < |b| && Texts(b)[i] == text;
      TextsCount(a, b[i]);
      TextsCount(b, b[i]);
    }
  }

  /** Two decks hash the same text exactly when they hold the same cards the same number of times. */
  lemma SameHashInputExactlyWhenSameCards(a: seq<Uuid>, b: seq<Uuid>)
    ensures HashInput(a) == HashInput(b) <==> multiset(a) == multiset(b)
  {
    SortedSorts(Texts(a));
    SortedSorts(Texts(b));
    SameTextsSameCards(a, b);
    if HashInput(a) == HashInput(b) {
      SortedTextsAreTexts(a);
      SortedTextsAreTexts(b);
      JoinIsInjective(Sorted(Texts(a)), Sorted(Texts(b)));
    }
    if multiset(a) == multiset(b) {
      SortedIsUnique(Sorted(Texts(a)), Sorted(Texts(b)));
    }
  }

  // ----- the texts, character by character

  /** The digit d of a uuid as str shows it. */
  lemma TextIsCanonical(u: Uuid, d: nat)
    requires d < 32
    ensures |Text(u)| == 36
    ensures Text(u)[8] == Text(u)[13] == Text(u)[18] == Text(u)[23] == '-'
    ensures var place := if d < 8 then d else if d < 12 then d + 1 else if d < 16 then d + 2
                         else if d < 20 then d + 3 else d + 4;
            Text(u)[place] == if u[d] < 10 then ('0' as int + u[d]) as char else ('a' as int + u[d] - 10) as char
  {
    assert PlaceOf(d) < 36;
  }

  /** A text sorts before another exactly as strings do: as its beginning, or by the first character they differ in. */
  lemma {:induction false} OrderIsLexicographic(a: string, b: string)
    ensures LessEq(a, b) <==>
            || (|a| <= |b| && a == b[..|a|])
            || exists k :: 0 <= k < |a| && k < |b| && a[..k] == b[..k] && a[k] < b[k]
  {
    if a == [] {
      assert b[..0] == [];
    } else if b != [] {
      OrderIsLexicographic(a[1..], b[1..]);
      if a[0] == b[0] {
        SameFirstCharacter(a, b);
      } else {
        OtherFirstCharacter(a, b);
      }
    }
  }

  lemma OtherFirstCharacter(a: string, b: string)
    requires a != [] && b != [] && a[0] != b[0]
    ensures !(|a| <= |b| && a == b[..|a|])
    ensures (exists k :: 0 <= k < |a| && k < |b| && a[..k] == b[..k] && a[k] < b[k]) <==> a[0] < b[0]
  {
    forall k: nat | k <= |a| && k <= |b| ensures a[..k] == b[..k] ==> k == 0 {
      if k > 0 {
        assert a[..k][0] == a[0] && b[..k][0] == b[0];
      }
    }
    assert a[..|a|] == a && a[..0] == b[..0];
  }

  lemma SameFirstCharacter(a: string, b: string)
    requires a != [] && b != [] && a[0] == b[0]
    ensures (|a| <= |b| && a == b[..|a|]) <==> (|a[1..]| <= |b[1..]| && a[1..] == b[1..][..|a[1..]|])
    ensures (exists k :: 0 <= k < |a| && k < |b| && a[..k] == b[..k] && a[k] < b[k]) <==>
            exists k :: 0 <= k < |a[1..]| && k < |b[1..]| && a[1..][..k] == b[1..][..k] && a[1..][k] < b[1..][k]
  {
    var x, y := a[1..], b[1..];
    assert a == [a[0]] + x && b == [b[0]] + y;
    if |a| <= |b| {
      assert b[..|a|] == [b[0]] + y[..|x|];
    }
    if k: nat :| k < |a| && k < |b| && a[..k] == b[..k] && a[k] < b[k] {
      assert a[..k] == [a[0]] + x[..k - 1] && b[..k] == [b[0]] + y[..k - 1];
      assert x[..k - 1] == a[..k][1..] == b[..k][1..] == y[..k - 1];
      assert x[k - 1] < y[k - 1];
    }
    if k: nat :| k < |x| && k < |y| && x[..k] == y[..k] && x[k] < y[k] {
      assert a[..k + 1] == [a[0]] + x[..k] && b[..k + 1] == [b[0]] + y[..k];
      assert a[k + 1] < b[k + 1];
    }
  }
}
