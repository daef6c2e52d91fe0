/** Each confident row's neighbours: ranking blocks of rows by cosine, and the rule's cut of every ranked row. */
module Neighbours {
  /** A similarity: a row's own one is minus infinity, as is padding. */
  datatype Cosine = Finite(value: real) | NegativeInfinity

  predicate AtLeast(a: Cosine, b: Cosine) {
    b.NegativeInfinity? || (a.Finite? && a.value >= b.value)
  }

  datatype Rule = TopK(k: nat) | Threshold(minCosine: real, maxNeighbours: nat)

  predicate ValidRule(rule: Rule) {
    match rule
    case TopK(k) => k > 0
    case Threshold(minCosine, maxNeighbours) => -1.0 <= minCosine <= 1.0 && maxNeighbours > 0
  }

  function CandidateLimit(rule: Rule): nat {
    match rule
    case TopK(k) => k
    case Threshold(_, maxNeighbours) => maxNeighbours
  }

  /** A cosine the rule would keep if it had room. */
  predicate Wants(rule: Rule, c: Cosine) {
    match rule
    case TopK(_) => c.Finite?
    case Threshold(minCosine, _) => c.Finite? && c.value >= minCosine
  }

  function CountWanted(rule: Rule, cosines: seq<Cosine>): (count: nat)
    ensures count <= |cosines|
  {
    if cosines == [] then 0 else (if Wants(rule, cosines[0]) then 1 else 0) + CountWanted(rule, cosines[1..])
  }

  function Min(a: nat, b: nat): nat {
    if a <= b then a else b
  }

  /** kept_count: at most the limit, of the cosines that are finite or reach the threshold. */
  function KeptCount(rule: Rule, ranked: seq<Cosine>): (kept: nat)
    ensures kept <= |ranked|
  {
    Min(CandidateLimit(rule), CountWanted(rule, ranked))
  }

  ghost predicate IsDescending(cosines: seq<Cosine>) {
    forall a, b :: 0 <= a < b < |cosines| ==> AtLeast(cosines[a], cosines[b])
  }

  /** In a descending row the wanted cosines are a prefix, so a count is a cut. */
  lemma {:induction false} WantedIsPrefix(rule: Rule, cosines: seq<Cosine>, k: nat)
    requires IsDescending(cosines) && k < |cosines|
    ensures Wants(rule, cosines[k]) <==> k < CountWanted(rule, cosines)
  {
    if k == 0 {
      if !Wants(rule, cosines[0]) && |cosines| > 1 {
        WantedIsPrefix(rule, cosines[1..], 0);
        assert AtLeast(cosines[0], cosines[1]);
      }
    } else {
      WantedIsPrefix(rule, cosines[1..], k - 1);
      assert AtLeast(cosines[0], cosines[k]);
    }
  }

  // ----- the table and what a row's neighbours should be

  datatype Table = Table(confident: seq<bool>, cosine: (int, int) -> real)

  predicate IsConfident(table: Table, row: int) {
    0 <= row < |table.confident| && table.confident[row]
  }

  function Similarity(table: Table, row: int, other: int): Cosine {
    if row == other then NegativeInfinity else Finite(table.cosine(row, other))
  }

  ghost predicate IsDistinct(rows: seq<int>) {
    forall a, b :: 0 <= a < b < |rows| ==> rows[a] != rows[b]
  }

  /** The cosines of `rows` to `row`, which are descending. */
  ghost predicate AreRanked(table: Table, row: int, rows: seq<int>, cosines: seq<Cosine>) {
    && |rows| == |cosines| && IsDistinct(rows) && IsDescending(cosines)
    && forall k :: 0 <= k < |rows| ==>
         IsConfident(table, rows[k]) && cosines[k] == Similarity(table, row, rows[k])
  }

  /** No confident row left out beats one of `rows`. */
  ghost predicate NoneBetterOmitted(table: Table, row: int, rows: seq<int>, cosines: seq<Cosine>)
    requires |rows| == |cosines|
  {
    forall other, k :: IsConfident(table, other) && other !in rows && 0 <= k < |rows| ==>
      AtLeast(cosines[k], Similarity(table, row, other))
  }

  /** Every wanted candidate is kept, unless the rule's limit is reached by candidates at least as similar. */
  ghost predicate AreNeighbours(table: Table, rule: Rule, row: int, rows: seq<int>, cosines: seq<Cosine>) {
    && AreRanked(table, row, rows, cosines) && |rows| <= CandidateLimit(rule)
    && (forall k :: 0 <= k < |rows| ==> Wants(rule, cosines[k]))
    && NoneBetterOmitted(table, row, rows, cosines)
    && forall other :: IsConfident(table, other) && other !in rows && Wants(rule, Similarity(table, row, other)) ==>
         |rows| == CandidateLimit(rule)
  }

  // ----- how many neighbours a row has, and that its cosines are determined

  function Elements(rows: seq<int>): set<int> {
    set r | r in rows
  }

  lemma {:induction false} DistinctHaveTheirLength(rows: seq<int>)
    requires IsDistinct(rows)
    ensures |Elements(rows)| == |rows|
  {
    if rows != [] {
      var last := |rows| - 1;
      DistinctHaveTheirLength(rows[..last]);
      assert rows == rows[..last] + [rows[last]];
      assert Elements(rows) == Elements(rows[..last]) + {rows[last]};
    }
  }

  lemma SubsetIsSmaller(a: set<int>, b: set<int>)
    requires a <= b
    ensures |a| <= |b|
  {
    assert b == a + (b - a);
  }

  function Wanted(table: Table, rule: Rule, row: int): set<int> {
    set other | 0 <= other < |table.confident| && IsConfident(table, other)
                && Wants(rule, Similarity(table, row, other))
  }

  /** A row keeps as many neighbours as it has wanted candidates, up to the limit. */
  lemma NeighbourCount(table: Table, rule: Rule, row: int, rows: seq<int>, cosines: seq<Cosine>)
    requires AreNeighbours(table, rule, row, rows, cosines)
    ensures |rows| == Min(CandidateLimit(rule), |Wanted(table, rule, row)|)
  {
    DistinctHaveTheirLength(rows);
    assert Elements(rows) <= Wanted(table, rule, row);
    SubsetIsSmaller(Elements(rows), Wanted(table, rule, row));
    if |rows| < CandidateLimit(rule) {
      assert Wanted(table, rule, row) == Elements(rows);
    }
  }

  /** A confident row that beats a row's k-th neighbour is among the first k. */
  lemma BetterIsAhead(table: Table, rule: Rule, row: int, rows: seq<int>, cosines: seq<Cosine>, k: nat, better: int)
    requires AreNeighbours(table, rule, row, rows, cosines) && k < |rows|
    requires IsConfident(table, better) && !AtLeast(cosines[k], Similarity(table, row, better))
    ensures better in rows[..k]
  {
    var j :| 0 <= j < |rows| && rows[j] == better;
    assert rows[..k + 1] == rows[..k] + [rows[k]];
    if j < k {
      assert rows[..k][j] == better;
    }
  }

  /** If a's k-th cosine beat b's, b's first k rows would have to hold a's first k + 1. */
  lemma NoLaterCosineIsHigher(table: Table, rule: Rule, row: int, a: seq<int>, aCosines: seq<Cosine>,
                              b: seq<int>, bCosines: seq<Cosine>, k: nat)
    requires AreNeighbours(table, rule, row, a, aCosines) && AreNeighbours(table, rule, row, b, bCosines)
    requires k < |a| && k < |b|
    ensures AtLeast(bCosines[k], aCosines[k])
  {
    var ahead, behind := a[..k + 1], b[..k];
    DistinctHaveTheirLength(ahead);
    DistinctHaveTheirLength(behind);
    assert forall i :: 0 <= i < k ==> AtLeast(aCosines[i], aCosines[k]);
    if !AtLeast(bCosines[k], aCosines[k]) {
      forall r | r in ahead ensures r in behind {
        var i :| 0 <= i <= k && ahead[i] == r;
        BetterIsAhead(table, rule, row, b, bCosines, k, r);
      }
      SubsetIsSmaller(Elements(ahead), Elements(behind));
      assert false;
    }
  }

  /** However ties are broken, a row's neighbour cosines are the same. */
  lemma CosinesAreDetermined(table: Table, rule: Rule, row: int, a: seq<int>, aCosines: seq<Cosine>,
                             b: seq<int>, bCosines: seq<Cosine>)
    requires AreNeighbours(table, rule, row, a, aCosines) && AreNeighbours(table, rule, row, b, bCosines)
    ensures aCosines == bCosines
  {
    NeighbourCount(table, rule, row, a, aCosines);
    NeighbourCount(table, rule, row, b, bCosines);
    forall k | 0 <= k < |a| ensures aCosines[k] == bCosines[k] {
      NoLaterCosineIsHigher(table, rule, row, a, aCosines, b, bCosines, k);
      NoLaterCosineIsHigher(table, rule, row, b, bCosines, a, aCosines, k);
    }
  }

  /** Without ties among the candidates, so are the neighbours themselves. */
  lemma NeighboursAreDeterminedWithoutTies(table: Table, rule: Rule, row: int, a: seq<int>, aCosines: seq<Cosine>,
                                           b: seq<int>, bCosines: seq<Cosine>)
    requires AreNeighbours(table, rule, row, a, aCosines) && AreNeighbours(table, rule, row, b, bCosines)
    requires forall i, j :: IsConfident(table, i) && IsConfident(table, j) && i != j ==>
               Similarity(table, row, i) != Similarity(table, row, j)
    ensures a == b
  {
    CosinesAreDetermined(table, rule, row, a, aCosines, b, bCosines);
    assert forall k :: 0 <= k < |a| ==> Similarity(table, row, a[k]) == Similarity(table, row, b[k]);
  }

  // ----- ranking one row

  /** A ranking of the top candidates, padded to the rule's limit. */
  ghost predicate IsPaddedRanking(table: Table, row: int, candidates: nat, rows: seq<int>, cosines: seq<Cosine>) {
    && |rows| == |cosines| && candidates <= |rows| && IsDescending(cosines)
    && AreRanked(table, row, rows[..candidates], cosines[..candidates])
    && NoneBetterOmitted(table, row, rows[..candidates], cosines[..candidates])
    && forall k :: candidates <= k < |rows| ==> rows[k] == -1 && cosines[k] == NegativeInfinity
  }

  /** The rule's cut of a padded ranking: never padding, never the row itself, nothing better left out. */
  lemma CutIsTheNeighbours(table: Table, rule: Rule, row: int, candidates: nat, rows: seq<int>, cosines: seq<Cosine>)
    requires IsPaddedRanking(table, row, candidates, rows, cosines) && |rows| == CandidateLimit(rule)
    requires candidates < |rows| ==> forall other :: IsConfident(table, other) ==> other in rows[..candidates]
    ensures var kept := KeptCount(rule, cosines);
            kept <= candidates && AreNeighbours(table, rule, row, rows[..kept], cosines[..kept])
  {
    var kept := KeptCount(rule, cosines);
    forall k | 0 <= k < |cosines| ensures Wants(rule, cosines[k]) <==> k < kept {
      WantedIsPrefix(rule, cosines, k);
    }
    assert candidates < |cosines| ==> !Wants(rule, cosines[candidates]);
    var top, cut := rows[..candidates], rows[..kept];
    assert cut == top[..kept] && forall k :: 0 <= k < kept ==> rows[k] == cut[k];
    forall other | IsConfident(table, other) && other !in cut
      ensures forall k :: 0 <= k < kept ==> AtLeast(cosines[k], Similarity(table, row, other))
      ensures Wants(rule, Similarity(table, row, other)) ==> kept == |rows|
    {
      if other in top {
        var k :| 0 <= k < candidates && top[k] == other;
        assert rows[k] == other && cosines[..candidates][k] == Similarity(table, row, other);
      } else if kept < |rows| {
        OmittedIsUnwanted(table, rule, row, candidates, rows, cosines, kept, other);
      }
    }
  }

  lemma OmittedIsUnwanted(table: Table, rule: Rule, row: int, candidates: nat, rows: seq<int>, cosines: seq<Cosine>,
                          kept: nat, other: int)
    requires IsPaddedRanking(table, row, candidates, rows, cosines) && kept <= candidates == |rows|
    requires kept < |rows| && !Wants(rule, cosines[kept])
    requires IsConfident(table, other) && other !in rows[..candidates]
    ensures !Wants(rule, Similarity(table, row, other))
  {
    assert AtLeast(cosines[..candidates][kept], Similarity(table, row, other));
  }
}
