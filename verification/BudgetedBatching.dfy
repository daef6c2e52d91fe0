/** Greedy contiguous packing of examples under a padded-cost budget. */
module BudgetedBatching {
  import opened Sequences

  /** A ceiling on one batch's padded cost and the cost of one card. */
  datatype BatchBudget<!Card> = BatchBudget(maxCost: int, costOf: Card -> int)

  /** One example: its cards in order, and the label it is trained towards. */
  datatype Datum<Card, Label> = Datum(cards: seq<Card>, target: Label)

  /** What iterating the generator yields: every group, or the groups yielded before it raised at `index`. */
  datatype Grouping<T> = Grouped(groups: seq<seq<T>>) | TooCostly(groups: seq<seq<T>>, index: nat)

  function CardCosts<Card>(cards: seq<Card>, budget: BatchBudget<Card>): seq<int> {
    seq(|cards|, i requires 0 <= i < |cards| => budget.costOf(cards[i]))
  }

  function ExampleCost<Card, Label>(datum: Datum<Card, Label>, budget: BatchBudget<Card>): int {
    Sum(CardCosts(datum.cards, budget))
  }

  function ExampleCosts<Card, Label>(data: seq<Datum<Card, Label>>, budget: BatchBudget<Card>): seq<int> {
    seq(|data|, i requires 0 <= i < |data| => ExampleCost(data[i], budget))
  }

  /** An example costs what its cards cost: together what its parts cost, alone what the one card costs, without
      cards nothing. */
  lemma CostIsAdditive<Card, Label>(a: seq<Card>, b: seq<Card>, card: Card, target: Label, budget: BatchBudget<Card>)
    ensures ExampleCost(Datum(a + b, target), budget) ==
            ExampleCost(Datum(a, target), budget) + ExampleCost(Datum(b, target), budget)
    ensures ExampleCost(Datum([card], target), budget) == budget.costOf(card)
    ensures ExampleCost(Datum([], target), budget) == 0
  {
    assert CardCosts(a + b, budget) == CardCosts(a, budget) + CardCosts(b, budget);
    SumConcat(CardCosts(a, budget), CardCosts(b, budget));
    var one := Datum([card], target);
    assert CardCosts(one.cards, budget) == [budget.costOf(card)];
    assert Sum([budget.costOf(card)]) == budget.costOf(card) + Sum([]) by { assert [budget.costOf(card)][1..] == []; }
    assert ExampleCost(one, budget) == budget.costOf(card);
  }

  function Max(x: int, y: int): int {
    if x < y then y else x
  }

  /** max(costs, default=0). */
  function Largest(costs: seq<int>): int {
    if costs == [] then 0
    else if |costs| == 1 then costs[0]
    else Max(Largest(costs[..|costs| - 1]), costs[|costs| - 1])
  }

  /** Largest is a maximum: it is reached at index i, and no cost exceeds it. */
  lemma {:induction false} LargestIsMaximum(costs: seq<int>) returns (i: nat)
    requires costs != []
    ensures i < |costs| && costs[i] == Largest(costs)
    ensures forall j :: 0 <= j < |costs| ==> costs[j] <= Largest(costs)
  {
    var last := |costs| - 1;
    if last == 0 {
      i := 0;
    } else {
      i := LargestIsMaximum(costs[..last]);
      if Largest(costs[..last]) < costs[last] {
        i := last;
      }
    }
  }

  function PaddedCost(costs: seq<int>): int {
    |costs| * Largest(costs)
  }

  /** What the loop charges a group: its running maximum starts at 0. */
  function Charge(costs: seq<int>): int {
    |costs| * Max(0, Largest(costs))
  }

  ghost predicate Fits<Card, Label>(group: seq<Datum<Card, Label>>, budget: BatchBudget<Card>) {
    PaddedCost(ExampleCosts(group, budget)) <= budget.maxCost
  }

  /** A contiguous partition of data into non-empty groups, each within the budget. */
  ghost predicate IsPacking<Card, Label>(groups: seq<seq<Datum<Card, Label>>>, data: seq<Datum<Card, Label>>,
                                         budget: BatchBudget<Card>)
  {
    && Flatten(groups) == data
    && forall k :: 0 <= k < |groups| ==> groups[k] != [] && Fits(groups[k], budget)
  }

  /** Charging any group for the first example of the next one would go over the budget. */
  ghost predicate IsFull<Card, Label>(groups: seq<seq<Datum<Card, Label>>>, budget: BatchBudget<Card>) {
    forall k :: 1 <= k < |groups| && groups[k] != [] ==>
      Charge(ExampleCosts(groups[k - 1] + [groups[k][0]], budget)) > budget.maxCost
  }

  /** Every group that took a second example was charged no more than the budget. */
  ghost predicate IsCharged<Card, Label>(groups: seq<seq<Datum<Card, Label>>>, budget: BatchBudget<Card>) {
    forall k :: 0 <= k < |groups| && |groups[k]| >= 2 ==> Charge(ExampleCosts(groups[k], budget)) <= budget.maxCost
  }

  /** What the loop makes of data: each group is given the next example exactly as long as its charge allows. */
  ghost predicate IsGreedy<Card, Label>(groups: seq<seq<Datum<Card, Label>>>, data: seq<Datum<Card, Label>>,
                                        budget: BatchBudget<Card>)
  {
    IsPacking(groups, data, budget) && IsFull(groups, budget) && IsCharged(groups, budget)
  }

  /** The groups yielded so far and the group still open cover data as the loop makes of it. */
  ghost predicate IsOpenRun<Card, Label>(yielded: seq<seq<Datum<Card, Label>>>, open: seq<Datum<Card, Label>>,
                                         data: seq<Datum<Card, Label>>, budget: BatchBudget<Card>)
  {
    if data == [] then yielded == [] && open == []
    else open != [] && IsGreedy(yielded + [open], data, budget)
  }

  // ----- under a non-negative budget, a sub-interval of a fitting group fits

  lemma LargestOfPart(whole: seq<int>, from: nat, to: nat)
    requires from < to <= |whole|
    ensures Largest(whole[from..to]) <= Largest(whole)
  {
    var i := LargestIsMaximum(whole[from..to]);
    var _ := LargestIsMaximum(whole);
    assert whole[from + i] <= Largest(whole);
  }

  lemma ProductGrows(a: nat, b: nat, m: int, n: int)
    requires a <= b && m <= n && 0 <= n
    ensures a * m <= b * n
  {
    assert a * m <= a * n <= b * n;
  }

  lemma PartIsChargedWithinBudget<Card, Label>(group: seq<Datum<Card, Label>>, from: nat, to: nat,
                                               budget: BatchBudget<Card>)
    requires budget.maxCost >= 0 && from < to <= |group| && Fits(group, budget)
    ensures Charge(ExampleCosts(group[from..to], budget)) <= budget.maxCost
  {
    var whole := ExampleCosts(group, budget);
    var part := ExampleCosts(group[from..to], budget);
    assert part == whole[from..to];
    LargestOfPart(whole, from, to);
    if Largest(part) > 0 {
      ProductGrows(|part|, |whole|, Largest(part), Largest(whole));
    }
  }

  // ----- greedy stays ahead of every packing, so it uses the fewest groups

  /** Group k of a partition of data is the interval of data that starts where the first k groups end. */
  lemma GroupIsInterval<T>(groups: seq<seq<T>>, data: seq<T>, k: nat, start: nat)
    requires Flatten(groups) == data && k < |groups| && start == |Flatten(groups[..k])|
    ensures start + |groups[k]| == |Flatten(groups[..k + 1])| <= |data|
    ensures groups[k] == data[start..start + |groups[k]|]
  {
    FlattenSplit(groups, k);
  }

  lemma LongerIntervalHasRoom<Card, Label>(data: seq<Datum<Card, Label>>, group: seq<Datum<Card, Label>>,
                                           from: nat, a: nat, b: nat, budget: BatchBudget<Card>)
    requires budget.maxCost >= 0 && Fits(group, budget)
    requires from <= a < b < from + |group| <= |data| && group == data[from..from + |group|]
    ensures Charge(ExampleCosts(data[a..b + 1], budget)) <= budget.maxCost
  {
    SliceOfSlice(data, from, from + |group|, a - from, b + 1 - from);
    PartIsChargedWithinBudget(group, a - from, b + 1 - from, budget);
  }

  /** A full packing could not have given group k the example after it. */
  lemma FullGroupHasNoRoom<Card, Label>(greedy: seq<seq<Datum<Card, Label>>>, data: seq<Datum<Card, Label>>,
                                        budget: BatchBudget<Card>, k: nat, end: nat)
    requires IsPacking(greedy, data, budget) && IsFull(greedy, budget)
    requires k < |greedy| && end == |Flatten(greedy[..k + 1])|
    ensures end < |data| ==> Charge(ExampleCosts(greedy[k] + [data[end]], budget)) > budget.maxCost
  {
    if k + 1 == |greedy| {
      assert greedy[..k + 1] == greedy;
    } else {
      GroupIsInterval(greedy, data, k + 1, end);
      assert greedy[k + 1] != [] && greedy[k + 1][0] == data[end];
      assert greedy[k] == greedy[k + 1 - 1];
    }
  }

  lemma EndsNoEarlier<Card, Label>(data: seq<Datum<Card, Label>>, group: seq<Datum<Card, Label>>, a: nat,
                                   other: seq<Datum<Card, Label>>, b: nat, budget: BatchBudget<Card>)
    requires budget.maxCost >= 0 && group != [] && Fits(other, budget) && b <= a
    requires a + |group| <= |data| && group == data[a..a + |group|]
    requires b + |other| <= |data| && other == data[b..b + |other|]
    requires a + |group| < |data| ==> Charge(ExampleCosts(group + [data[a + |group|]], budget)) > budget.maxCost
    ensures b + |other| <= a + |group|
  {
    var end := a + |group|;
    if end < |data| {
      assert data[a..end + 1] == group + [data[end]];
      if end < b + |other| {
        LongerIntervalHasRoom(data, other, b, a, end, budget);
        assert false;
      }
    }
  }

  lemma {:induction false} GreedyStaysAhead<Card, Label>(greedy: seq<seq<Datum<Card, Label>>>,
                                                         other: seq<seq<Datum<Card, Label>>>,
                                                         data: seq<Datum<Card, Label>>, budget: BatchBudget<Card>,
                                                         k: nat)
    requires budget.maxCost >= 0
    requires IsPacking(greedy, data, budget) && IsFull(greedy, budget) && IsPacking(other, data, budget)
    requires k <= |greedy| && k <= |other|
    ensures |Flatten(greedy[..k])| >= |Flatten(other[..k])|
  {
    hide IsFull, Charge, ExampleCosts, PaddedCost;
    if k > 0 {
      GreedyStaysAhead(greedy, other, data, budget, k - 1);
      var a, b := |Flatten(greedy[..k - 1])|, |Flatten(other[..k - 1])|;
      GroupIsInterval(greedy, data, k - 1, a);
      GroupIsInterval(other, data, k - 1, b);
      FullGroupHasNoRoom(greedy, data, budget, k - 1, a + |greedy[k - 1]|);
      EndsNoEarlier(data, greedy[k - 1], a, other[k - 1], b, budget);
    }
  }

  /** A full packing has no more groups than any packing of the same examples. */
  lemma FullPackingIsFewest<Card, Label>(greedy: seq<seq<Datum<Card, Label>>>, other: seq<seq<Datum<Card, Label>>>,
                                         data: seq<Datum<Card, Label>>, budget: BatchBudget<Card>)
    requires budget.maxCost >= 0
    requires IsPacking(greedy, data, budget) && IsFull(greedy, budget) && IsPacking(other, data, budget)
    ensures |greedy| <= |other|
  {
    if |other| < |greedy| {
      GreedyStaysAhead(greedy, other, data, budget, |other|);
      assert other[..|other|] == other;
      FlattenSplit(greedy, |other|);
      assert false;
    }
  }

  // ----- the loop's groups are the only greedy ones

  /** A group's charge never shrinks as it grows, whatever the sign of its costs. */
  lemma FrontIsChargedNoMore<Card, Label>(group: seq<Datum<Card, Label>>, to: nat, budget: BatchBudget<Card>)
    requires 0 < to <= |group|
    ensures Charge(ExampleCosts(group[..to], budget)) <= Charge(ExampleCosts(group, budget))
  {
    var whole := ExampleCosts(group, budget);
    assert ExampleCosts(group[..to], budget) == whole[0..to];
    LargestOfPart(whole, 0, to);
    ProductGrows(to, |whole|, Max(0, Largest(whole[0..to])), Max(0, Largest(whole)));
  }

  lemma FrontOfInterval<T>(data: seq<T>, start: nat, part: seq<T>, n: nat)
    requires n < |part| && start + |part| <= |data| && part == data[start..start + |part|]
    ensures part[..n + 1] == data[start..start + n] + [data[start + n]]
  {
    assert part[..n + 1] == part[..n] + [part[n]];
    SliceOfSlice(data, start, start + |part|, 0, n);
  }

  /** Where one greedy packing starts a group, another that starts one there cannot end it later. */
  lemma NoGreedyGroupIsLonger<Card, Label>(a: seq<seq<Datum<Card, Label>>>, b: seq<seq<Datum<Card, Label>>>,
                                           data: seq<Datum<Card, Label>>, budget: BatchBudget<Card>, k: nat)
    requires IsGreedy(a, data, budget) && IsGreedy(b, data, budget)
    requires k < |a| && k < |b| && a[..k] == b[..k]
    ensures |b[k]| <= |a[k]|
  {
    hide Charge, ExampleCosts, Fits, Flatten, IsFull;
    var start, n := |Flatten(a[..k])|, |a[k]|;
    GroupIsInterval(a, data, k, start);
    GroupIsInterval(b, data, k, start);
    FullGroupHasNoRoom(a, data, budget, k, start + n);
    if n < |b[k]| {
      FrontOfInterval(data, start, b[k], n);
      FrontIsChargedNoMore(b[k], n + 1, budget);
      assert false;
    }
  }

  lemma {:induction false} GreedyAgrees<Card, Label>(a: seq<seq<Datum<Card, Label>>>, b: seq<seq<Datum<Card, Label>>>,
                                                     data: seq<Datum<Card, Label>>, budget: BatchBudget<Card>, k: nat)
    requires IsGreedy(a, data, budget) && IsGreedy(b, data, budget) && k <= |a| && k <= |b|
    ensures a[..k] == b[..k]
    decreases k
  {
    hide IsFull, IsCharged, Fits, Flatten;
    if k > 0 {
      GreedyAgrees(a, b, data, budget, k - 1);
      NoGreedyGroupIsLonger(a, b, data, budget, k - 1);
      NoGreedyGroupIsLonger(b, a, data, budget, k - 1);
      GroupIsInterval(a, data, k - 1, |Flatten(a[..k - 1])|);
      GroupIsInterval(b, data, k - 1, |Flatten(a[..k - 1])|);
      assert a[..k] == a[..k - 1] + [a[k - 1]] && b[..k] == b[..k - 1] + [b[k - 1]];
    }
  }

  lemma NoMoreGreedyGroups<Card, Label>(a: seq<seq<Datum<Card, Label>>>, b: seq<seq<Datum<Card, Label>>>,
                                        data: seq<Datum<Card, Label>>, budget: BatchBudget<Card>)
    requires IsGreedy(a, data, budget) && IsGreedy(b, data, budget)
    ensures |b| <= |a|
  {
    hide IsFull, IsCharged;
    if |a| < |b| {
      GreedyAgrees(a, b, data, budget, |a|);
      assert a[..|a|] == a;
      FlattenSplit(b, |a|);
      assert false;
    }
  }

  /** Whatever the budget, the examples have one greedy packing. */
  lemma GreedyIsUnique<Card, Label>(a: seq<seq<Datum<Card, Label>>>, b: seq<seq<Datum<Card, Label>>>,
                                    data: seq<Datum<Card, Label>>, budget: BatchBudget<Card>)
    requires IsGreedy(a, data, budget) && IsGreedy(b, data, budget)
    ensures a == b
  {
    hide IsGreedy;
    NoMoreGreedyGroups(a, b, data, budget);
    NoMoreGreedyGroups(b, a, data, budget);
    GreedyAgrees(a, b, data, budget, |a|);
    assert a[..|a|] == a && b[..|b|] == b;
  }

  // ----- the greedy packing is the fewest exactly when the budget is not negative or there is nothing to join

  lemma {:induction false} SinglesCountTheExamples<T>(groups: seq<seq<T>>)
    requires forall k :: 0 <= k < |groups| ==> |groups[k]| == 1
    ensures |Flatten(groups)| == |groups|
  {
    if groups != [] {
      SinglesCountTheExamples(groups[1..]);
    }
  }

  /** A negative budget gives every example a group of its own, since the running maximum starts at 0 and so no two
      are ever charged less than 0; yet all of them fit one group. */
  lemma NegativeBudgetSplitsTooMuch<Card, Label>(groups: seq<seq<Datum<Card, Label>>>, data: seq<Datum<Card, Label>>,
                                                 budget: BatchBudget<Card>)
    requires budget.maxCost < 0 && IsGreedy(groups, data, budget)
    ensures |groups| == |data| && (data != [] ==> IsPacking([data], data, budget))
  {
    forall k | 0 <= k < |groups| ensures |groups[k]| == 1 {
      if |groups[k]| >= 2 {
        ChargeIsNotNegative(ExampleCosts(groups[k], budget));
        assert false;
      }
    }
    SinglesCountTheExamples(groups);
    if data != [] {
      FlattenOne(data);
      AllFitOneGroup(groups, data, budget);
    }
  }

  lemma ChargeIsNotNegative(costs: seq<int>)
    ensures Charge(costs) >= 0
  {
    ProductGrows(0, |costs|, 0, Max(0, Largest(costs)));
  }

  lemma AllFitOneGroup<Card, Label>(groups: seq<seq<Datum<Card, Label>>>, data: seq<Datum<Card, Label>>,
                                    budget: BatchBudget<Card>)
    requires budget.maxCost < 0 && data != [] && IsPacking(groups, data, budget)
    requires forall k :: 0 <= k < |groups| ==> |groups[k]| == 1
    ensures Fits(data, budget)
  {
    var costs := ExampleCosts(data, budget);
    var i := LargestIsMaximum(costs);
    var largest := costs[i];
    assert largest <= budget.maxCost by {
      SinglesAreTheExamples(groups, i);
      assert ExampleCosts(groups[i], budget) == [largest];
      assert PaddedCost([largest]) == largest;
    }
    assert |costs| * largest <= largest;
  }

  lemma {:induction false} SinglesAreTheExamples<T>(groups: seq<seq<T>>, i: nat)
    requires i < |groups| || i < |Flatten(groups)|
    requires forall k :: 0 <= k < |groups| ==> |groups[k]| == 1
    ensures i < |groups| == |Flatten(groups)| && groups[i] == [Flatten(groups)[i]]
  {
    SinglesCountTheExamples(groups);
    if i > 0 {
      SinglesAreTheExamples(groups[1..], i - 1);
    }
  }

  /** The loop's groups are the fewest if and only if the budget is not negative or there is at most one example. */
  lemma FewestExactlyWhenBudgetNotNegative<Card, Label>(groups: seq<seq<Datum<Card, Label>>>,
                                                        data: seq<Datum<Card, Label>>, budget: BatchBudget<Card>)
    requires IsGreedy(groups, data, budget)
    ensures (forall other :: IsPacking(other, data, budget) ==> |groups| <= |other|)
            <==> budget.maxCost >= 0 || |data| <= 1
  {
    hide IsFull, IsCharged, Fits;
    if budget.maxCost >= 0 {
      forall other | IsPacking(other, data, budget) ensures |groups| <= |other| {
        FullPackingIsFewest(groups, other, data, budget);
      }
    } else {
      NegativeBudgetSplitsTooMuch(groups, data, budget);
      if |data| <= 1 {
        forall other | IsPacking(other, data, budget) ensures |groups| <= |other| {
          assert other == [] ==> Flatten(other) == [];
        }
      } else {
        assert |[data]| < |groups|;
      }
    }
  }

  // ----- the two steps of the loop

  lemma ChargeWithOneMore<Card, Label>(group: seq<Datum<Card, Label>>, datum: Datum<Card, Label>,
                                       budget: BatchBudget<Card>)
    ensures ExampleCosts(group + [datum], budget) == ExampleCosts(group, budget) + [ExampleCost(datum, budget)]
    ensures Max(0, Largest(ExampleCosts(group + [datum], budget))) ==
            Max(Max(0, Largest(ExampleCosts(group, budget))), ExampleCost(datum, budget))
  {
    var costs, cost := ExampleCosts(group, budget), ExampleCost(datum, budget);
    assert ExampleCosts(group + [datum], budget) == costs + [cost];
    assert (costs + [cost])[..|costs|] == costs;
  }

  lemma GrownGroupFits<Card, Label>(open: seq<Datum<Card, Label>>, datum: Datum<Card, Label>,
                                    budget: BatchBudget<Card>)
    requires ExampleCost(datum, budget) <= budget.maxCost
    requires open != [] ==> Charge(ExampleCosts(open + [datum], budget)) <= budget.maxCost
    ensures Fits(open + [datum], budget)
  {
    var costs := ExampleCosts(open + [datum], budget);
    if open == [] {
      assert costs == [ExampleCost(datum, budget)];
    } else {
      assert |costs| * Largest(costs) <= |costs| * Max(0, Largest(costs));
    }
  }

  lemma AppendToOpenGroup<Card, Label>(yielded: seq<seq<Datum<Card, Label>>>, open: seq<Datum<Card, Label>>,
                                       data: seq<Datum<Card, Label>>, datum: Datum<Card, Label>,
                                       budget: BatchBudget<Card>)
    requires IsOpenRun(yielded, open, data, budget)
    requires ExampleCost(datum, budget) <= budget.maxCost
    requires open != [] ==> Charge(ExampleCosts(open + [datum], budget)) <= budget.maxCost
    ensures IsOpenRun(yielded, open + [datum], data + [datum], budget)
  {
    hide Charge, ExampleCosts, Fits, Flatten;
    GrownGroupFits(open, datum, budget);
    var was, now := yielded + [open], yielded + [open + [datum]];
    FlattenAppend(yielded, open);
    FlattenAppend(yielded, open + [datum]);
    if data == [] {
      FlattenOne([datum]);
      assert open + [datum] == [datum];
      assert now == [[datum]];
      assert data + [datum] == [datum];
    } else {
      AppendIsAssociative(Flatten(yielded), open, [datum]);
      assert (open + [datum])[0] == open[0];
      forall k | 0 <= k < |now| ensures now[k] != [] && Fits(now[k], budget) {
        assert k < |yielded| ==> now[k] == was[k];
      }
      forall k | 0 <= k < |now| && |now[k]| >= 2 ensures Charge(ExampleCosts(now[k], budget)) <= budget.maxCost {
        assert k < |yielded| ==> now[k] == was[k];
      }
      forall k | 1 <= k < |now| && now[k] != []
        ensures Charge(ExampleCosts(now[k - 1] + [now[k][0]], budget)) > budget.maxCost
      {
        assert now[k - 1] == was[k - 1] && was[k] != [] && was[k][0] == now[k][0];
      }
    }
  }

  lemma CloseOpenGroup<Card, Label>(yielded: seq<seq<Datum<Card, Label>>>, open: seq<Datum<Card, Label>>,
                                    data: seq<Datum<Card, Label>>, datum: Datum<Card, Label>, budget: BatchBudget<Card>)
    requires IsOpenRun(yielded, open, data, budget) && open != []
    requires ExampleCost(datum, budget) <= budget.maxCost
    requires Charge(ExampleCosts(open + [datum], budget)) > budget.maxCost
    ensures IsOpenRun(yielded + [open], [datum], data + [datum], budget)
  {
    var was, now := yielded + [open], yielded + [open] + [[datum]];
    FlattenAppend(was, [datum]);
    assert ExampleCosts([datum], budget) == [ExampleCost(datum, budget)];
    assert forall k :: 0 <= k < |was| ==> now[k] == was[k];
    assert now[|was|] == [datum];
  }

  /** What the caller has once the last group is yielded. */
  lemma FinishedRun<Card, Label>(yielded: seq<seq<Datum<Card, Label>>>, open: seq<Datum<Card, Label>>,
                                 data: seq<Datum<Card, Label>>, budget: BatchBudget<Card>)
    requires IsOpenRun(yielded, open, data, budget)
    ensures var groups := if open == [] then yielded else yielded + [open];
            && IsGreedy(groups, data, budget)
            && ((forall other :: IsPacking(other, data, budget) ==> |groups| <= |other|)
                <==> budget.maxCost >= 0 || |data| <= 1)
  {
    var groups := if open == [] then yielded else yielded + [open];
    FewestExactlyWhenBudgetNotNegative(groups, data, budget);
  }

  /** What the generator yields: the greedy packing, or up to the first example that is too costly by itself. */
  ghost predicate IsGroupingOf<Card, Label>(r: Grouping<Datum<Card, Label>>, data: seq<Datum<Card, Label>>,
                                            budget: BatchBudget<Card>)
  {
    && (r.Grouped? <==> forall i :: 0 <= i < |data| ==> ExampleCost(data[i], budget) <= budget.maxCost)
    && (r.Grouped? ==> IsGreedy(r.groups, data, budget))
    && (r.TooCostly? ==>
          && r.index < |data| && ExampleCost(data[r.index], budget) > budget.maxCost
          && (forall i :: 0 <= i < r.index ==> ExampleCost(data[i], budget) <= budget.maxCost)
          && |Flatten(r.groups)| <= r.index
          && IsOpenRun(r.groups, data[|Flatten(r.groups)|..r.index], data[..r.index], budget))
  }

  /** The open group is what of the data is not in a yielded one. */
  lemma OpenGroupIsTheRest<Card, Label>(yielded: seq<seq<Datum<Card, Label>>>, open: seq<Datum<Card, Label>>,
                                        data: seq<Datum<Card, Label>>, budget: BatchBudget<Card>)
    requires IsOpenRun(yielded, open, data, budget)
    ensures |Flatten(yielded)| <= |data| && open == data[|Flatten(yielded)|..]
  {
    FlattenAppend(yielded, open);
  }

  /** The generator's loop. A raise keeps the groups already yielded and loses the open one. */
  method GroupByBudget<Card, Label>(data: seq<Datum<Card, Label>>, budget: BatchBudget<Card>)
    returns (r: Grouping<Datum<Card, Label>>)
    ensures IsGroupingOf(r, data, budget)
    ensures r.Grouped? ==> ((forall other :: IsPacking(other, data, budget) ==> |r.groups| <= |other|)
                            <==> budget.maxCost >= 0 || |data| <= 1)
  {
    hide IsPacking, IsFull, IsCharged;
    var groups: seq<seq<Datum<Card, Label>>> := [];
    var group: seq<Datum<Card, Label>> := [];
    var groupMaxCost := 0;
    for i := 0 to |data|
      invariant forall j :: 0 <= j < i ==> ExampleCost(data[j], budget) <= budget.maxCost
      invariant IsOpenRun(groups, group, data[..i], budget)
      invariant groupMaxCost == Max(0, Largest(ExampleCosts(group, budget)))
    {
      var datum := data[i];
      var cost := ExampleCost(datum, budget);
      if cost > budget.maxCost {
        OpenGroupIsTheRest(groups, group, data[..i], budget);
        assert data[..i][|Flatten(groups)|..] == data[|Flatten(groups)|..i];
        return TooCostly(groups, i);
      }
      ChargeWithOneMore(group, datum, budget);
      ghost var before, open, seen := groups, group, data[..i];
      assert data[..i + 1] == seen + [datum];
      if group != [] && (|group| + 1) * Max(groupMaxCost, cost) > budget.maxCost {
        CloseOpenGroup(before, open, seen, datum, budget);
        groups := groups + [group];
        group, groupMaxCost := [], 0;
        ChargeWithOneMore(group, datum, budget);
        assert group + [datum] == [datum];
      } else {
        AppendToOpenGroup(before, open, seen, datum, budget);
      }
      group := group + [datum];
      groupMaxCost := Max(groupMaxCost, cost);
    }
    assert data[..|data|] == data;
    FinishedRun(groups, group, data, budget);
    if group != [] {
      groups := groups + [group];
    }
    return Grouped(groups);
  }

  // ----- with every card costing 1, a group is charged its padded slots

  function UnitCosts<Card>(maxCost: int): BatchBudget<Card> {
    BatchBudget(maxCost, (card: Card) => 1)
  }

  lemma {:induction false} UnitSum(costs: seq<int>)
    requires forall i :: 0 <= i < |costs| ==> costs[i] == 1
    ensures Sum(costs) == |costs|
  {
    if costs != [] {
      UnitSum(costs[1..]);
    }
  }

  lemma UnitExampleCost<Card, Label>(datum: Datum<Card, Label>, maxCost: int)
    ensures ExampleCost(datum, UnitCosts(maxCost)) == |datum.cards|
  {
    UnitSum(CardCosts(datum.cards, UnitCosts(maxCost)));
  }

  lemma UnitGroupCost<Card, Label>(group: seq<Datum<Card, Label>>, maxCost: int) returns (i: nat)
    requires group != []
    ensures i < |group|
    ensures PaddedCost(ExampleCosts(group, UnitCosts(maxCost))) == |group| * |group[i].cards|
    ensures Charge(ExampleCosts(group, UnitCosts(maxCost))) == |group| * |group[i].cards|
    ensures forall j :: 0 <= j < |group| ==> |group[j].cards| <= |group[i].cards|
  {
    var costs := ExampleCosts(group, UnitCosts(maxCost));
    forall j | 0 <= j < |group| ensures costs[j] == |group[j].cards| {
      UnitExampleCost(group[j], maxCost);
    }
    i := LargestIsMaximum(costs);
  }

  /** The loop groups exactly when no example has more cards than the budget. Then no group has more slots, padded to
      its longest example, than the budget, and none could have been given the next example. */
  lemma SlotsStayWithinBudget<Card, Label>(r: Grouping<Datum<Card, Label>>, data: seq<Datum<Card, Label>>, maxCost: int)
    requires IsGroupingOf(r, data, UnitCosts(maxCost))
    ensures r.Grouped? <==> forall i :: 0 <= i < |data| ==> |data[i].cards| <= maxCost
    ensures r.Grouped? ==> Flatten(r.groups) == data
    ensures r.Grouped? ==> forall k, i :: 0 <= k < |r.groups| && 0 <= i < |r.groups[k]| ==>
              |r.groups[k]| * |r.groups[k][i].cards| <= maxCost
    ensures r.Grouped? ==> forall k :: 1 <= k < |r.groups| ==>
              && r.groups[k] != []
              && exists datum :: datum in r.groups[k - 1] + [r.groups[k][0]]
                                 && (|r.groups[k - 1]| + 1) * |datum.cards| > maxCost
    ensures r.TooCostly? ==> r.index < |data| && |data[r.index].cards| > maxCost
                             && forall i :: 0 <= i < r.index ==> |data[i].cards| <= maxCost
  {
    hide IsOpenRun, Charge, PaddedCost, ExampleCosts, ExampleCost;
    forall i | 0 <= i < |data| ensures ExampleCost(data[i], UnitCosts(maxCost)) == |data[i].cards| {
      UnitExampleCost(data[i], maxCost);
    }
    if r.Grouped? {
      forall k, i | 0 <= k < |r.groups| && 0 <= i < |r.groups[k]|
        ensures |r.groups[k]| * |r.groups[k][i].cards| <= maxCost
      {
        var longest := UnitGroupCost(r.groups[k], maxCost);
        ProductGrows(|r.groups[k]|, |r.groups[k]|, |r.groups[k][i].cards|, |r.groups[k][longest].cards|);
      }
      forall k | 1 <= k < |r.groups|
        ensures r.groups[k] != []
        ensures exists datum :: datum in r.groups[k - 1] + [r.groups[k][0]]
                                && (|r.groups[k - 1]| + 1) * |datum.cards| > maxCost
      {
        var more := r.groups[k - 1] + [r.groups[k][0]];
        var longest := UnitGroupCost(more, maxCost);
        assert more[longest] in more;
      }
    }
  }
}
