/** What a run's attempts come to, said of the world's answers and of the recorded events alone. */
module TrainingLaws {
  import opened TrainingEvents
  import opened TrainingParts
  import opened TrainingRounds
  import opened TrainingOutcome
  import opened Wrappers

  // ----- how an attempt ends

  /** An attempt that met this ended as the training loop documents, given the loss scale it began at. */
  ghost predicate EndedAsMet(met: StepEvent, fp16: bool, attempt: Event) {
    && attempt.Attempted?
    && (attempt.ending == Failed <==>
        met == BatchRaises || met == StepRaises || (met == Gradients(false) && (!fp16 || attempt.lossScale <= 1.0)))
    && (attempt.ending == BaselineSkipped <==> met == NoBaseline)
    && (attempt.ending == OverflowSkipped <==> met == Gradients(false) && fp16 && attempt.lossScale > 1.0)
    && (attempt.ending == Stepped <==> met == Gradients(true))
    && (attempt.ending == FeedRaised <==> met == WorkerStops)
  }

  lemma AnsweredWhere(stage: Stage, events: seq<Event>, i: nat)
    requires AreAnswered(stage, events) && i < |events|
    ensures IsAnswered(stage, events[..i], events[i])
  {
    hide AreAnswered, IsAnswered;
    assert [] + events == events;
    AnsweredAt(stage, [], events, i);
    assert [] + events[..i] == events[..i];
  }

  lemma AttemptOfPhase(stage: Stage, events: seq<Event>, i: nat)
    requires AreAnswered(stage, events) && i < |events| && events[i].Attempted?
    ensures EndedAsMet(stage.world.step(stage.start.attempts + Attempts(events[..i])), stage.plan.fp16, events[i])
  {
    hide AreAnswered, Attempts, ScaleNow;
    AnsweredWhere(stage, events, i);
  }

  lemma {:induction false} ClockCountsAttempts(phases: seq<seq<Round>>)
    ensures ClockAfterPhases(phases).attempts == Attempts(AllEvents(phases))
  {
    if phases != [] {
      hide AskedIn, EventsOf;
      var front, last := phases[..|phases| - 1], phases[|phases| - 1];
      ClockCountsAttempts(front);
      CountsConcat(AllEvents(front), EventsOf(last), Stepped);
    }
  }

  lemma PhaseIsAnswered(stage: Stage, rounds: seq<Round>, reason: Option<StopReason>)
    requires IsPhase(stage, rounds, reason)
    ensures AreAnswered(stage, EventsOf(rounds))
  {
  }

  lemma AttemptAfterEarlierPhases(stage: Stage, before: seq<Event>, events: seq<Event>, i: nat)
    requires AreAnswered(stage, events) && stage.start.attempts == Attempts(before)
    requires |before| <= i < |before + events| && (before + events)[i].Attempted?
    ensures EndedAsMet(stage.world.step(Attempts((before + events)[..i])), stage.plan.fp16, (before + events)[i])
  {
    hide AreAnswered, EndedAsMet, Attempts, CountOf;
    var j := i - |before|;
    assert (before + events)[..i] == before + events[..j];
    AttemptOfPhase(stage, events, j);
    CountsConcat(before, events[..j], Stepped);
  }

  lemma LastPhaseEndsAsMet(plan: Plan, world: World, phases: seq<seq<Round>>, reason: Option<StopReason>, i: nat)
    requires phases != [] && |phases| <= |plan.phases|
    requires IsPhase(NextStage(plan, world, phases[..|phases| - 1]), phases[|phases| - 1], reason)
    requires |AllEvents(phases[..|phases| - 1])| <= i < |AllEvents(phases)| && AllEvents(phases)[i].Attempted?
    ensures EndedAsMet(world.step(Attempts(AllEvents(phases)[..i])), plan.fp16, AllEvents(phases)[i])
  {
    hide IsPhase, EventsOf, AreAnswered, EndedAsMet, Attempts, AskedIn;
    var front, last := phases[..|phases| - 1], phases[|phases| - 1];
    PhaseIsAnswered(NextStage(plan, world, front), last, reason);
    ClockCountsAttempts(front);
    AttemptAfterEarlierPhases(NextStage(plan, world, front), AllEvents(front), EventsOf(last), i);
  }

  lemma {:induction false} EarlierPhasesEndAsMet(plan: Plan, world: World, phases: seq<seq<Round>>, i: nat)
    requires ArePhases(plan, world, phases) && i < |AllEvents(phases)| && AllEvents(phases)[i].Attempted?
    ensures EndedAsMet(world.step(Attempts(AllEvents(phases)[..i])), plan.fp16, AllEvents(phases)[i])
    decreases |phases|
  {
    hide IsPhase, EventsOf, EndedAsMet;
    var front := phases[..|phases| - 1];
    if i < |AllEvents(front)| {
      EarlierPhasesEndAsMet(plan, world, front, i);
      assert AllEvents(phases)[..i] == AllEvents(front)[..i];
    } else {
      LastPhaseEndsAsMet(plan, world, phases, None, i);
    }
  }

  /** The n-th attempt of a run ends by what it met, its fp16 setting and its loss scale, and by nothing else. */
  lemma AttemptEndsAsItMet(plan: Plan, world: World, phases: seq<seq<Round>>, reason: Option<StopReason>, i: nat)
    requires IsRun(plan, world, phases, reason) && i < |AllEvents(phases)| && AllEvents(phases)[i].Attempted?
    ensures EndedAsMet(world.step(Attempts(AllEvents(phases)[..i])), plan.fp16, AllEvents(phases)[i])
  {
    hide IsPhase, EventsOf, EndedAsMet;
    var front := phases[..|phases| - 1];
    if i < |AllEvents(front)| {
      EarlierPhasesEndAsMet(plan, world, front, i);
      assert AllEvents(phases)[..i] == AllEvents(front)[..i];
    } else {
      LastPhaseEndsAsMet(plan, world, phases, reason, i);
    }
  }

  // ----- a dojo that only fails

  function AttemptsOn(events: seq<Event>, name: Name): nat {
    if events == [] then 0
    else
      var last := events[|events| - 1];
      AttemptsOn(events[..|events| - 1], name) + (if last.Attempted? && last.name == name then 1 else 0)
  }

  lemma {:induction false} OnlyFailures(events: seq<Event>, name: Name)
    requires forall i :: 0 <= i < |events| && events[i].Attempted? && events[i].name == name ==>
               events[i].ending == Failed
    ensures AttemptsOn(events, name) == Failures(events, name) == Streak(events, name)
  {
    if events != [] {
      OnlyFailures(events[..|events| - 1], name);
    }
  }

  /** Every attempt of the dojo among these meets an error of its own. */
  ghost predicate MeetsOnlyErrors(stage: Stage, events: seq<Event>, name: Name) {
    forall i :: 0 <= i < |events| && events[i].Attempted? && events[i].name == name ==>
      stage.world.step(stage.start.attempts + Attempts(events[..i])) in {BatchRaises, StepRaises}
  }

  lemma OnlyErrorsFail(stage: Stage, events: seq<Event>, name: Name)
    requires AreAnswered(stage, events) && MeetsOnlyErrors(stage, events, name)
    ensures AttemptsOn(events, name) == Failures(events, name) == Streak(events, name)
  {
    forall i | 0 <= i < |events| && events[i].Attempted? && events[i].name == name
      ensures events[i].ending == Failed
    {
      AttemptOfPhase(stage, events, i);
    }
    OnlyFailures(events, name);
  }

  /** A dojo whose every attempt meets an error of its own is attempted no more often than either of its limits. */
  lemma FailingDojoIsAttemptedUpToItsLimit(stage: Stage, rounds: seq<Round>, reason: Option<StopReason>, name: Name)
    requires ValidStage(stage) && IsPhase(stage, rounds, reason) && MeetsOnlyErrors(stage, EventsOf(rounds), name)
    ensures AttemptsOn(EventsOf(rounds), name) <= stage.plan.faults.maxConsecutiveDojoFailures
    ensures AttemptsOn(EventsOf(rounds), name) <= stage.plan.faults.maxTotalDojoFailures
  {
    hide AreRounds, StopsFor, AreAnswered, EventsOf, MeetsOnlyErrors;
    var events := EventsOf(rounds);
    OnlyErrorsFail(stage, events, name);
    RoundsAreAllowed(stage, rounds);
    FailuresStayWithinLimit(stage.plan.faults, events, name);
  }

  // ----- the loss scale from one attempt to the next

  /** A phase's first attempt begins at the scaler's initial scale. */
  lemma FirstScale(stage: Stage, events: seq<Event>, i: nat)
    requires AreAnswered(stage, events) && i < |events| && events[i].Attempted?
    requires forall j :: 0 <= j < i ==> !events[j].Attempted?
    ensures events[i].lossScale == stage.plan.initialScale
  {
    AnsweredWhere(stage, events, i);
    UntouchedScale(stage, [], events[..i]);
    assert [] + events[..i] == events[..i];
  }

  lemma {:induction false} UntouchedScale(stage: Stage, before: seq<Event>, more: seq<Event>)
    requires forall j :: 0 <= j < |more| ==> !more[j].Attempted?
    ensures ScaleNow(stage, before + more) == ScaleNow(stage, before)
    decreases |more|
  {
    if more == [] {
      assert before + more == before;
    } else {
      UntouchedScale(stage, before, more[..|more| - 1]);
      assert (before + more)[..|before + more| - 1] == before + more[..|more| - 1];
    }
  }

  /** One attempt's effect on the scale: without fp16 and after anything but a step or an overflow it stays; an
      overflow above the floor halves it, one at the floor leaves it at the floor; a step keeps or doubles it. */
  ghost predicate MovesScale(met: StepEvent, fp16: bool, ending: Ending, scale: real, after: real) {
    && (!fp16 || !met.Gradients? ==> after == scale)
    && (ending == OverflowSkipped ==> after == scale / 2.0)
    && (fp16 && met == Gradients(false) && 0.0 < scale <= 1.0 ==> after == 1.0)
    && (ending == Stepped && scale > 0.0 ==> after == scale || after == 2.0 * scale)
  }

  lemma AttemptMovesScale(met: StepEvent, fp16: bool, scale: Scale)
    ensures MovesScale(met, fp16, EndingOf(met, fp16, scale), scale.value, ScaleAfter(met, fp16, scale).value)
  {
  }

  /** From one attempt of a phase to the next the recorded loss scale moves just so. */
  lemma NextScale(stage: Stage, events: seq<Event>, i: nat, next: nat)
    requires AreAnswered(stage, events) && i < next < |events| && events[i].Attempted? && events[next].Attempted?
    requires forall j :: i < j < next ==> !events[j].Attempted?
    ensures MovesScale(stage.world.step(stage.start.attempts + Attempts(events[..i])), stage.plan.fp16,
                       events[i].ending, events[i].lossScale, events[next].lossScale)
  {
    hide AreAnswered, Attempts, MovesScale, EndingOf, ScaleAfter, ScaleNow;
    AnsweredWhere(stage, events, i);
    AnsweredWhere(stage, events, next);
    ScaleAtNext(stage, events, i, next);
    AttemptMovesScale(NextEvent(stage, events[..i]), stage.plan.fp16, ScaleNow(stage, events[..i]));
  }

  lemma ScaleAtNext(stage: Stage, events: seq<Event>, i: nat, next: nat)
    requires i < next < |events| && events[i].Attempted? && forall j :: i < j < next ==> !events[j].Attempted?
    ensures ScaleNow(stage, events[..next]) ==
            ScaleAfter(NextEvent(stage, events[..i]), stage.plan.fp16, ScaleNow(stage, events[..i]))
  {
    var front, upTo, between := events[..i], events[..i + 1], events[i + 1..next];
    assert upTo == front + [events[i]];
    assert events[..next] == upTo + between;
    UntouchedScale(stage, upTo, between);
    DropLast(front, events[i]);
    assert upTo[..|upTo| - 1] == front && upTo[|upTo| - 1] == events[i];
  }

  /** The scale doubles at the 2000th finite step in a row since it last changed, and not before. */
  lemma {:induction false} GrowsEvery2000Steps(value: real, steps: nat)
    requires steps <= 2000 && value > 0.0
    ensures AfterScaledSteps(Scale(value, 0), seq(steps, _ => true)) ==
            if steps < 2000 then Scale(value, steps) else Scale(2.0 * value, 0)
  {
    GrowsAfter(value, 0, seq(steps, _ => true));
  }

  lemma {:induction false} GrowsAfter(value: real, already: nat, finite: seq<bool>)
    requires value > 0.0 && already + |finite| <= 2000 && already < 2000 && forall i :: 0 <= i < |finite| ==> finite[i]
    ensures AfterScaledSteps(Scale(value, already), finite) ==
            if already + |finite| < 2000 then Scale(value, already + |finite|) else Scale(2.0 * value, 0)
    decreases |finite|
  {
    if finite != [] {
      var next := AfterScaledStep(Scale(value, already), true);
      if already + 1 == 2000 {
        assert finite[1..] == [];
      } else {
        GrowsAfter(value, already + 1, finite[1..]);
      }
    }
  }

  /** An overflow starts the count of finite steps again. */
  lemma OverflowRestartsTheCount(scale: Scale)
    requires scale.value > 0.0
    ensures AfterScaledStep(scale, false) == Scale(if scale.value > 1.0 then scale.value / 2.0 else 1.0, 0)
  {
  }

  // ----- failure streaks

  ghost predicate Ran(event: Event, name: Name) {
    event.Attempted? && event.name == name && event.ending in {Stepped, OverflowSkipped}
  }

  ghost predicate FailsOn(event: Event, name: Name) {
    event.Attempted? && event.name == name && event.ending == Failed
  }

  /** Where, from event `since` on, an attempt of the dojo failed. */
  ghost function FailedOn(events: seq<Event>, name: Name, since: nat): set<int> {
    set i | since <= i < |events| && FailsOn(events[i], name)
  }

  /** Where, from event `since` on, the sampler or an attempt of any dojo failed. */
  ghost function FailedAtAll(events: seq<Event>, since: nat): set<int> {
    set i | since <= i < |events| && (events[i].SamplerFailed? || events[i].ending == Failed)
  }

  lemma OneMoreFailedOn(events: seq<Event>, event: Event, name: Name, since: nat)
    requires since <= |events|
    ensures |FailedOn(events + [event], name, since)| ==
            |FailedOn(events, name, since)| + (if FailsOn(event, name) then 1 else 0)
  {
    var added := if FailsOn(event, name) then {|events|} else {};
    OnlyTheLastIsNew(events, event, name, since, added);
    hide FailedOn, FailsOn;
    assert |events| !in FailedOn(events, name, since);
  }

  lemma OnlyTheLastIsNew(events: seq<Event>, event: Event, name: Name, since: nat, added: set<nat>)
    requires since <= |events| && added == if FailsOn(event, name) then {|events|} else {}
    ensures FailedOn(events + [event], name, since) == FailedOn(events, name, since) + added
    ensures |events| !in FailedOn(events, name, since)
  {
    hide FailsOn;
    assert forall i :: 0 <= i < |events| ==> (events + [event])[i] == events[i];
  }

  lemma OneMoreFailedAtAll(events: seq<Event>, event: Event, since: nat)
    requires since <= |events|
    ensures |FailedAtAll(events + [event], since)| ==
            |FailedAtAll(events, since)| + (if event.SamplerFailed? || event.ending == Failed then 1 else 0)
  {
    var all, n := events + [event], |events|;
    assert all[n] == event && forall i :: 0 <= i < n ==> all[i] == events[i];
    if event.SamplerFailed? || event.ending == Failed {
      assert FailedAtAll(all, since) == FailedAtAll(events, since) + {n};
    } else {
      assert FailedAtAll(all, since) == FailedAtAll(events, since);
    }
  }

  lemma NoneFailedYet(events: seq<Event>, name: Name)
    ensures FailedOn(events, name, |events|) == {} && FailedAtAll(events, |events|) == {}
  {
  }

  /** A dojo's streak: its failed attempts since the last attempt of it that ran, a skipped batch not being one. */
  lemma {:induction false} StreakSinceLastRun(events: seq<Event>, name: Name) returns (since: nat)
    ensures since <= |events| && (since > 0 ==> Ran(events[since - 1], name))
    ensures forall i :: since <= i < |events| ==> !Ran(events[i], name)
    ensures Streak(events, name) == |FailedOn(events, name, since)|
  {
    if events == [] {
      since := 0;
      NoneFailedYet(events, name);
    } else {
      hide FailedOn, FailedAtAll;
      var n := |events| - 1;
      var front, last := events[..n], events[n];
      assert events == front + [last];
      var earlier := StreakSinceLastRun(front, name);
      since := if Ran(last, name) then n + 1 else earlier;
      OneMoreFailedOn(front, last, name, earlier);
      NoneFailedYet(events, name);
    }
  }

  /** The overall streak: failed attempts and sampler failures since the last attempt of any dojo that ran. */
  lemma {:induction false} OverallStreakSinceLastRun(events: seq<Event>) returns (since: nat)
    ensures since <= |events| && (since > 0 ==> events[since - 1].Attempted?
                                                && events[since - 1].ending in {Stepped, OverflowSkipped})
    ensures forall i :: since <= i < |events| && events[i].Attempted? ==>
              events[i].ending !in {Stepped, OverflowSkipped}
    ensures OverallStreak(events) == |FailedAtAll(events, since)|
  {
    if events == [] {
      since := 0;
      NoneFailedYet(events, "");
    } else {
      hide FailedOn, FailedAtAll;
      var n := |events| - 1;
      var front, last := events[..n], events[n];
      assert events == front + [last];
      var earlier := OverallStreakSinceLastRun(front);
      since := if last.Attempted? && last.ending in {Stepped, OverflowSkipped} then n + 1 else earlier;
      OneMoreFailedAtAll(front, last, earlier);
      NoneFailedYet(events, "");
    }
  }

  /** A dojo's failures are its failed attempts. */
  lemma {:induction false} FailuresAreFailedAttempts(events: seq<Event>, name: Name)
    ensures Failures(events, name) == |FailedOn(events, name, 0)|
  {
    if events == [] {
      NoneFailedYet(events, name);
    } else {
      hide FailedOn, FailedAtAll;
      var n := |events| - 1;
      assert events == events[..n] + [events[n]];
      FailuresAreFailedAttempts(events[..n], name);
      OneMoreFailedOn(events[..n], events[n], name, 0);
    }
  }

  /** Event k is a failed attempt of the dojo that brought its streak or its total to a limit. */
  ghost predicate ReachesALimit(policy: FaultPolicy, events: seq<Event>, name: Name, k: nat)
    requires k < |events|
  {
    FailsOn(events[k], name)
    && (Streak(events[..k + 1], name) >= policy.maxConsecutiveDojoFailures
        || Failures(events[..k + 1], name) >= policy.maxTotalDojoFailures)
  }

  /** A dojo is quarantined exactly when some failure of its own did so. */
  lemma {:induction false} QuarantinedByAFailure(policy: FaultPolicy, events: seq<Event>, name: Name)
    ensures Quarantined(policy, events, name) <==>
            exists k :: 0 <= k < |events| && ReachesALimit(policy, events, name, k)
    decreases |events|
  {
    if events != [] {
      hide Streak, Failures;
      var n := |events| - 1;
      var front := events[..n];
      QuarantinedByAFailure(policy, front, name);
      assert events[..n + 1] == events;
      forall k | 0 <= k < n
        ensures ReachesALimit(policy, front, name, k) <==> ReachesALimit(policy, events, name, k)
      {
        assert front[..k + 1] == events[..k + 1] && front[k] == events[k];
      }
      assert ReachesALimit(policy, events, name, n) <==>
             FailureOf(events[n], name) && TrainingEvents.ReachesLimit(policy, events, name);
    }
  }

  // ----- nothing is attempted once the run gives up

  lemma {:induction false} NothingAfterGivingUp(stage: Stage, rounds: seq<Round>, i: nat)
    requires AreRounds(stage, rounds) && ValidStage(stage) && i < |EventsOf(rounds)| && EventsOf(rounds)[i].Attempted?
    ensures OverallStreak(EventsOf(rounds)[..i]) < stage.plan.faults.maxConsecutiveFailures
    decreases |rounds|
  {
    hide IsRound, GoesOn, OverallStreak;
    var front, last := rounds[..|rounds| - 1], rounds[|rounds| - 1];
    var before := EventsOf(front);
    if i < |before| {
      NothingAfterGivingUp(stage, front, i);
      assert EventsOf(rounds)[..i] == before[..i];
    } else {
      var j := i - |before|;
      assert EventsOf(rounds)[..i] == before + last.events[..j];
      RoundAttemptsBelowTheLimit(stage, front, last, j);
    }
  }

  lemma RoundAttemptsBelowTheLimit(stage: Stage, front: seq<Round>, round: Round, j: nat)
    requires ValidStage(stage) && (front != [] ==> GoesOn(stage, front))
    requires IsRound(stage, StartAfter(stage, front), round) && j < |round.events|
    ensures OverallStreak(EventsOf(front) + round.events[..j]) < stage.plan.faults.maxConsecutiveFailures
  {
    if j == 0 {
      assert EventsOf(front) + round.events[..0] == EventsOf(front);
    } else {
      assert !IsDone(stage, StartAfter(stage, front), round.events[..j]);
    }
  }

  // ----- saturation

  /** Enough dojos are saturated exactly when their share of the names reaches the target. */
  lemma SaturatedByShare(names: seq<Name>, saturated: set<Name>, target: real)
    ensures EnoughSaturated(names, saturated, target) <==>
            names != [] && |SaturatedAt(names, saturated)| as real >= target * |names| as real
  {
    SaturatedOnes(names, saturated);
    if names != [] {
      ShareReaches(|SaturatedAt(names, saturated)| as real, |names| as real, target);
    }
  }

  /** The positions of the saturated names. */
  ghost function SaturatedAt(names: seq<Name>, saturated: set<Name>): set<nat> {
    set i: nat | i < |names| && names[i] in saturated
  }

  lemma ShareReaches(share: real, n: real, target: real)
    requires n > 0.0
    ensures share / n >= target <==> share >= target * n
  {
    assert share / n * n == share;
    if share / n >= target {
      assert (share / n - target) * n >= 0.0;
    } else {
      assert (target - share / n) * n > 0.0;
    }
  }

  lemma {:induction false} SaturatedOnes(names: seq<Name>, saturated: set<Name>)
    ensures |names| - |Unsaturated(names, saturated)| == |SaturatedAt(names, saturated)|
  {
    if names == [] {
      assert SaturatedAt(names, saturated) == {};
    } else {
      var rest, here := names[1..], if names[0] in saturated then {0} else {};
      SaturatedOnes(rest, saturated);
      var shifted := set i: nat | i < |names| && i > 0 && names[i] in saturated;
      assert SaturatedAt(names, saturated) == here + shifted;
      ShiftKeepsSize(SaturatedAt(rest, saturated), shifted);
    }
  }

  lemma {:induction false} ShiftKeepsSize(a: set<nat>, b: set<nat>)
    requires forall i :: i in b <==> i > 0 && i - 1 in a
    ensures |a| == |b|
    decreases a
  {
    if a == {} {
      assert b == {};
    } else {
      var i :| i in a;
      assert i + 1 in b;
      ShiftKeepsSize(a - {i}, b - {i + 1});
    }
  }

  // ----- which dojos are attempted

  /** The active dojos are picked name by name, so they stay in the tracker's order. */
  lemma {:induction false} ActiveDojosStayInOrder(policy: FaultPolicy, events: seq<Event>, a: seq<Name>, b: seq<Name>,
                                                  name: Name)
    ensures ActiveNames(policy, a + b, events) == ActiveNames(policy, a, events) + ActiveNames(policy, b, events)
    ensures ActiveNames(policy, [name], events) == if Quarantined(policy, events, name) then [] else [name]
  {
    hide Quarantined;
    if a == [] {
      assert a + b == b;
    } else {
      ActiveDojosStayInOrder(policy, events, a[1..], b, name);
      assert (a + b)[1..] == a[1..] + b;
    }
  }

  /** So do the unsaturated ones. */
  lemma {:induction false} UnsaturatedDojosStayInOrder(saturated: set<Name>, a: seq<Name>, b: seq<Name>, name: Name)
    ensures Unsaturated(a + b, saturated) == Unsaturated(a, saturated) + Unsaturated(b, saturated)
    ensures Unsaturated([name], saturated) == if name in saturated then [] else [name]
  {
    if a == [] {
      assert a + b == b;
    } else {
      UnsaturatedDojosStayInOrder(saturated, a[1..], b, name);
      assert (a + b)[1..] == a[1..] + b;
    }
  }

  /** Every attempt is on an active dojo; the active ones are the phase's dojos but those the last evaluation left
      saturated, none in the first round, and those quarantined so far. */
  lemma AttemptsAreOnActiveDojos(stage: Stage, rounds: seq<Round>, reason: Option<StopReason>, n: nat, i: nat,
                                 name: Name)
    requires ValidStage(stage) && IsPhase(stage, rounds, reason)
    requires n < |rounds| && i < |rounds[n].events| && rounds[n].events[i].Attempted?
    ensures rounds[n].events[i].name in rounds[n].events[i].active
    ensures name in rounds[n].events[i].active <==>
            && name in stage.phase.dojoNames
            && (n == 0 || name !in stage.world.saturated(stage.start.rounds + n))
            && !Quarantined(stage.plan.faults, EventsOf(rounds[..n]) + rounds[n].events[..i], name)
  {
    hide AreRounds, StopsFor, AreAnswered, EventsOf, IsDone, Quarantined, AreDraws;
    RoundAt(stage, rounds, n);
    var start, round := StartAfter(stage, rounds[..n]), rounds[n];
    assert IsDue(stage, start, round.draws, round.events, i);
    DueAttemptIsAllowed(stage, start, round.draws, round.events, i);
    ActiveNamesAreNotQuarantined(stage.plan.faults, start.tracked, start.before + round.events[..i], name);
    UnsaturatedAreTheRest(stage.phase.dojoNames, SaturatedAfter(stage, n), name);
  }

  // ----- where a phase ends, and why

  /** The share of the phase's dojos that are saturated after these rounds, or quarantined in them, reaches its
      target. */
  ghost predicate TargetReached(stage: Stage, rounds: seq<Round>) {
    var names, events := stage.phase.dojoNames, EventsOf(rounds);
    var counted := set i: nat | i < |names| && (names[i] in stage.world.saturated(stage.start.rounds + |rounds|)
                                               || Quarantined(stage.plan.faults, events, names[i]));
    |counted| as real >= stage.phase.targetSaturated * |names| as real
  }

  lemma SaturatedExactlyAtTheTarget(stage: Stage, rounds: seq<Round>)
    requires ValidPhase(stage.phase) && rounds != []
    ensures IsSaturated(stage, rounds) <==> TargetReached(stage, rounds)
  {
    hide EnoughSaturated, Quarantined, EventsOf;
    var names, events := stage.phase.dojoNames, EventsOf(rounds);
    var saturated := SaturatedAfter(stage, |rounds|) + QuarantinedNames(stage, events);
    SaturatedByShare(names, saturated, stage.phase.targetSaturated);
    assert SaturatedAt(names, saturated) ==
           set i: nat | i < |names| && (names[i] in stage.world.saturated(stage.start.rounds + |rounds|)
                                        || Quarantined(stage.plan.faults, events, names[i]));
  }

  lemma {:induction false} EarlierRoundsGoOn(stage: Stage, rounds: seq<Round>, n: nat)
    requires AreRounds(stage, rounds) && 1 <= n < |rounds|
    ensures GoesOn(stage, rounds[..n])
    decreases |rounds|
  {
    hide GoesOn, IsRound;
    var front := rounds[..|rounds| - 1];
    if n < |front| {
      EarlierRoundsGoOn(stage, front, n);
    }
    assert front[..n] == rounds[..n];
  }

  lemma {:induction false} CountedExactlyWhenThere(events: seq<Event>, ending: Ending)
    ensures CountOf(events, ending) > 0 <==> exists i :: 0 <= i < |events| && EndedAs(events[i], ending)
  {
    if events != [] {
      CountedExactlyWhenThere(events[..|events| - 1], ending);
    }
  }

  /** A feed that will not begin a round leaves everything as the rounds before it did: not given up, and with an
      active dojo. */
  lemma FeedFailureAtBeginAddsNothing(stage: Stage, rounds: seq<Round>)
    requires ValidStage(stage) && rounds != [] && AreRounds(stage, rounds)
    requires rounds[|rounds| - 1].end == FeedFailedAtBegin
    ensures !GivesUp(stage, rounds) && !AllQuarantined(stage, rounds)
  {
    hide IsDone, IsSaturated, Quarantined;
    var front, last := rounds[..|rounds| - 1], rounds[|rounds| - 1];
    assert EventsOf(rounds) == EventsOf(front);
    var start := StartAfter(stage, front);
    assert IsSamplersDraw(stage, start.clock.draws, last.draws[0]);
    SomeActiveDojo(stage, start, stage.phase.dojoNames, SaturatedAfter(stage, |front|));
  }

  lemma SomeActiveDojo(stage: Stage, start: RoundStart, names: seq<Name>, saturated: set<Name>)
    requires start.tracked == Unsaturated(names, saturated) && Active(stage, start, []) != []
    ensures exists name :: name in names && !Quarantined(stage.plan.faults, start.before, name)
  {
    var name := Active(stage, start, [])[0];
    assert start.before + [] == start.before;
    ActiveNamesAreNotQuarantined(stage.plan.faults, start.tracked, start.before, name);
    UnsaturatedAreTheRest(names, saturated, name);
  }

  /** A feed error on a step leaves the streak and the quarantines as they were when that step was due. */
  lemma FeedFailureOnAStepAddsNothing(stage: Stage, rounds: seq<Round>)
    requires ValidStage(stage) && rounds != [] && AreRounds(stage, rounds)
    requires rounds[|rounds| - 1].end == FeedFailedAtStep
    ensures !GivesUp(stage, rounds) && !AllQuarantined(stage, rounds)
  {
    hide AreRounds, EventsOf, IsSaturated, Quarantined, OverallStreak;
    var events := EventsOf(rounds);
    var n := |events| - 1;
    FeedRaisedLast(stage, rounds);
    assert events == events[..n] + [events[n]];
    NothingAfterGivingUp(stage, rounds, n);
    RoundsAreAllowed(stage, rounds);
    FaultsStep(stage.plan.faults, events[..n], events[n], events[n].name);
  }

  lemma FeedRaisedLast(stage: Stage, rounds: seq<Round>)
    requires rounds != [] && AreRounds(stage, rounds) && rounds[|rounds| - 1].end == FeedFailedAtStep
    ensures EventsOf(rounds) != [] && EndedAs(EventsOf(rounds)[|EventsOf(rounds)| - 1], FeedRaised)
  {
    hide IsUnderDraws, IsDone, GoesOn, DrawsAreUsed, EndedAs, AskedIn, Attempts, Unsaturated;
  }

  /** A phase's reason says what stopped it: too many failures in a row, else every dojo quarantined, a feed that
      failed on a step or when a round began; without a reason, the target share or the last allowed round. */
  lemma PhaseEndsForItsReason(stage: Stage, rounds: seq<Round>, reason: Option<StopReason>)
    requires ValidStage(stage) && IsPhase(stage, rounds, reason)
    ensures var events, faults, names := EventsOf(rounds), stage.plan.faults, stage.phase.dojoNames;
            && (reason == Some(TooManyFailures) <==> OverallStreak(events) >= faults.maxConsecutiveFailures)
            && (reason == Some(EveryDojoQuarantined) <==>
                && OverallStreak(events) < faults.maxConsecutiveFailures
                && forall name :: name in names ==> Quarantined(faults, events, name))
            && (reason == Some(FeedFailedOnAStep) <==>
                exists i :: 0 <= i < |events| && EndedAs(events[i], FeedRaised))
            && (reason == Some(FeedFailedAtRoundStart) <==>
                && rounds[|rounds| - 1].draws != []
                && stage.world.beginStops(stage.start.rounds + |rounds| - 1))
            && (reason == None ==> |rounds| == stage.phase.maxRounds || TargetReached(stage, rounds))
  {
    hide AreRounds, AreAnswered, GivesUp, AllQuarantined, IsSaturated, TargetReached, EventsOf, OverallStreak;
    var last := rounds[|rounds| - 1];
    LastRoundOf(stage, rounds);
    if last.end == FeedFailedAtBegin {
      FeedFailureAtBeginAddsNothing(stage, rounds);
    } else if last.end == FeedFailedAtStep {
      FeedFailureOnAStepAddsNothing(stage, rounds);
    }
    GivesUpAndQuarantined(stage, rounds);
    PhaseFeedErrors(stage, rounds, reason);
    CountedExactlyWhenThere(EventsOf(rounds), FeedRaised);
    SaturatedExactlyAtTheTarget(stage, rounds);
  }

  /** No earlier round of a phase was its last allowed one, ended at the target share, on a feed error or with too
      many failures in a row, or left every dojo quarantined. */
  lemma NoEarlierRoundEndsThePhase(stage: Stage, rounds: seq<Round>, n: nat)
    requires ValidStage(stage) && AreRounds(stage, rounds) && 1 <= n < |rounds|
    ensures n < stage.phase.maxRounds && rounds[n - 1].end == Ended && !TargetReached(stage, rounds[..n])
    ensures OverallStreak(EventsOf(rounds[..n])) < stage.plan.faults.maxConsecutiveFailures
    ensures exists name :: name in stage.phase.dojoNames
                           && !Quarantined(stage.plan.faults, EventsOf(rounds[..n]), name)
  {
    hide AreRounds, TargetReached;
    var earlier := rounds[..n];
    EarlierRoundsGoOn(stage, rounds, n);
    GoingOnLeavesRounds(stage, earlier);
    SaturatedExactlyAtTheTarget(stage, earlier);
  }

  lemma LastRoundOf(stage: Stage, rounds: seq<Round>)
    requires rounds != [] && AreRounds(stage, rounds)
    ensures rounds[|rounds| - 1].end == FeedFailedAtBegin <==>
            rounds[|rounds| - 1].draws != [] && stage.world.beginStops(stage.start.rounds + |rounds| - 1)
  {
    hide IsUnderDraws, IsDone, GoesOn, DrawsAreUsed, EndedAs, EventsOf, AskedIn, Attempts, Unsaturated;
  }

  lemma GivesUpAndQuarantined(stage: Stage, rounds: seq<Round>)
    ensures GivesUp(stage, rounds) <==>
            OverallStreak(EventsOf(rounds)) >= stage.plan.faults.maxConsecutiveFailures
    ensures AllQuarantined(stage, rounds) <==>
            forall name :: name in stage.phase.dojoNames ==> Quarantined(stage.plan.faults, EventsOf(rounds), name)
  {
  }
}
