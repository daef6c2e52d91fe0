/** What the rounds and phases of a training run must be, given everything the loop does not decide. */
module TrainingRounds {
  import opened TrainingEvents
  import opened TrainingParts
  import opened Wrappers

  datatype Phase = Phase(dojoNames: seq<Name>, stepsPerRound: nat, maxRounds: nat, targetSaturated: real)

  datatype Plan = Plan(phases: seq<Phase>, faults: FaultPolicy, fp16: bool, initialScale: real)

  predicate ValidPhase(phase: Phase) {
    phase.stepsPerRound >= 1 && phase.maxRounds >= 1 && phase.dojoNames != []
  }

  predicate ValidPlan(plan: Plan) {
    plan.phases != [] && (forall p :: 0 <= p < |plan.phases| ==> ValidPhase(plan.phases[p]))
    && ValidPolicy(plan.faults) && plan.initialScale > 0.0
  }

  function DojosOf(phase: Phase): set<Name> {
    set name | name in phase.dojoNames
  }

  function StepsIn(phase: Phase, rounds: nat): nat {
    rounds * phase.stepsPerRound
  }

  function MaxSteps(phase: Phase): nat {
    StepsIn(phase, phase.maxRounds)
  }

  lemma RoundFits(phase: Phase, rounds: nat)
    requires rounds <= phase.maxRounds
    ensures StepsIn(phase, rounds) <= MaxSteps(phase)
    ensures StepsIn(phase, rounds + 1) == StepsIn(phase, rounds) + phase.stepsPerRound
  {
    assert rounds * phase.stepsPerRound <= phase.maxRounds * phase.stepsPerRound;
  }

  /** What one step attempt meets: the feed's worker gone, an error of the dojo's own, no usable baseline,
      an error in the forward or backward pass (a non-finite loss, out of memory), or its gradients. */
  datatype StepEvent = WorkerStops | BatchRaises | NoBaseline | StepRaises | Gradients(finite: bool)

  /** All that the loop does not decide: each attempt's event, each draw of the sampler over the active
      dojos (None if it raises), whether the worker is gone when the n-th round begins, and the dojos
      saturated once n rounds are done. */
  datatype World = World(step: nat -> StepEvent, draw: (nat, seq<Name>, nat) -> Option<seq<Name>>,
                         beginStops: nat -> bool, saturated: nat -> set<Name>)

  /** A sampler draws as many names as asked, each of an active dojo. */
  ghost predicate ValidWorld(world: World) {
    forall k, active, steps :: world.draw(k, active, steps).Some? && active != [] && steps >= 1 ==>
      IsDrawOf(world.draw(k, active, steps).value, active, steps)
  }

  ghost predicate IsDrawOf(names: seq<Name>, active: seq<Name>, steps: nat) {
    |names| == steps && forall i :: 0 <= i < steps ==> names[i] in active
  }

  /** True of every direct feed. */
  ghost predicate WorkerNeverStops(world: World) {
    && (forall k :: world.step(k) != WorkerStops)
    && forall k :: !world.beginStops(k)
  }

  /** How much of each of the world's answers has been used. */
  datatype Clock = Clock(draws: nat, attempts: nat, rounds: nat)

  /** A phase of a plan in a world, and the clock when it starts. */
  datatype Stage = Stage(plan: Plan, world: World, phase: Phase, start: Clock)

  ghost predicate ValidStage(stage: Stage) {
    ValidPlan(stage.plan) && ValidWorld(stage.world) && ValidPhase(stage.phase)
  }

  // ----- each attempt ends as the world has it

  function EndingOf(event: StepEvent, fp16: bool, scale: Scale): Ending {
    match event
    case WorkerStops => FeedRaised
    case BatchRaises => Failed
    case NoBaseline => BaselineSkipped
    case StepRaises => Failed
    case Gradients(finite) =>
      if finite then Stepped
      else if fp16 && scale.value > MIN_LOSS_SCALE then OverflowSkipped
      else Failed
  }

  function ScaleAfter(event: StepEvent, fp16: bool, scale: Scale): Scale {
    if fp16 && event.Gradients? then AfterScaledStep(scale, event.finite) else scale
  }

  /** The phase's loss scale once these are its events. */
  function ScaleNow(stage: Stage, events: seq<Event>): Scale {
    if events == [] then Scale(stage.plan.initialScale, 0)
    else
      var front, last := events[..|events| - 1], events[|events| - 1];
      if last.Attempted? then ScaleAfter(NextEvent(stage, front), stage.plan.fp16, ScaleNow(stage, front))
      else ScaleNow(stage, front)
  }

  function NextEvent(stage: Stage, events: seq<Event>): StepEvent {
    stage.world.step(stage.start.attempts + Attempts(events))
  }

  predicate IsAnswered(stage: Stage, front: seq<Event>, event: Event) {
    event.Attempted? ==>
      event.lossScale == ScaleNow(stage, front).value
      && event.ending == EndingOf(NextEvent(stage, front), stage.plan.fp16, ScaleNow(stage, front))
  }

  /** Every attempt of the phase began at the scale the earlier ones left and ended as its own event says. */
  predicate AreAnswered(stage: Stage, events: seq<Event>)
    decreases |events|
  {
    events != [] ==> AreAnswered(stage, events[..|events| - 1])
                     && IsAnswered(stage, events[..|events| - 1], events[|events| - 1])
  }

  lemma OneMoreAnswered(stage: Stage, events: seq<Event>, event: Event)
    requires AreAnswered(stage, events) && IsAnswered(stage, events, event)
    ensures AreAnswered(stage, events + [event])
    ensures ScaleNow(stage, events + [event]) ==
            if event.Attempted? then ScaleAfter(NextEvent(stage, events), stage.plan.fp16, ScaleNow(stage, events))
            else ScaleNow(stage, events)
  {
    DropLast(events, event);
  }

  lemma {:induction false} ScaleStaysPositive(stage: Stage, events: seq<Event>)
    requires stage.plan.initialScale > 0.0
    ensures ScaleNow(stage, events).value > 0.0
    decreases |events|
  {
    if events != [] {
      ScaleStaysPositive(stage, events[..|events| - 1]);
    }
  }

  lemma {:induction false} ScaleStaysAPowerOfTwo(stage: Stage, events: seq<Event>)
    requires IsPowerOfTwo(stage.plan.initialScale)
    ensures IsPowerOfTwo(ScaleNow(stage, events).value) && ScaleNow(stage, events).value >= MIN_LOSS_SCALE
    decreases |events|
  {
    if events == [] {
      var k: nat :| stage.plan.initialScale == PowerOfTwo(k);
    } else {
      var front := events[..|events| - 1];
      ScaleStaysAPowerOfTwo(stage, front);
      var event := NextEvent(stage, front);
      StepKeepsPowersOfTwo(ScaleNow(stage, front), event.Gradients? && event.finite);
    }
  }

  /** From a power-of-two first scale, every attempt of a phase begins at or above the floor. */
  lemma {:induction false} AttemptsKeepTheFloor(stage: Stage, events: seq<Event>, i: nat)
    requires AreAnswered(stage, events) && IsPowerOfTwo(stage.plan.initialScale)
    requires i < |events| && events[i].Attempted?
    ensures events[i].lossScale >= MIN_LOSS_SCALE
    decreases |events|
  {
    var front := events[..|events| - 1];
    if i < |front| {
      assert front[i] == events[i];
      AttemptsKeepTheFloor(stage, front, i);
    } else {
      ScaleStaysAPowerOfTwo(stage, front);
    }
  }

  // ----- a round's schedule and what was attempted under it

  /** A schedule drawn before the round's step `at`, for all its remaining steps, from the dojos then active. */
  datatype Draw = Draw(at: nat, active: seq<Name>, names: seq<Name>)

  /** How a round ended: its steps (or no schedule to draw, or too many failures), or a feed error. */
  datatype RoundEnd = Ended | FeedFailedAtBegin | FeedFailedAtStep

  datatype Round = Round(draws: seq<Draw>, events: seq<Event>, end: RoundEnd)

  /** The clock, the tracker's active dojos and the phase's events when a round begins. */
  datatype RoundStart = RoundStart(clock: Clock, tracked: seq<Name>, before: seq<Event>)

  /** The dojos active once the round has had these events. */
  function Active(stage: Stage, start: RoundStart, added: seq<Event>): seq<Name> {
    ActiveNames(stage.plan.faults, start.tracked, start.before + added)
  }

  /** The round's schedules are the sampler's own next draws: the first at step 0, a later one only where the
      active dojos have changed. */
  ghost predicate AreDraws(stage: Stage, start: RoundStart, draws: seq<Draw>) {
    && (draws != [] ==> draws[0].at == 0 && draws[0].active == Active(stage, start, []))
    && (forall d :: 0 <= d < |draws| ==> IsSamplersDraw(stage, start.clock.draws + d, draws[d]))
    && forall c, d :: 0 <= c < d < |draws| ==>
         draws[c].at < draws[d].at && (d == c + 1 ==> draws[c].active != draws[d].active)
  }

  ghost predicate IsSamplersDraw(stage: Stage, k: nat, draw: Draw) {
    && draw.active != [] && draw.at < stage.phase.stepsPerRound
    && stage.world.draw(k, draw.active, stage.phase.stepsPerRound - draw.at) == Some(draw.names)
  }

  /** The latest draw made at or before step i. */
  function CurrentDraw(draws: seq<Draw>, i: nat): Draw
    requires draws != []
  {
    var last := |draws| - 1;
    if last == 0 || draws[last].at <= i then draws[last] else CurrentDraw(draws[..last], i)
  }

  lemma CurrentDrawStep(draws: seq<Draw>, draw: Draw, i: nat)
    requires draws != []
    ensures CurrentDraw(draws + [draw], i) == if draw.at <= i then draw else CurrentDraw(draws, i)
  {
    assert (draws + [draw])[..|draws|] == draws;
  }

  /** Step i of the round attempted the dojo its current schedule names for step i. */
  ghost predicate FollowsSchedule(draws: seq<Draw>, attempt: Event, i: nat) {
    && draws != [] && attempt.Attempted?
    && CurrentDraw(draws, i).at <= i < CurrentDraw(draws, i).at + |CurrentDraw(draws, i).names|
    && attempt.name == CurrentDraw(draws, i).names[i - CurrentDraw(draws, i).at]
    && attempt.active == CurrentDraw(draws, i).active
  }

  /** The sampler, due for a draw at step i, raised. */
  ghost predicate SamplerRaises(stage: Stage, start: RoundStart, draws: seq<Draw>, active: seq<Name>, i: nat) {
    && i < stage.phase.stepsPerRound && (draws != [] ==> draws[|draws| - 1].active != active)
    && stage.world.draw(start.clock.draws + |draws|, active, stage.phase.stepsPerRound - i) == None
  }

  /** Event i of the round: the scheduled attempt, with the schedule drawn from the dojos now active, or the
      sampler's failure. */
  ghost predicate IsDue(stage: Stage, start: RoundStart, draws: seq<Draw>, added: seq<Event>, i: nat)
    requires i < |added|
  {
    if added[i].SamplerFailed? then SamplerRaises(stage, start, draws, Active(stage, start, added[..i]), i)
    else FollowsSchedule(draws, added[i], i) && added[i].active == Active(stage, start, added[..i])
  }

  /** Nothing is left to do in the round: all steps taken, the sampler or the feed failed, too many failures,
      or no dojo active. */
  ghost predicate IsDone(stage: Stage, start: RoundStart, added: seq<Event>) {
    || |added| >= stage.phase.stepsPerRound
    || (added != [] && (added[|added| - 1].SamplerFailed? || EndedAs(added[|added| - 1], FeedRaised)
                        || GaveUp(stage.plan.faults, start.before + added)))
    || Active(stage, start, added) == []
  }

  /** The round so far: the sampler's own draws, every event due, and never done before. */
  ghost predicate IsUnderDraws(stage: Stage, start: RoundStart, draws: seq<Draw>, added: seq<Event>) {
    && AreDraws(stage, start, draws)
    && (forall i :: 0 <= i < |added| ==> !IsDone(stage, start, added[..i]))
    && forall i :: 0 <= i < |added| ==> IsDue(stage, start, draws, added, i)
  }

  /** Every schedule was attempted at the step it was drawn for. */
  ghost predicate DrawsAreUsed(draws: seq<Draw>, added: seq<Event>) {
    forall d :: 0 <= d < |draws| ==> IsUsed(draws, added, d)
  }

  predicate IsUsed(draws: seq<Draw>, added: seq<Event>, d: nat) {
    d < |draws| && draws[d].at < |added| && added[draws[d].at].Attempted?
  }

  /** A whole round: it goes on exactly until it is done, or ends where the feed would not begin. */
  ghost predicate IsRound(stage: Stage, start: RoundStart, round: Round) {
    && IsUnderDraws(stage, start, round.draws, round.events)
    && if round.end == FeedFailedAtBegin
       then round.events == [] && |round.draws| == 1 && stage.world.beginStops(start.clock.rounds)
       else
         && IsDone(stage, start, round.events) && DrawsAreUsed(round.draws, round.events)
         && (round.draws != [] ==> !stage.world.beginStops(start.clock.rounds))
         && (round.end == FeedFailedAtStep <==>
             round.events != [] && EndedAs(round.events[|round.events| - 1], FeedRaised))
  }

  // ----- a phase's rounds

  function EventsOf(rounds: seq<Round>): seq<Event> {
    if rounds == [] then [] else EventsOf(rounds[..|rounds| - 1]) + rounds[|rounds| - 1].events
  }

  /** How often the round asked its sampler. */
  function Asked(round: Round): nat {
    |round.draws| + (if round.events != [] && round.events[|round.events| - 1].SamplerFailed? then 1 else 0)
  }

  function AskedIn(rounds: seq<Round>): nat {
    if rounds == [] then 0 else AskedIn(rounds[..|rounds| - 1]) + Asked(rounds[|rounds| - 1])
  }

  function ClockAfter(start: Clock, rounds: seq<Round>): Clock {
    Clock(start.draws + AskedIn(rounds), start.attempts + Attempts(EventsOf(rounds)), start.rounds + |rounds|)
  }

  /** The dojos saturated after this many of the phase's rounds. */
  function SaturatedAfter(stage: Stage, rounds: nat): set<Name> {
    if rounds == 0 then {} else stage.world.saturated(stage.start.rounds + rounds)
  }

  function StartAfter(stage: Stage, rounds: seq<Round>): RoundStart {
    RoundStart(ClockAfter(stage.start, rounds), Unsaturated(stage.phase.dojoNames, SaturatedAfter(stage, |rounds|)),
               EventsOf(rounds))
  }

  ghost predicate GivesUp(stage: Stage, rounds: seq<Round>) {
    GaveUp(stage.plan.faults, EventsOf(rounds))
  }

  function QuarantinedNames(stage: Stage, events: seq<Event>): set<Name> {
    set name | name in stage.phase.dojoNames && Quarantined(stage.plan.faults, events, name)
  }

  ghost predicate AllQuarantined(stage: Stage, rounds: seq<Round>) {
    forall name :: name in stage.phase.dojoNames ==> Quarantined(stage.plan.faults, EventsOf(rounds), name)
  }

  /** Enough of the phase's dojos are saturated, a quarantined one counting as saturated. */
  predicate IsSaturated(stage: Stage, rounds: seq<Round>) {
    EnoughSaturated(stage.phase.dojoNames, SaturatedAfter(stage, |rounds|) + QuarantinedNames(stage, EventsOf(rounds)),
                    stage.phase.targetSaturated)
  }

  /** No reason to stop after these rounds but their number. */
  ghost predicate NothingStops(stage: Stage, rounds: seq<Round>)
    requires rounds != []
  {
    && rounds[|rounds| - 1].end == Ended && !GivesUp(stage, rounds) && !AllQuarantined(stage, rounds)
    && !IsSaturated(stage, rounds)
  }

  ghost predicate GoesOn(stage: Stage, rounds: seq<Round>)
    requires rounds != []
  {
    NothingStops(stage, rounds) && |rounds| < stage.phase.maxRounds
  }

  /** Rounds that follow one another, each left only with no reason to stop. */
  ghost predicate AreRounds(stage: Stage, rounds: seq<Round>)
    decreases |rounds|
  {
    rounds != [] ==>
      var front := rounds[..|rounds| - 1];
      && AreRounds(stage, front) && (front != [] ==> GoesOn(stage, front))
      && IsRound(stage, StartAfter(stage, front), rounds[|rounds| - 1])
  }

  datatype StopReason = TooManyFailures | EveryDojoQuarantined | FeedFailedAtRoundStart | FeedFailedOnAStep

  /** Why a phase stops after these rounds; None ends the phase and not the run. */
  ghost predicate StopsFor(stage: Stage, rounds: seq<Round>, reason: Option<StopReason>)
    requires rounds != []
  {
    var end := rounds[|rounds| - 1].end;
    && (reason == Some(FeedFailedAtRoundStart) <==> end == FeedFailedAtBegin)
    && (reason == Some(FeedFailedOnAStep) <==> end == FeedFailedAtStep)
    && (reason == Some(TooManyFailures) <==> end == Ended && GivesUp(stage, rounds))
    && (reason == Some(EveryDojoQuarantined) <==>
        end == Ended && !GivesUp(stage, rounds) && AllQuarantined(stage, rounds))
    && (reason == None ==> IsSaturated(stage, rounds) || |rounds| == stage.phase.maxRounds)
  }

  /** A whole phase, stopped for this reason. */
  ghost predicate IsPhase(stage: Stage, rounds: seq<Round>, reason: Option<StopReason>) {
    && rounds != [] && AreRounds(stage, rounds) && StopsFor(stage, rounds, reason)
    && AreAnswered(stage, EventsOf(rounds))
  }

  // ----- a run's phases

  function AllEvents(phases: seq<seq<Round>>): seq<Event> {
    if phases == [] then [] else AllEvents(phases[..|phases| - 1]) + EventsOf(phases[|phases| - 1])
  }

  function ClockAfterPhases(phases: seq<seq<Round>>): Clock {
    if phases == [] then Clock(0, 0, 0) else ClockAfter(ClockAfterPhases(phases[..|phases| - 1]), phases[|phases| - 1])
  }

  /** The plan's phase that follows these. */
  function NextStage(plan: Plan, world: World, phases: seq<seq<Round>>): Stage
    requires |phases| < |plan.phases|
  {
    Stage(plan, world, plan.phases[|phases|], ClockAfterPhases(phases))
  }

  /** The plan's first phases, in order, each ended without a reason to stop the run. */
  ghost predicate ArePhases(plan: Plan, world: World, phases: seq<seq<Round>>)
    decreases |phases|
  {
    phases != [] ==>
      var front := phases[..|phases| - 1];
      && ArePhases(plan, world, front) && |front| < |plan.phases|
      && IsPhase(NextStage(plan, world, front), phases[|phases| - 1], None)
  }

  /** A whole run: the last phase begun is the plan's last, or gave the reason. */
  ghost predicate IsRun(plan: Plan, world: World, phases: seq<seq<Round>>, reason: Option<StopReason>) {
    && phases != []
    && var front := phases[..|phases| - 1];
       && ArePhases(plan, world, front) && |front| < |plan.phases|
       && IsPhase(NextStage(plan, world, front), phases[|phases| - 1], reason)
       && (reason == None ==> |phases| == |plan.phases|)
  }

  // ----- the budget

  lemma RoundHasAtMostItsSteps(stage: Stage, start: RoundStart, round: Round)
    requires IsRound(stage, start, round)
    ensures Attempts(round.events) <= |round.events| <= stage.phase.stepsPerRound
  {
    AttemptsAreEvents(round.events);
    if round.events != [] {
      assert !IsDone(stage, start, round.events[..|round.events| - 1]);
    }
  }

  lemma {:induction false} AttemptsAreEvents(events: seq<Event>)
    ensures Attempts(events) <= |events|
  {
    if events != [] {
      AttemptsAreEvents(events[..|events| - 1]);
    }
  }

  /** A phase attempts at most maxRounds * stepsPerRound steps. */
  lemma PhaseStaysWithinBudget(stage: Stage, rounds: seq<Round>)
    requires AreRounds(stage, rounds) && ValidPhase(stage.phase)
    ensures |rounds| <= stage.phase.maxRounds && Attempts(EventsOf(rounds)) <= MaxSteps(stage.phase)
    ensures MaxSteps(stage.phase) == stage.phase.maxRounds * stage.phase.stepsPerRound
  {
    AttemptsPerRound(stage, rounds);
    hide AreRounds, StepsIn;
    RoundFits(stage.phase, |rounds|);
    BudgetIsTheProduct(stage.phase);
  }

  lemma BudgetIsTheProduct(phase: Phase)
    ensures MaxSteps(phase) == phase.maxRounds * phase.stepsPerRound
  {
  }

  lemma {:induction false} AttemptsPerRound(stage: Stage, rounds: seq<Round>)
    requires AreRounds(stage, rounds) && ValidPhase(stage.phase)
    ensures |rounds| <= stage.phase.maxRounds && Attempts(EventsOf(rounds)) <= StepsIn(stage.phase, |rounds|)
    decreases |rounds|
  {
    if rounds != [] {
      hide IsRound, GoesOn, StepsIn, MaxSteps;
      var front, last := rounds[..|rounds| - 1], rounds[|rounds| - 1];
      AttemptsPerRound(stage, front);
      RoundHasAtMostItsSteps(stage, StartAfter(stage, front), last);
      CountsConcat(EventsOf(front), last.events, Stepped);
      if front != [] {
        GoingOnLeavesRounds(stage, front);
      }
      RoundFits(stage.phase, |front|);
    }
  }

  lemma GoingOnLeavesRounds(stage: Stage, rounds: seq<Round>)
    requires rounds != [] && GoesOn(stage, rounds)
    ensures |rounds| < stage.phase.maxRounds && rounds[|rounds| - 1].end == Ended
  {
  }

  // ----- feed errors

  lemma {:induction false} NoFeedErrors(events: seq<Event>)
    requires forall i :: 0 <= i < |events| ==> !EndedAs(events[i], FeedRaised)
    ensures CountOf(events, FeedRaised) == 0
  {
    if events != [] {
      NoFeedErrors(events[..|events| - 1]);
    }
  }

  /** A round holds a feed error exactly when one ended it on a step. */
  lemma RoundFeedErrors(stage: Stage, start: RoundStart, round: Round)
    requires IsRound(stage, start, round)
    ensures CountOf(round.events, FeedRaised) == if round.end == FeedFailedAtStep then 1 else 0
  {
    var events := round.events;
    if events != [] {
      var front := events[..|events| - 1];
      forall i | 0 <= i < |front| ensures !EndedAs(front[i], FeedRaised) {
        assert !IsDone(stage, start, events[..i + 1]);
        assert events[..i + 1][i] == front[i];
      }
      NoFeedErrors(front);
    }
  }

  lemma {:induction false} EarlierRoundsHaveNoFeedError(stage: Stage, rounds: seq<Round>)
    requires AreRounds(stage, rounds) && (rounds != [] ==> rounds[|rounds| - 1].end != FeedFailedAtStep)
    ensures CountOf(EventsOf(rounds), FeedRaised) == 0
    decreases |rounds|
  {
    if rounds != [] {
      hide IsRound, GoesOn;
      var front, last := rounds[..|rounds| - 1], rounds[|rounds| - 1];
      if front != [] {
        GoingOnLeavesRounds(stage, front);
      }
      EarlierRoundsHaveNoFeedError(stage, front);
      RoundFeedErrors(stage, StartAfter(stage, front), last);
      CountsConcat(EventsOf(front), last.events, FeedRaised);
    }
  }

  lemma PhaseFeedErrors(stage: Stage, rounds: seq<Round>, reason: Option<StopReason>)
    requires IsPhase(stage, rounds, reason)
    ensures CountOf(EventsOf(rounds), FeedRaised) == if reason == Some(FeedFailedOnAStep) then 1 else 0
  {
    hide IsRound, GoesOn, GivesUp, AllQuarantined, IsSaturated;
    var front, last := rounds[..|rounds| - 1], rounds[|rounds| - 1];
    if front != [] {
      GoingOnLeavesRounds(stage, front);
    }
    EarlierRoundsHaveNoFeedError(stage, front);
    RoundFeedErrors(stage, StartAfter(stage, front), last);
    CountsConcat(EventsOf(front), last.events, FeedRaised);
  }

  lemma {:induction false} EarlierPhasesHaveNoFeedError(plan: Plan, world: World, phases: seq<seq<Round>>)
    requires ArePhases(plan, world, phases)
    ensures CountOf(AllEvents(phases), FeedRaised) == 0
    decreases |phases|
  {
    if phases != [] {
      hide IsPhase;
      var front, last := phases[..|phases| - 1], phases[|phases| - 1];
      EarlierPhasesHaveNoFeedError(plan, world, front);
      PhaseFeedErrors(NextStage(plan, world, front), last, None);
      CountsConcat(AllEvents(front), EventsOf(last), FeedRaised);
    }
  }

  /** Every attempt of a run was a step taken, a skip or a recorded failure, but for one that met the feed
      error that ended the run. */
  lemma RunIsAccountedFor(plan: Plan, world: World, phases: seq<seq<Round>>, reason: Option<StopReason>)
    requires IsRun(plan, world, phases, reason)
    ensures var events := AllEvents(phases);
            Attempts(events) == CountOf(events, Stepped) + CountOf(events, OverflowSkipped)
                                + CountOf(events, BaselineSkipped) + CountOf(events, Failed)
                                + (if reason == Some(FeedFailedOnAStep) then 1 else 0)
  {
    hide IsPhase;
    var front, last := phases[..|phases| - 1], phases[|phases| - 1];
    EarlierPhasesHaveNoFeedError(plan, world, front);
    PhaseFeedErrors(NextStage(plan, world, front), last, reason);
    CountsConcat(AllEvents(front), EventsOf(last), FeedRaised);
    AttemptsAreAccountedFor(AllEvents(phases));
  }

  // ----- a direct feed

  lemma {:induction false} NoWorkerNoFeedError(stage: Stage, events: seq<Event>)
    requires AreAnswered(stage, events) && WorkerNeverStops(stage.world)
    ensures CountOf(events, FeedRaised) == 0
    decreases |events|
  {
    if events != [] {
      NoWorkerNoFeedError(stage, events[..|events| - 1]);
    }
  }

  /** A feed whose worker never stops never ends a phase. */
  lemma DirectFeedNeverStopsThePhase(stage: Stage, rounds: seq<Round>, reason: Option<StopReason>)
    requires IsPhase(stage, rounds, reason) && WorkerNeverStops(stage.world)
    ensures reason != Some(FeedFailedOnAStep) && reason != Some(FeedFailedAtRoundStart)
  {
    PhaseFeedErrors(stage, rounds, reason);
    NoWorkerNoFeedError(stage, EventsOf(rounds));
  }

  // ----- safety of every attempt

  lemma {:induction false} CurrentDrawIsOneOfThem(draws: seq<Draw>, i: nat) returns (d: nat)
    requires draws != []
    ensures d < |draws| && draws[d] == CurrentDraw(draws, i)
  {
    var last := |draws| - 1;
    if last == 0 || draws[last].at <= i {
      d := last;
    } else {
      d := CurrentDrawIsOneOfThem(draws[..last], i);
    }
  }

  /** A due attempt is of a tracked dojo, active and not quarantined. */
  lemma DueAttemptIsAllowed(stage: Stage, start: RoundStart, draws: seq<Draw>, added: seq<Event>, i: nat)
    requires ValidWorld(stage.world) && AreDraws(stage, start, draws)
    requires i < |added| && added[i].Attempted? && IsDue(stage, start, draws, added, i)
    ensures added[i].name in added[i].active && added[i].name in start.tracked
    ensures !Quarantined(stage.plan.faults, start.before + added[..i], added[i].name)
  {
    var d := CurrentDrawIsOneOfThem(draws, i);
    assert IsSamplersDraw(stage, start.clock.draws + d, draws[d]);
    ActiveNamesAreNotQuarantined(stage.plan.faults, start.tracked, start.before + added[..i], added[i].name);
  }

  lemma RoundIsAllowed(stage: Stage, start: RoundStart, round: Round, names: set<Name>)
    requires ValidWorld(stage.world) && IsRound(stage, start, round)
    requires forall name :: name in start.tracked ==> name in names
    requires EveryAttemptAllowed(stage.plan.faults, start.before) && AttemptsOnly(names, start.before)
    ensures EveryAttemptAllowed(stage.plan.faults, start.before + round.events)
    ensures AttemptsOnly(names, start.before + round.events)
  {
    hide AreDraws, IsDue, IsDone, Quarantined;
    var before, added, all := start.before, round.events, start.before + round.events;
    forall i | 0 <= i < |all| && all[i].Attempted?
      ensures all[i].name in all[i].active && all[i].name in names
      ensures !Quarantined(stage.plan.faults, all[..i], all[i].name)
    {
      if i < |before| {
        assert all[..i] == before[..i];
      } else {
        var j := i - |before|;
        assert all[..i] == before + added[..j] && all[i] == added[j];
        DueAttemptIsAllowed(stage, start, round.draws, added, j);
      }
    }
  }

  lemma {:induction false} RoundsAreAllowed(stage: Stage, rounds: seq<Round>)
    requires ValidWorld(stage.world) && AreRounds(stage, rounds)
    ensures EveryAttemptAllowed(stage.plan.faults, EventsOf(rounds))
    ensures AttemptsOnly(DojosOf(stage.phase), EventsOf(rounds))
    decreases |rounds|
  {
    if rounds != [] {
      hide IsRound, GoesOn, EveryAttemptAllowed, AttemptsOnly;
      var front, start := rounds[..|rounds| - 1], StartAfter(stage, rounds[..|rounds| - 1]);
      RoundsAreAllowed(stage, front);
      forall name ensures name in start.tracked ==> name in stage.phase.dojoNames {
        UnsaturatedAreTheRest(stage.phase.dojoNames, SaturatedAfter(stage, |front|), name);
      }
      RoundIsAllowed(stage, start, rounds[|rounds| - 1], DojosOf(stage.phase));
    }
  }

  /** A phase's events: every attempt on one of its dojos, active and not quarantined; within the step budget;
      above the loss-scale floor if the first scale is a power of two. */
  ghost predicate IsSafe(plan: Plan, phase: Phase, events: seq<Event>) {
    && EveryAttemptAllowed(plan.faults, events) && AttemptsOnly(DojosOf(phase), events)
    && Attempts(events) <= MaxSteps(phase)
    && (IsPowerOfTwo(plan.initialScale) ==>
          forall i :: 0 <= i < |events| && events[i].Attempted? ==> events[i].lossScale >= MIN_LOSS_SCALE)
  }

  lemma PhaseIsSafe(stage: Stage, rounds: seq<Round>, reason: Option<StopReason>)
    requires ValidStage(stage) && IsPhase(stage, rounds, reason)
    ensures IsSafe(stage.plan, stage.phase, EventsOf(rounds))
  {
    hide AreRounds, StopsFor, AreAnswered, EveryAttemptAllowed, AttemptsOnly, IsPowerOfTwo, MaxSteps, EventsOf;
    var events := EventsOf(rounds);
    RoundsAreAllowed(stage, rounds);
    PhaseStaysWithinBudget(stage, rounds);
    if IsPowerOfTwo(stage.plan.initialScale) {
      forall i | 0 <= i < |events| && events[i].Attempted? ensures events[i].lossScale >= MIN_LOSS_SCALE {
        AttemptsKeepTheFloor(stage, events, i);
      }
    }
  }

  lemma {:induction false} PhasesAreSafe(plan: Plan, world: World, phases: seq<seq<Round>>, p: nat)
    requires ValidPlan(plan) && ValidWorld(world) && ArePhases(plan, world, phases) && p < |phases| <= |plan.phases|
    ensures IsSafe(plan, plan.phases[p], EventsOf(phases[p]))
    decreases |phases|
  {
    hide IsPhase, IsSafe;
    var front := phases[..|phases| - 1];
    if p < |front| {
      PhasesAreSafe(plan, world, front, p);
    } else {
      PhaseIsSafe(NextStage(plan, world, front), phases[p], None);
    }
  }

  /** Every phase of a whole run is safe. */
  lemma RunIsSafe(plan: Plan, world: World, phases: seq<seq<Round>>, reason: Option<StopReason>, p: nat)
    requires ValidPlan(plan) && ValidWorld(world) && IsRun(plan, world, phases, reason) && p < |phases|
    ensures |phases| <= |plan.phases| && IsSafe(plan, plan.phases[p], EventsOf(phases[p]))
  {
    hide IsPhase, IsSafe;
    var front := phases[..|phases| - 1];
    if p < |front| {
      PhasesAreSafe(plan, world, front, p);
    } else {
      PhaseIsSafe(NextStage(plan, world, front), phases[p], reason);
    }
  }
}
