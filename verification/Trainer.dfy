/** The training loop: phases, rounds on a drawn schedule, and step attempts that recover from failures. */
module Trainer {
  import opened Sequences
  import opened TrainingEvents
  import opened TrainingParts
  import opened TrainingRounds
  import opened Wrappers

  /** One phase's mutable machinery. */
  class PhaseRun {
    const phase: Phase
    const tracker: SaturationTracker
    const feed: BatchFeed
    const faults: DojoFaultLedger
    const scaler: GradScaler
    var stepAttempts: nat
    ghost const stage: Stage
    ghost const earlier: seq<Event>
    ghost var events: seq<Event>

    constructor (tracker: SaturationTracker, feed: BatchFeed, faults: DojoFaultLedger, scaler: GradScaler,
                 phase: Phase, ghost stage: Stage, ghost earlier: seq<Event>)
      ensures this.phase == phase && this.tracker == tracker && this.feed == feed && this.faults == faults
      ensures this.scaler == scaler && this.stage == stage && this.earlier == earlier
      ensures stepAttempts == 0 && events == []
    {
      this.phase, this.tracker, this.feed, this.faults, this.scaler := phase, tracker, feed, faults, scaler;
      this.stage, this.earlier, stepAttempts, events := stage, earlier, 0, [];
    }
  }

  /** The counters of these events, with the skips counted from event `reported` on. */
  ghost predicate AreCounters(history: seq<Event>, reported: nat, attempted: nat, taken: nat, overflows: nat,
                              baselines: nat)
  {
    && attempted == Attempts(history) && taken == CountOf(history, Stepped)
    && reported <= |history|
    && overflows == CountOf(history[reported..], OverflowSkipped)
    && baselines == CountOf(history[reported..], BaselineSkipped)
  }

  lemma OneMoreCounted(history: seq<Event>, event: Event, reported: nat, attempted: nat, taken: nat, overflows: nat,
                       baselines: nat)
    requires AreCounters(history, reported, attempted, taken, overflows, baselines)
    ensures AreCounters(history + [event], reported, attempted + (if event.Attempted? then 1 else 0),
                        taken + (if EndedAs(event, Stepped) then 1 else 0),
                        overflows + (if EndedAs(event, OverflowSkipped) then 1 else 0),
                        baselines + (if EndedAs(event, BaselineSkipped) then 1 else 0))
  {
    assert (history + [event])[reported..] == history[reported..] + [event];
    CountsStep(history, event, Stepped);
    CountsStep(history[reported..], event, OverflowSkipped);
    CountsStep(history[reported..], event, BaselineSkipped);
  }

  class Trainer {
    const plan: Plan
    const world: World
    var rng: nat
    var stepsTaken: nat
    var stepsAttempted: nat
    var fp16Overflow: nat
    var unusableBaseline: nat
    var rounds: nat
    ghost var history: seq<Event>
    ghost var reported: nat

    constructor (plan: Plan, world: World)
      requires ValidPlan(plan) && ValidWorld(world)
      ensures this.plan == plan && this.world == world && CountersMatch()
      ensures history == [] && reported == 0 && Now() == Clock(0, 0, 0)
    {
      this.plan, this.world, rng, stepsTaken, stepsAttempted := plan, world, 0, 0, 0;
      fp16Overflow, unusableBaseline, rounds, history, reported := 0, 0, 0, [], 0;
    }

    ghost predicate CountersMatch()
      reads this
    {
      && ValidPlan(plan) && ValidWorld(world)
      && AreCounters(history, reported, stepsAttempted, stepsTaken, fp16Overflow, unusableBaseline)
    }

    ghost function Now(): Clock
      reads this
    {
      Clock(rng, stepsAttempted, rounds)
    }

    /** The phase's ledger, scaler and attempt count are those of its events, each as the world answered it. */
    ghost predicate Ready(run: PhaseRun)
      reads this, run, run.faults, run.scaler
    {
      && CountersMatch() && history == run.earlier + run.events
      && run.stage == Stage(plan, world, run.phase, run.stage.start) && ValidPhase(run.phase)
      && run.tracker.dojoNames == run.phase.dojoNames
      && run.stepAttempts == Attempts(run.events) && stepsAttempted == run.stage.start.attempts + run.stepAttempts
      && run.faults.policy == plan.faults && run.faults.dojoNames == DojosOf(run.phase)
      && run.faults.Reflects(run.events)
      && run.scaler.enabled == plan.fp16
      && run.scaler.scale == ScaleNow(run.stage, run.events) && AreAnswered(run.stage, run.events)
    }

    // ----- one step

    method ScaledStep(run: PhaseRun, finite: bool) returns (ending: Ending)
      requires run.scaler.enabled && run.scaler.scale.value > 0.0
      modifies this`stepsTaken, this`fp16Overflow, run.scaler
      ensures ending == EndingOf(Gradients(finite), true, old(run.scaler.scale))
      ensures run.scaler.scale == AfterScaledStep(old(run.scaler.scale), finite)
      ensures stepsTaken == old(stepsTaken) + (if ending == Stepped then 1 else 0)
      ensures fp16Overflow == old(fp16Overflow) + (if ending == OverflowSkipped then 1 else 0)
    {
      var scaleBefore := run.scaler.scale.value;
      run.scaler.Update(finite);
      if run.scaler.scale.value >= scaleBefore {
        stepsTaken := stepsTaken + 1;
        return Stepped;
      }
      if scaleBefore > MIN_LOSS_SCALE {
        fp16Overflow := fp16Overflow + 1;
        return OverflowSkipped;
      }
      run.scaler.SetScale(MIN_LOSS_SCALE);
      ending := Failed;
    }

    method TakeStep(run: PhaseRun, name: Name, event: StepEvent) returns (ending: Ending)
      requires run.scaler.enabled == plan.fp16 && run.scaler.scale.value > 0.0
      requires run.feed.pending.Some? && run.feed.pending.value != [] && run.feed.pending.value[0] == name
      modifies this`stepsTaken, this`fp16Overflow, this`unusableBaseline, run.scaler, run.feed
      ensures ending == EndingOf(event, plan.fp16, old(run.scaler.scale))
      ensures run.scaler.scale == ScaleAfter(event, plan.fp16, old(run.scaler.scale))
      ensures stepsTaken == old(stepsTaken) + (if ending == Stepped then 1 else 0)
      ensures fp16Overflow == old(fp16Overflow) + (if ending == OverflowSkipped then 1 else 0)
      ensures unusableBaseline == old(unusableBaseline) + (if ending == BaselineSkipped then 1 else 0)
      ensures run.feed.pending == if ending == FeedRaised then old(run.feed.pending)
                                  else Some(old(run.feed.pending).value[1..])
    {
      var error, batch := run.feed.NextBatch(name, if event.BatchRaises? then DojoError else Batch, event.WorkerStops?);
      if error != None {
        return FeedRaised;
      }
      if batch == DojoError {
        return Failed;
      }
      if event.NoBaseline? {
        unusableBaseline := unusableBaseline + 1;
        return BaselineSkipped;
      }
      if event.StepRaises? {
        return Failed;
      }
      if !run.scaler.enabled {
        if !event.finite {
          return Failed;
        }
        stepsTaken := stepsTaken + 1;
        return Stepped;
      }
      ending := ScaledStep(run, event.finite);
    }

    method ActiveDojos(run: PhaseRun) returns (active: seq<Name>)
      requires Ready(run)
      ensures active == ActiveNames(plan.faults, run.tracker.ActiveDojoNames(), run.events)
      ensures forall name :: name in active ==> name in run.faults.dojoNames
    {
      hide AreCounters, AreAnswered, ScaleNow, Quarantined, ValidWorld, ValidPlan, Attempts;
      var tracked := run.tracker.ActiveDojoNames();
      active := [];
      assert tracked[..|tracked|] == tracked;
      forall name ensures name in tracked ==> name in run.faults.dojoNames {
        UnsaturatedAreTheRest(run.tracker.dojoNames, run.tracker.saturated, name);
      }
      for i := 0 to |tracked|
        invariant active + ActiveNames(plan.faults, tracked[i..], run.events)
                  == ActiveNames(plan.faults, tracked, run.events)
      {
        assert tracked[i..][1..] == tracked[i + 1..];
        var rest := ActiveNames(plan.faults, tracked[i + 1..], run.events);
        LedgerKnowsQuarantine(run, tracked[i]);
        if tracked[i] !in run.faults.quarantined {
          assert active + ([tracked[i]] + rest) == (active + [tracked[i]]) + rest;
          active := active + [tracked[i]];
        }
      }
      forall name ensures name in active ==> name in run.faults.dojoNames {
        ActiveNamesAreNotQuarantined(plan.faults, tracked, run.events, name);
      }
    }

    lemma LedgerKnowsQuarantine(run: PhaseRun, name: Name)
      requires Ready(run) && name in run.faults.dojoNames
      ensures name in run.faults.quarantined <==> Quarantined(plan.faults, run.events, name)
    {
    }

    /** Record a success, recover from a failure; a skipped degenerate batch is neither. */
    method RecordEnding(run: PhaseRun, name: Name, ending: Ending, ghost before: seq<Event>, ghost attempt: Event)
      requires EndedAs(attempt, ending) && attempt.name == name
      requires name in run.faults.dojoNames && run.faults.Reflects(before)
      modifies run.faults, run.scaler
      ensures run.faults.Reflects(before + [attempt]) && run.scaler.scale == old(run.scaler.scale)
    {
      hide DojoFaultLedger.Reflects;
      if ending == FeedRaised || ending == BaselineSkipped {
        run.faults.UntouchedStillReflects(before, attempt);
      } else if ending == Failed {
        run.faults.RecordFailure(Some(name), before, attempt);
        run.scaler.SetScale(run.scaler.scale.value);
      } else {
        run.faults.RecordSuccess(name, before, attempt);
      }
    }

    /** One scheduled step: counted, taken, and its outcome recorded or recovered from. */
    method AttemptStep(run: PhaseRun, name: Name, ghost active: seq<Name>) returns (ending: Ending)
      requires Ready(run)
      requires run.feed.pending.Some? && run.feed.pending.value != [] && run.feed.pending.value[0] == name
      requires name in run.faults.dojoNames && run.stepAttempts < MaxSteps(run.phase)
      modifies this, run, run.feed, run.faults, run.scaler
      ensures Ready(run) && rng == old(rng) && rounds == old(rounds) && reported == old(reported)
      ensures ending == EndingOf(world.step(old(stepsAttempted)), plan.fp16, old(run.scaler.scale))
      ensures run.events == old(run.events) + [Attempted(name, active, old(run.scaler.scale.value), ending)]
      ensures run.stepAttempts == old(run.stepAttempts) + 1
      ensures run.feed.pending == if ending == FeedRaised then old(run.feed.pending)
                                  else Some(old(run.feed.pending).value[1..])
    {
      hide AreCounters, AreAnswered, ScaleNow, ValidWorld, ValidPlan, EndingOf, ScaleAfter;
      hide Attempts, ValidPhase, DojoFaultLedger.Reflects, MaxSteps;
      var event := world.step(stepsAttempted);
      ghost var before, past, scale := run.events, history, run.scaler.scale;
      run.stepAttempts := run.stepAttempts + 1;
      stepsAttempted := stepsAttempted + 1;
      PlanScaleIsPositive(plan);
      ScaleStaysPositive(run.stage, before);
      ending := TakeStep(run, name, event);
      ghost var attempt := Attempted(name, active, scale.value, ending);
      RecordEnding(run, name, ending, before, attempt);
      OneMoreEvent(run.earlier, before, attempt);
      OneMoreAnswered(run.stage, before, attempt);
      OneMoreCounted(past, attempt, reported, old(stepsAttempted), old(stepsTaken), old(fp16Overflow),
                     old(unusableBaseline));
      run.events, history := run.events + [attempt], history + [attempt];
    }

    // ----- one round

    /** The rest of the round's schedule; None with no active dojo, no step left, or a failing sampler. */
    method DrawSchedule(run: PhaseRun, active: seq<Name>, steps: nat) returns (schedule: Option<seq<Name>>)
      requires Ready(run)
      modifies this, run, run.faults, run.scaler
      ensures Ready(run) && reported == old(reported) && rounds == old(rounds)
      ensures run.stepAttempts == old(run.stepAttempts)
      ensures schedule == if active == [] || steps == 0 then None else world.draw(old(rng), active, steps)
      ensures schedule.Some? ==> IsDrawOf(schedule.value, active, steps)
      ensures rng == old(rng) + (if active == [] || steps == 0 then 0 else 1)
      ensures run.events == if active == [] || steps == 0 || schedule.Some? then old(run.events)
                            else old(run.events) + [SamplerFailed]
    {
      if active == [] || steps == 0 {
        return None;
      }
      schedule := world.draw(rng, active, steps);
      rng := rng + 1;
      if schedule == None {
        RecoverFromSampler(run);
      }
    }

    method RecoverFromSampler(run: PhaseRun)
      requires Ready(run)
      modifies this`history, run, run.faults, run.scaler
      ensures Ready(run) && run.stepAttempts == old(run.stepAttempts)
      ensures run.events == old(run.events) + [SamplerFailed]
    {
      hide AreCounters, AreAnswered, ScaleNow, ValidWorld, ValidPlan, Attempts, ValidPhase;
      hide DojoFaultLedger.Reflects;
      ghost var before, past := run.events, history;
      run.faults.RecordFailure(None, before, SamplerFailed);
      run.scaler.SetScale(run.scaler.scale.value);
      OneMoreEvent(run.earlier, before, SamplerFailed);
      OneMoreAnswered(run.stage, before, SamplerFailed);
      OneMoreCounted(past, SamplerFailed, reported, stepsAttempted, stepsTaken, fp16Overflow, unusableBaseline);
      run.events, history := run.events + [SamplerFailed], history + [SamplerFailed];
    }

    /** The round began at `start` and has had these draws and these attempts. */
    ghost predicate IsInRound(run: PhaseRun, start: RoundStart, draws: seq<Draw>, added: seq<Event>)
      reads this, run, run.faults, run.scaler, run.tracker
    {
      && Ready(run) && run.events == start.before + added && start.tracked == run.tracker.ActiveDojoNames()
      && IsUnderDraws(run.stage, start, draws, added) && AllAttempted(added)
      && draws != [] && rng == start.clock.draws + |draws| && !world.beginStops(start.clock.rounds)
    }

    /** The round's step `step` comes next: `names` is the feed's pending rest, drawn from the dojos still active. */
    ghost predicate IsAtStep(run: PhaseRun, start: RoundStart, draws: seq<Draw>, added: seq<Event>, names: seq<Name>,
                             active: seq<Name>, step: nat)
      reads this, run, run.faults, run.scaler, run.feed, run.tracker
    {
      && IsInRound(run, start, draws, added)
      && |added| == step <= run.phase.stepsPerRound == |names| && run.feed.pending == Some(names[step..])
      && active == draws[|draws| - 1].active && (forall name :: name in active ==> name in run.faults.dojoNames)
      && (step > 0 ==> !EndedAs(added[step - 1], FeedRaised))
      && (step < run.phase.stepsPerRound ==>
            IsUnderWay(draws, names, step) && !IsDone(run.stage, start, added)
            && active == Active(run.stage, start, added))
    }

    /** The round that began at `start` is over, and its draws are the rng's. */
    ghost predicate IsRoundOver(run: PhaseRun, start: RoundStart, round: Round)
      reads this, run, run.faults, run.scaler
    {
      && Ready(run) && run.events == start.before + round.events && IsRound(run.stage, start, round)
      && rng == start.clock.draws + Asked(round)
    }

    /** Redraw the rest of the round from the dojos now active. `next` is the step to come. */
    method RedrawRest(run: PhaseRun, names: seq<Name>, stillActive: seq<Name>, next: nat,
                      ghost start: RoundStart, ghost draws: seq<Draw>, ghost added: seq<Event>)
      returns (over: bool, newNames: seq<Name>, ghost newDraws: seq<Draw>, ghost round: Round)
      requires IsInRound(run, start, draws, added) && |added| == next <= run.phase.stepsPerRound == |names|
      requires next > 0 && IsUnderWay(draws, names, next - 1) && !EndedAs(added[next - 1], FeedRaised)
      requires !GaveUp(plan.faults, run.events) && stillActive != draws[|draws| - 1].active
      requires stillActive == Active(run.stage, start, added) && run.feed.pending == Some(names[next..])
      requires forall name :: name in stillActive ==> name in run.faults.dojoNames
      modifies this, run, run.feed, run.faults, run.scaler
      ensures reported == old(reported) && rounds == old(rounds) && run.stepAttempts == old(run.stepAttempts)
      ensures over ==> IsRoundOver(run, start, round) && round.end == Ended
      ensures !over ==> IsAtStep(run, start, newDraws, added, newNames, stillActive, next)
    {
      hide AreCounters, AreAnswered, ScaleNow, Quarantined, ValidWorld, ValidPlan, Attempts, ValidPhase;
      hide DojoFaultLedger.Reflects, IsUnderDraws, ActiveNames, MaxSteps, IsUnderWay, IsDone, IsRound, Asked;
      hide AllAttempted, GaveUp;
      ghost var stage := run.stage;
      over, newNames, newDraws, round := false, names, draws, Round(draws, added, Ended);
      LatestDraw(draws, names, next - 1);
      DoneAfterAttempt(stage, start, added);
      var rest := DrawSchedule(run, stillActive, run.phase.stepsPerRound - next);
      if rest == None {
        if run.events == start.before + added {
          RoundOver(stage, start, draws, added, Ended);
        } else {
          SamplerEndsRound(stage, start, draws, added);
          round := Round(draws, added + [SamplerFailed], Ended);
          AppendIsAssociative(start.before, added, [SamplerFailed]);
        }
        over := true;
        return;
      }
      var error := run.feed.Reschedule(rest.value);
      newNames := names[..next] + rest.value;
      newDraws := draws + [Draw(next, stillActive, rest.value)];
      OneMoreDraw(stage, start, draws, added, Draw(next, stillActive, rest.value));
      RescheduledIsUnderWay(draws, names, next, stillActive, rest.value);
    }

    /** A quarantine changes the diet: redraw the rest of the round. `next` is the step to come. */
    method Redraw(run: PhaseRun, names: seq<Name>, active: seq<Name>, next: nat,
                  ghost start: RoundStart, ghost draws: seq<Draw>, ghost added: seq<Event>)
      returns (over: bool, newNames: seq<Name>, newActive: seq<Name>, ghost newDraws: seq<Draw>, ghost round: Round)
      requires IsInRound(run, start, draws, added) && |added| == next <= run.phase.stepsPerRound == |names|
      requires next > 0 && IsUnderWay(draws, names, next - 1) && active == draws[|draws| - 1].active
      requires forall name :: name in active ==> name in run.faults.dojoNames
      requires !GaveUp(plan.faults, run.events) && !EndedAs(added[next - 1], FeedRaised)
      requires run.feed.pending == Some(names[next..])
      modifies this, run, run.feed, run.faults, run.scaler
      ensures reported == old(reported) && rounds == old(rounds) && run.stepAttempts == old(run.stepAttempts)
      ensures over ==> IsRoundOver(run, start, round) && round.end == Ended
      ensures !over ==> IsAtStep(run, start, newDraws, added, newNames, newActive, next)
    {
      hide AreCounters, AreAnswered, ScaleNow, Quarantined, ValidWorld, ValidPlan, Attempts, ValidPhase;
      hide DojoFaultLedger.Reflects, IsUnderDraws, ActiveNames, MaxSteps, IsUnderWay, IsDone, IsRound, Asked;
      hide AllAttempted, GaveUp;
      over, newNames, newActive, newDraws, round := false, names, active, draws, Round(draws, added, Ended);
      var stillActive := ActiveDojos(run);
      if stillActive != active {
        newActive := stillActive;
        over, newNames, newDraws, round := RedrawRest(run, names, stillActive, next, start, draws, added);
      } else if next < run.phase.stepsPerRound {
        NamedAreActive(run.stage, start, draws, added, names, next - 1);
        DoneAfterAttempt(run.stage, start, added);
        StillUnderWay(draws, names, next - 1);
      }
    }

    /** One step of the round: attempt the scheduled dojo, then give up, redraw or go on. */
    method StepOfRound(run: PhaseRun, names: seq<Name>, active: seq<Name>, step: nat,
                       ghost start: RoundStart, ghost draws: seq<Draw>, ghost added: seq<Event>)
      returns (over: Option<RoundEnd>, newNames: seq<Name>, newActive: seq<Name>,
               ghost newDraws: seq<Draw>, ghost newAdded: seq<Event>, ghost round: Round)
      requires IsAtStep(run, start, draws, added, names, active, step) && step < run.phase.stepsPerRound
      requires run.stepAttempts < MaxSteps(run.phase)
      modifies this, run, run.feed, run.faults, run.scaler
      ensures reported == old(reported) && rounds == old(rounds) && run.stepAttempts == old(run.stepAttempts) + 1
      ensures over.Some? ==> IsRoundOver(run, start, round) && round.end == over.value
      ensures over == None ==> IsAtStep(run, start, newDraws, newAdded, newNames, newActive, step + 1)
    {
      hide AreCounters, AreAnswered, ScaleNow, Quarantined, ValidWorld, ValidPlan, Attempts, ValidPhase;
      hide DojoFaultLedger.Reflects, IsUnderDraws, ActiveNames, MaxSteps, IsUnderWay, IsDone, IsRound, Asked;
      hide AllAttempted;
      ghost var stage := run.stage;
      assert names[step..][0] == names[step] && names[step..][1..] == names[step + 1..];
      NamedAreActive(stage, start, draws, added, names, step);
      LatestDraw(draws, names, step);
      newNames, newActive, newDraws := names, active, draws;
      var ending := AttemptStep(run, names[step], active);
      ghost var attempt := run.events[|run.events| - 1];
      newAdded := added + [attempt];
      AttemptLogged(stage, start, draws, added, names, attempt);
      assert run.events == start.before + newAdded;
      round := Round(draws, newAdded, if ending == FeedRaised then FeedFailedAtStep else Ended);
      DoneAfterAttempt(stage, start, newAdded);
      if ending == FeedRaised {
        RoundOver(stage, start, draws, newAdded, FeedFailedAtStep);
        return Some(FeedFailedAtStep), newNames, newActive, newDraws, newAdded, round;
      }
      var gaveUp := run.faults.GaveUpNow(run.events);
      if gaveUp {
        RoundOver(stage, start, draws, newAdded, Ended);
        return Some(Ended), newNames, newActive, newDraws, newAdded, round;
      }
      var ended;
      ended, newNames, newActive, newDraws, round := Redraw(run, names, active, step + 1, start, draws, newAdded);
      over := if ended then Some(Ended) else None;
    }

    /** Take the round's steps on its schedule, redrawing the rest whenever the active dojos change. */
    method TrainRound(run: PhaseRun) returns (end: RoundEnd, ghost round: Round)
      requires Ready(run) && run.feed.pending == None
      requires run.stepAttempts + run.phase.stepsPerRound <= MaxSteps(run.phase)
      modifies this, run, run.feed, run.faults, run.scaler
      ensures reported == old(reported) && rounds == old(rounds)
      ensures IsRoundOver(run, RoundStart(old(Now()), run.tracker.ActiveDojoNames(), old(run.events)), round)
      ensures end == round.end
    {
      hide AreCounters, AreAnswered, ScaleNow, Quarantined, ValidWorld, ValidPlan, Attempts;
      hide DojoFaultLedger.Reflects, IsUnderDraws, ActiveNames, MaxSteps, IsUnderWay, IsDone, IsRound, Asked, IsDrawOf;
      ghost var start := RoundStart(Now(), run.tracker.ActiveDojoNames(), run.events);
      ghost var stage := run.stage;
      assert run.events + [] == run.events;
      var steps := run.phase.stepsPerRound;
      var active := ActiveDojos(run);
      DoneBeforeAnyAttempt(stage, start);
      var schedule := DrawSchedule(run, active, steps);
      if schedule == None {
        NothingAttempted(stage, start);
        return Ended, Round([], if active == [] then [] else [SamplerFailed], Ended);
      }
      var names := schedule.value;
      ghost var draws, added := [Draw(0, active, names)], [];
      FirstDraw(stage, start, names);
      var error := run.feed.BeginRound(schedule.value, world.beginStops(rounds));
      if error != None {
        return FeedFailedAtBegin, Round(draws, [], FeedFailedAtBegin);
      }
      for step := 0 to steps
        invariant reported == old(reported) && rounds == old(rounds)
        invariant run.stepAttempts == old(run.stepAttempts) + step
        invariant IsAtStep(run, start, draws, added, names, active, step)
      {
        var over;
        over, names, active, draws, added, round := StepOfRound(run, names, active, step, start, draws, added);
        if over.Some? {
          return over.value, round;
        }
      }
      AllStepsTaken(stage, start, draws, added);
      return Ended, Round(draws, added, Ended);
    }

    // ----- one phase

    /** The skips are logged and counted afresh. */
    method LogAndResetSkips()
      requires CountersMatch()
      modifies this`fp16Overflow, this`unusableBaseline, this`reported
      ensures CountersMatch() && fp16Overflow == unusableBaseline == 0 && reported == |history|
    {
      fp16Overflow, unusableBaseline, reported := 0, 0, |history|;
    }

    method EvaluateRound(run: PhaseRun)
      modifies run.tracker
      ensures run.tracker.saturated == world.saturated(rounds)
    {
      run.tracker.saturated := world.saturated(rounds);
    }

    /** Between rounds: the phase's rounds so far, with no reason to stop after them. */
    ghost predicate IsBetweenRounds(run: PhaseRun, done: seq<Round>)
      reads this, run, run.faults, run.scaler, run.tracker, run.feed
    {
      && Ready(run) && run.feed.pending == None && AreRounds(run.stage, done) && run.events == EventsOf(done)
      && (done != [] ==> NothingStops(run.stage, done)) && Now() == ClockAfter(run.stage.start, done)
      && run.tracker.saturated == SaturatedAfter(run.stage, |done|) && reported == |history|
    }

    /** The phase stopped for this reason after these rounds; the skips not yet reported are those of a round
        the feed broke off. */
    ghost predicate IsPhaseOver(run: PhaseRun, done: seq<Round>, reason: Option<StopReason>)
      reads this, run, run.faults, run.scaler
    {
      && Ready(run) && IsPhase(run.stage, done, reason) && run.events == EventsOf(done)
      && Now() == ClockAfter(run.stage.start, done)
      && reported + (if done[|done| - 1].end == Ended then 0 else |done[|done| - 1].events|) == |history|
    }

    /** Between a round's steps and the next round: the feed's round ended, the skips logged, the tracker told;
        then whether the phase stops here and why. */
    method FinishRound(run: PhaseRun, ghost done: seq<Round>) returns (stop: bool, reason: Option<StopReason>)
      requires Ready(run) && AreRounds(run.stage, done) && run.events == EventsOf(done)
      requires done != [] && done[|done| - 1].end == Ended && Now() == ClockAfter(run.stage.start, done)
      modifies this`fp16Overflow, this`unusableBaseline, this`reported, run.feed, run.tracker
      ensures stop ==> IsPhaseOver(run, done, reason)
      ensures !stop ==> IsBetweenRounds(run, done)
    {
      hide AreCounters, AreAnswered, ScaleNow, Quarantined, ValidWorld, ValidPlan, IsRound, Attempts, Asked;
      hide DojoFaultLedger.Reflects, GaveUp, EnoughSaturated, Unsaturated, AreRounds, EventsOf, AskedIn;
      run.feed.EndRound();
      LogAndResetSkips();
      var gaveUp := run.faults.GaveUpNow(run.events);
      if gaveUp {
        return true, Some(TooManyFailures);
      }
      EvaluateRound(run);
      QuarantineIsKnown(run);
      if forall name :: name in run.phase.dojoNames ==> name in run.faults.quarantined {
        return true, Some(EveryDojoQuarantined);
      }
      return run.tracker.PhaseDone(run.faults.quarantined, run.phase.targetSaturated), None;
    }

    /** Rounds until saturation, the round cap, too many failures, every dojo quarantined or a feed error. */
    method RunPhase(run: PhaseRun) returns (reason: Option<StopReason>, ghost done: seq<Round>)
      requires IsBetweenRounds(run, [])
      modifies this, run, run.feed, run.faults, run.scaler, run.tracker
      ensures IsPhaseOver(run, done, reason)
    {
      hide AreCounters, AreAnswered, ScaleNow, Quarantined, ValidWorld, ValidPlan, IsRound, Attempts, Asked;
      hide DojoFaultLedger.Reflects, MaxSteps, GaveUp, EnoughSaturated, Unsaturated, AreRounds, EventsOf, AskedIn;
      hide StepsIn;
      done, reason := [], None;
      for round := 0 to run.phase.maxRounds
        invariant |done| == round && IsBetweenRounds(run, done)
      {
        PhaseStaysWithinBudgetSoFar(run.stage, done);
        var end, latest := TrainRound(run);
        rounds := rounds + 1;
        OneMoreRound(run.stage, done, latest);
        done := done + [latest];
        if end != Ended {
          reason := Some(if end == FeedFailedAtBegin then FeedFailedAtRoundStart else FeedFailedOnAStep);
          return;
        }
        var stop;
        stop, reason := FinishRound(run, done);
        if stop {
          return;
        }
      }
      reason := None;
    }

    lemma QuarantineIsKnown(run: PhaseRun)
      requires Ready(run)
      ensures run.faults.quarantined == QuarantinedNames(run.stage, run.events)
    {
      forall name ensures name in run.faults.quarantined <==> name in QuarantinedNames(run.stage, run.events) {
      }
    }

    // ----- the whole run

    /** The optimizer, tracker, feed, ledger and scaler of a phase, all new. */
    method OpenPhase(phase: Phase) returns (run: PhaseRun)
      requires CountersMatch() && ValidPhase(phase) && reported == |history|
      ensures fresh(run) && fresh(run.feed) && fresh(run.faults) && fresh(run.scaler) && fresh(run.tracker)
      ensures IsBetweenRounds(run, []) && run.stage == Stage(plan, world, phase, Now()) && run.earlier == history
    {
      var tracker := new SaturationTracker(phase.dojoNames);
      var feed := new BatchFeed();
      var faults := new DojoFaultLedger(plan.faults, DojosOf(phase));
      var scaler := new GradScaler(plan.fp16, plan.initialScale);
      run := new PhaseRun(tracker, feed, faults, scaler, phase, Stage(plan, world, phase, Now()), history);
      assert history + [] == history;
    }

    /** Every phase in order until one stops the run; `phases` are the rounds of each phase begun. */
    method Run() returns (reason: Option<StopReason>, ghost phases: seq<seq<Round>>)
      requires CountersMatch() && history == [] && reported == 0 && Now() == Clock(0, 0, 0)
      modifies this
      ensures CountersMatch() && IsRun(plan, world, phases, reason) && history == AllEvents(phases)
      ensures Now() == ClockAfterPhases(phases)
      ensures stepsAttempted == stepsTaken + CountOf(history, OverflowSkipped) + CountOf(history, BaselineSkipped)
                                + CountOf(history, Failed) + (if reason == Some(FeedFailedOnAStep) then 1 else 0)
    {
      phases, reason := [], None;
      hide AreCounters, ValidWorld, CountOf, Attempts, IsPhase, ClockAfter, EventsOf, DojoFaultLedger.Reflects;
      hide ScaleNow, AreAnswered, GoesOn, AreRounds;
      for p := 0 to |plan.phases|
        invariant CountersMatch() && history == AllEvents(phases) && |phases| == p && reason == None
        invariant ArePhases(plan, world, phases) && Now() == ClockAfterPhases(phases) && reported == |history|
        invariant p > 0 ==> IsRun(plan, world, phases, None) || p < |plan.phases|
      {
        var run := OpenPhase(plan.phases[p]);
        var stop, done := RunPhase(run);
        OneMorePhase(plan, world, phases, done, stop);
        EndedUnlessFeedFailed(run.stage, done, stop);
        phases, reason := phases + [done], stop;
        if reason != None {
          break;
        }
      }
      RunIsAccountedFor(plan, world, phases, reason);
      TakenAndAttempted(history, reported, stepsAttempted, stepsTaken, fp16Overflow, unusableBaseline);
    }
  }

  // ----- the failures the ledger records per dojo are all the failed attempts

  function TotalFailures(events: seq<Event>, names: seq<Name>): nat {
    if names == [] then 0 else Failures(events, names[0]) + TotalFailures(events, names[1..])
  }

  lemma {:induction false} NoFailureOfOthers(rest: seq<Event>, event: Event, names: seq<Name>)
    requires forall i :: 0 <= i < |names| ==> !FailureOf(event, names[i])
    ensures TotalFailures(rest + [event], names) == TotalFailures(rest, names)
  {
    if names != [] {
      NoFailureOfOthers(rest, event, names[1..]);
      DropLast(rest, event);
    }
  }

  lemma {:induction false} OneFailureCountedOnce(rest: seq<Event>, event: Event, names: seq<Name>)
    requires EndedAs(event, Failed) && event.name in names
    requires forall i, j :: 0 <= i < j < |names| ==> names[i] != names[j]
    ensures TotalFailures(rest + [event], names) == TotalFailures(rest, names) + 1
  {
    DropLast(rest, event);
    if event.name == names[0] {
      NoFailureOfOthers(rest, event, names[1..]);
    } else {
      OneFailureCountedOnce(rest, event, names[1..]);
    }
  }

  /** Summed over the phase's dojos, the recorded failures are the failed attempts. */
  lemma {:induction false} FailuresByDojoAddUp(events: seq<Event>, names: seq<Name>)
    requires forall i, j :: 0 <= i < j < |names| ==> names[i] != names[j]
    requires forall i :: 0 <= i < |events| && events[i].Attempted? ==> events[i].name in names
    ensures TotalFailures(events, names) == CountOf(events, Failed)
    decreases |events|
  {
    if events == [] {
      NothingFailed(names);
    } else {
      var rest, event := events[..|events| - 1], events[|events| - 1];
      FailuresByDojoAddUp(rest, names);
      assert events == rest + [event];
      if EndedAs(event, Failed) {
        OneFailureCountedOnce(rest, event, names);
      } else {
        NoFailureOfOthers(rest, event, names);
      }
    }
  }

  lemma {:induction false} NothingFailed(names: seq<Name>)
    ensures TotalFailures([], names) == 0
  {
    if names != [] {
      NothingFailed(names[1..]);
    }
  }

  // ----- what one step or one redraw keeps of a round

  /** The rest of the names is the rest of the latest draw. */
  ghost predicate IsUnderWay(draws: seq<Draw>, names: seq<Name>, step: nat) {
    && draws != [] && step < |names|
    && var last := draws[|draws| - 1];
       last.at <= step && last.at + |last.names| == |names| && names[step..] == last.names[step - last.at..]
  }

  ghost predicate AllAttempted(added: seq<Event>) {
    forall i :: 0 <= i < |added| ==> added[i].Attempted?
  }

  lemma DoneBeforeAnyAttempt(stage: Stage, start: RoundStart)
    requires ValidPhase(stage.phase)
    ensures IsDone(stage, start, []) <==> Active(stage, start, []) == []
    ensures Active(stage, start, []) == ActiveNames(stage.plan.faults, start.tracked, start.before)
  {
    assert start.before + [] == start.before;
  }

  lemma DoneAfterAttempt(stage: Stage, start: RoundStart, added: seq<Event>)
    requires added != [] && AllAttempted(added)
    ensures IsDone(stage, start, added) <==>
            |added| >= stage.phase.stepsPerRound || EndedAs(added[|added| - 1], FeedRaised)
            || GaveUp(stage.plan.faults, start.before + added) || Active(stage, start, added) == []
  {
  }

  /** A round with no schedule: no dojo is active, or the sampler fails at once. */
  lemma NothingAttempted(stage: Stage, start: RoundStart)
    requires ValidPhase(stage.phase)
    ensures Active(stage, start, []) == [] ==> IsRound(stage, start, Round([], [], Ended))
    ensures Asked(Round([], [], Ended)) == 0 && Asked(Round([], [SamplerFailed], Ended)) == 1
    ensures var active := Active(stage, start, []);
            active != [] && stage.world.draw(start.clock.draws, active, stage.phase.stepsPerRound) == None ==>
              IsRound(stage, start, Round([], [SamplerFailed], Ended))
  {
    assert [SamplerFailed][..0] == [];
  }

  lemma FirstDraw(stage: Stage, start: RoundStart, names: seq<Name>)
    requires ValidPhase(stage.phase) && Active(stage, start, []) != []
    requires stage.world.draw(start.clock.draws, Active(stage, start, []), stage.phase.stepsPerRound) == Some(names)
    requires |names| == stage.phase.stepsPerRound
    ensures var draws := [Draw(0, Active(stage, start, []), names)];
            && IsUnderDraws(stage, start, draws, []) && IsUnderWay(draws, names, 0) && names[0..] == names
            && (stage.world.beginStops(start.clock.rounds) ==>
                  IsRound(stage, start, Round(draws, [], FeedFailedAtBegin))
                  && Asked(Round(draws, [], FeedFailedAtBegin)) == 1)
  {
  }

  lemma LatestDraw(draws: seq<Draw>, names: seq<Name>, step: nat)
    requires IsUnderWay(draws, names, step)
    ensures draws != [] && draws[|draws| - 1].at <= step < |names|
  {
  }

  lemma StillUnderWay(draws: seq<Draw>, names: seq<Name>, step: nat)
    requires IsUnderWay(draws, names, step) && step + 1 < |names|
    ensures IsUnderWay(draws, names, step + 1)
  {
    var last := draws[|draws| - 1];
    assert names[step..][1..] == names[step + 1..];
    assert last.names[step - last.at..][1..] == last.names[step + 1 - last.at..];
  }

  lemma NamedAreActive(stage: Stage, start: RoundStart, draws: seq<Draw>, added: seq<Event>, names: seq<Name>,
                       step: nat)
    requires ValidWorld(stage.world) && IsUnderDraws(stage, start, draws, added) && IsUnderWay(draws, names, step)
    ensures names[step] in draws[|draws| - 1].active
  {
    var last := draws[|draws| - 1];
    assert IsSamplersDraw(stage, start.clock.draws + |draws| - 1, last);
    assert names[step] == names[step..][0] == last.names[step - last.at..][0] == last.names[step - last.at];
  }

  /** After one more attempt the round's events follow its draws. */
  lemma AttemptLogged(stage: Stage, start: RoundStart, draws: seq<Draw>, added: seq<Event>, names: seq<Name>,
                      attempt: Event)
    requires IsUnderDraws(stage, start, draws, added) && AllAttempted(added) && IsUnderWay(draws, names, |added|)
    requires attempt.Attempted? && attempt.name == names[|added|] && !IsDone(stage, start, added)
    requires attempt.active == draws[|draws| - 1].active == Active(stage, start, added)
    ensures start.before + (added + [attempt]) == start.before + added + [attempt]
    ensures IsUnderDraws(stage, start, draws, added + [attempt]) && AllAttempted(added + [attempt])
  {
    hide IsDone, Active, AreDraws;
    var last, more, n := draws[|draws| - 1], added + [attempt], |added|;
    assert names[n] == names[n..][0] == last.names[n - last.at..][0] == last.names[n - last.at];
    assert CurrentDraw(draws, n) == last;
    forall i | 0 <= i < |more| ensures IsDue(stage, start, draws, more, i) && !IsDone(stage, start, more[..i]) {
      assert more[..i] == if i < n then added[..i] else added;
      assert i < n ==> IsDue(stage, start, draws, added, i);
    }
  }

  /** A redraw leaves earlier attempts under their own draws. */
  lemma OneMoreDraw(stage: Stage, start: RoundStart, draws: seq<Draw>, added: seq<Event>, draw: Draw)
    requires IsUnderDraws(stage, start, draws, added) && AllAttempted(added) && draws != []
    requires draws[|draws| - 1].at < draw.at == |added| && draw.active != draws[|draws| - 1].active
    requires IsSamplersDraw(stage, start.clock.draws + |draws|, draw)
    ensures IsUnderDraws(stage, start, draws + [draw], added)
  {
    hide IsDone, Active, IsSamplersDraw;
    var more := draws + [draw];
    forall i | 0 <= i < |added| ensures IsDue(stage, start, more, added, i) {
      assert IsDue(stage, start, draws, added, i);
      CurrentDrawStep(draws, draw, i);
    }
    forall d | 0 <= d < |more| ensures IsSamplersDraw(stage, start.clock.draws + d, more[d]) {
      assert d < |draws| ==> IsSamplersDraw(stage, start.clock.draws + d, draws[d]);
    }
  }

  lemma RescheduledIsUnderWay(draws: seq<Draw>, names: seq<Name>, next: nat, active: seq<Name>, rest: seq<Name>)
    requires next < |names| && |rest| == |names| - next
    ensures var newNames := names[..next] + rest;
            IsUnderWay(draws + [Draw(next, active, rest)], newNames, next) && newNames[next..] == rest
  {
    var newNames := names[..next] + rest;
    assert newNames[next..] == rest && rest[0..] == rest;
  }

  lemma DrawsUsed(stage: Stage, start: RoundStart, draws: seq<Draw>, added: seq<Event>)
    requires IsUnderDraws(stage, start, draws, added) && AllAttempted(added)
    requires draws != [] && draws[|draws| - 1].at < |added|
    ensures DrawsAreUsed(draws, added)
  {
    forall d | 0 <= d < |draws| ensures IsUsed(draws, added, d) {
      assert d < |draws| - 1 ==> draws[d].at < draws[|draws| - 1].at;
    }
  }

  /** A round whose attempts leave nothing to do is over. */
  lemma RoundOver(stage: Stage, start: RoundStart, draws: seq<Draw>, added: seq<Event>, end: RoundEnd)
    requires IsUnderDraws(stage, start, draws, added) && AllAttempted(added) && IsDone(stage, start, added)
    requires draws != [] && draws[|draws| - 1].at < |added| && !stage.world.beginStops(start.clock.rounds)
    requires end == if EndedAs(added[|added| - 1], FeedRaised) then FeedFailedAtStep else Ended
    ensures IsRound(stage, start, Round(draws, added, end)) && Asked(Round(draws, added, end)) == |draws|
  {
    hide IsDone, IsUnderDraws;
    DrawsUsed(stage, start, draws, added);
  }

  lemma AllStepsTaken(stage: Stage, start: RoundStart, draws: seq<Draw>, added: seq<Event>)
    requires ValidPhase(stage.phase) && IsUnderDraws(stage, start, draws, added) && AllAttempted(added)
    requires draws != [] && |added| == stage.phase.stepsPerRound && !stage.world.beginStops(start.clock.rounds)
    requires !EndedAs(added[|added| - 1], FeedRaised)
    ensures IsRound(stage, start, Round(draws, added, Ended)) && Asked(Round(draws, added, Ended)) == |draws|
  {
    assert IsSamplersDraw(stage, start.clock.draws + |draws| - 1, draws[|draws| - 1]);
    RoundOver(stage, start, draws, added, Ended);
  }

  /** The sampler failing on a redraw is the round's last event. */
  lemma SamplerEndsRound(stage: Stage, start: RoundStart, draws: seq<Draw>, added: seq<Event>)
    requires IsUnderDraws(stage, start, draws, added) && AllAttempted(added) && !IsDone(stage, start, added)
    requires draws != [] && draws[|draws| - 1].at < |added| && !stage.world.beginStops(start.clock.rounds)
    requires SamplerRaises(stage, start, draws, Active(stage, start, added), |added|)
    ensures var round := Round(draws, added + [SamplerFailed], Ended);
            IsRound(stage, start, round) && Asked(round) == |draws| + 1
  {
    DrawsUsed(stage, start, draws, added);
    var more := added + [SamplerFailed];
    forall i | 0 <= i < |more| ensures IsDue(stage, start, draws, more, i) && !IsDone(stage, start, more[..i]) {
      hide IsDone, Active, AreDraws, SamplerRaises;
      assert more[..i] == if i < |added| then added[..i] else added;
      assert i < |added| ==> IsDue(stage, start, draws, added, i);
    }
    assert IsDone(stage, start, more);
  }

  // ----- what one more round or phase keeps

  lemma PhaseStaysWithinBudgetSoFar(stage: Stage, done: seq<Round>)
    requires AreRounds(stage, done) && ValidPhase(stage.phase) && |done| < stage.phase.maxRounds
    ensures Attempts(EventsOf(done)) + stage.phase.stepsPerRound <= MaxSteps(stage.phase)
  {
    hide AreRounds, StepsIn, MaxSteps;
    AttemptsPerRound(stage, done);
    RoundFits(stage.phase, |done|);
    RoundFits(stage.phase, |done| + 1);
  }

  lemma OneMoreRound(stage: Stage, done: seq<Round>, latest: Round)
    requires AreRounds(stage, done) && (done != [] ==> NothingStops(stage, done)) && |done| < stage.phase.maxRounds
    requires IsRound(stage, StartAfter(stage, done), latest)
    ensures AreRounds(stage, done + [latest]) && EventsOf(done + [latest]) == EventsOf(done) + latest.events
    ensures ClockAfter(stage.start, done + [latest]) ==
            var clock := ClockAfter(stage.start, done);
            Clock(clock.draws + Asked(latest), clock.attempts + Attempts(latest.events), clock.rounds + 1)
    ensures Attempts(EventsOf(done) + latest.events) == Attempts(EventsOf(done)) + Attempts(latest.events)
  {
    hide IsRound, NothingStops;
    DropLast(done, latest);
    CountsConcat(EventsOf(done), latest.events, Stepped);
  }

  lemma OneMorePhase(plan: Plan, world: World, phases: seq<seq<Round>>, done: seq<Round>, reason: Option<StopReason>)
    requires |phases| < |plan.phases| && ArePhases(plan, world, phases)
    requires IsPhase(NextStage(plan, world, phases), done, reason)
    ensures reason == None ==> ArePhases(plan, world, phases + [done])
    ensures reason != None || |phases| + 1 == |plan.phases| ==> IsRun(plan, world, phases + [done], reason)
    ensures AllEvents(phases + [done]) == AllEvents(phases) + EventsOf(done)
    ensures ClockAfterPhases(phases + [done]) == ClockAfter(ClockAfterPhases(phases), done)
  {
    hide IsPhase;
    DropLast(phases, done);
  }

  lemma EndedUnlessFeedFailed(stage: Stage, done: seq<Round>, reason: Option<StopReason>)
    requires IsPhase(stage, done, reason)
    ensures done != [] && (reason == None ==> done[|done| - 1].end == Ended)
  {
    hide AreRounds, AreAnswered, GivesUp, AllQuarantined, IsSaturated;
  }

  lemma TakenAndAttempted(history: seq<Event>, reported: nat, attempted: nat, taken: nat, overflows: nat,
                          baselines: nat)
    requires AreCounters(history, reported, attempted, taken, overflows, baselines)
    ensures attempted == Attempts(history) && taken == CountOf(history, Stepped)
  {
  }

  lemma PlanScaleIsPositive(plan: Plan)
    requires ValidPlan(plan)
    ensures plan.initialScale > 0.0
  {
  }

  lemma OneMoreEvent(earlier: seq<Event>, events: seq<Event>, event: Event)
    ensures earlier + events + [event] == earlier + (events + [event])
    ensures Attempts(events + [event]) == Attempts(events) + (if event.Attempted? then 1 else 0)
  {
    CountsStep(events, event, Stepped);
  }
}
