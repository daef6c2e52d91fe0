/** The plan and the world alone fix every attempt of a run, every draw, and why it stopped. */
module TrainingOutcome {
  import opened TrainingEvents
  import opened TrainingRounds
  import opened Wrappers

  lemma OneMoreAgrees<T>(a: seq<T>, b: seq<T>, m: nat)
    requires m < |a| && m < |b| && a[..m] == b[..m] && a[m] == b[m]
    ensures a[..m + 1] == b[..m + 1]
  {
    assert a[..m + 1] == a[..m] + [a[m]] && b[..m + 1] == b[..m] + [b[m]];
  }

  // ----- one round

  ghost predicate AreAscending(draws: seq<Draw>) {
    forall c, d :: 0 <= c < d < |draws| ==> draws[c].at < draws[d].at
  }

  /** Draw d is the one step i was taken under. */
  predicate IsCurrent(draws: seq<Draw>, i: nat, d: nat) {
    d < |draws| && draws[d].at <= i && (d + 1 < |draws| ==> i < draws[d + 1].at)
  }

  lemma {:induction false} CurrentDrawIs(draws: seq<Draw>, i: nat, d: nat)
    requires AreAscending(draws) && IsCurrent(draws, i, d)
    ensures CurrentDraw(draws, i) == draws[d]
  {
    var last := |draws| - 1;
    if d < last {
      assert i < draws[d + 1].at <= draws[last].at;
      CurrentDrawIs(draws[..last], i, d);
    }
  }

  lemma {:induction false} AnsweredFront(stage: Stage, front: seq<Event>, rest: seq<Event>)
    requires AreAnswered(stage, front + rest)
    ensures AreAnswered(stage, front)
    decreases |rest|
  {
    if rest == [] {
      assert front + rest == front;
    } else {
      assert (front + rest)[..|front + rest| - 1] == front + rest[..|rest| - 1];
      AnsweredFront(stage, front, rest[..|rest| - 1]);
    }
  }

  lemma AnsweredAt(stage: Stage, before: seq<Event>, added: seq<Event>, i: nat)
    requires AreAnswered(stage, before + added) && i < |added|
    ensures IsAnswered(stage, before + added[..i], added[i])
  {
    assert before + added == before + added[..i + 1] + added[i + 1..];
    AnsweredFront(stage, before + added[..i + 1], added[i + 1..]);
    assert before + added[..i + 1] == before + added[..i] + [added[i]];
    DropLast(before + added[..i], added[i]);
  }

  /** What a round that has come to step n keeps. */
  ghost predicate IsTaken(stage: Stage, start: RoundStart, round: Round, n: nat) {
    && IsUnderDraws(stage, start, round.draws, round.events) && DrawsAreUsed(round.draws, round.events)
    && AreAnswered(stage, start.before + round.events) && n < |round.events| && ValidPhase(stage.phase)
  }

  /** An attempt is fixed by its schedule and the events before it. */
  lemma AttemptIs(stage: Stage, start: RoundStart, round: Round, n: nat, k: nat)
    requires IsTaken(stage, start, round, n) && round.events[n].Attempted? && IsCurrent(round.draws, n, k)
    ensures var front, draw := start.before + round.events[..n], round.draws[k];
            && 0 <= n - draw.at < |draw.names|
            && round.events[n] == Attempted(draw.names[n - draw.at], draw.active, ScaleNow(stage, front).value,
                                            EndingOf(NextEvent(stage, front), stage.plan.fp16, ScaleNow(stage, front)))
  {
    assert IsDue(stage, start, round.draws, round.events, n);
    CurrentDrawIs(round.draws, n, k);
    AnsweredAt(stage, start.before, round.events, n);
  }

  lemma FirstStep(stage: Stage, start: RoundStart, round: Round)
    requires IsTaken(stage, start, round, 0)
    ensures var active := Active(stage, start, []);
            var names := stage.world.draw(start.clock.draws, active, stage.phase.stepsPerRound);
            if names == None then round.events[0] == SamplerFailed && round.draws == []
            else round.events[0].Attempted? && round.draws != [] && round.draws[0] == Draw(0, active, names.value)
                 && IsCurrent(round.draws, 0, 0)
  {
    assert IsDue(stage, start, round.draws, round.events, 0) && round.events[..0] == [];
    if round.draws != [] {
      assert IsSamplersDraw(stage, start.clock.draws + 0, round.draws[0]) && IsUsed(round.draws, round.events, 0);
    }
  }

  lemma NextStep(stage: Stage, start: RoundStart, round: Round, n: nat, k: nat)
    requires IsTaken(stage, start, round, n) && n > 0 && IsCurrent(round.draws, n - 1, k)
    ensures var active := Active(stage, start, round.events[..n]);
            if active == round.draws[k].active then round.events[n].Attempted? && IsCurrent(round.draws, n, k)
            else
              n < stage.phase.stepsPerRound &&
              var names := stage.world.draw(start.clock.draws + k + 1, active, stage.phase.stepsPerRound - n);
              if names == None then round.events[n] == SamplerFailed && |round.draws| == k + 1
              else round.events[n].Attempted? && k + 1 < |round.draws|
                   && round.draws[k + 1] == Draw(n, active, names.value) && IsCurrent(round.draws, n, k + 1)
  {
    hide Active, IsDone;
    var draws := round.draws;
    assert IsDue(stage, start, draws, round.events, n);
    if round.events[n].SamplerFailed? {
      LatestIsCurrent(stage, start, round, n, k);
    } else if k + 1 < |draws| && draws[k + 1].at == n {
      assert IsSamplersDraw(stage, start.clock.draws + (k + 1), draws[k + 1]);
      assert IsCurrent(draws, n, k + 1);
      CurrentDrawIs(draws, n, k + 1);
    } else {
      CurrentDrawIs(draws, n, k);
    }
  }

  /** Before the sampler's failure the current draw is the last. */
  lemma LatestIsCurrent(stage: Stage, start: RoundStart, round: Round, n: nat, k: nat)
    requires IsTaken(stage, start, round, n) && n > 0 && IsCurrent(round.draws, n - 1, k)
    requires round.events[n].SamplerFailed?
    ensures |round.draws| == k + 1
  {
    assert n + 1 < |round.events| ==> !IsDone(stage, start, round.events[..n + 1]);
    assert k + 1 < |round.draws| ==> IsUsed(round.draws, round.events, k + 1);
  }

  /** The rounds come to step n under the same draw k, or to the same failure of the sampler. */
  ghost predicate SameDraw(a: Round, b: Round, n: nat, k: nat)
    requires n < |a.events| && n < |b.events|
  {
    if a.events[n].Attempted?
    then
      && b.events[n].Attempted? && IsCurrent(a.draws, n, k) && IsCurrent(b.draws, n, k)
      && a.draws[..k + 1] == b.draws[..k + 1]
    else b.events[n].SamplerFailed? && a.draws == b.draws
  }

  lemma NextDrawAgrees(stage: Stage, start: RoundStart, a: Round, b: Round, n: nat, before: nat) returns (k: nat)
    requires IsTaken(stage, start, a, n) && IsTaken(stage, start, b, n) && n > 0
    requires a.events[..n] == b.events[..n] && SameDraw(a, b, n - 1, before)
    ensures SameDraw(a, b, n, k)
  {
    hide IsDue, AreDraws, Active, AreAnswered, DrawsAreUsed;
    k := before;
    assert !IsDone(stage, start, a.events[..n]) && a.events[..n][n - 1] == a.events[n - 1];
    NextStep(stage, start, a, n, k);
    NextStep(stage, start, b, n, k);
    assert a.draws[k] == a.draws[..k + 1][k] == b.draws[..k + 1][k];
    assert a.draws[..k + 1] == a.draws || k + 1 < |a.draws|;
    assert b.draws[..k + 1] == b.draws || k + 1 < |b.draws|;
    if Active(stage, start, a.events[..n]) != a.draws[k].active && a.events[n].Attempted? {
      OneMoreAgrees(a.draws, b.draws, k + 1);
      k := k + 1;
    }
  }

  lemma SameAttempt(stage: Stage, start: RoundStart, a: Round, b: Round, n: nat, k: nat)
    requires n < |a.events| && n < |b.events|
    requires IsTaken(stage, start, a, n) && IsTaken(stage, start, b, n)
    requires a.events[..n] == b.events[..n] && SameDraw(a, b, n, k)
    ensures a.events[n] == b.events[n]
  {
    hide IsTaken;
    if a.events[n].Attempted? {
      AttemptIs(stage, start, a, n, k);
      AttemptIs(stage, start, b, n, k);
      assert a.draws[k] == a.draws[..k + 1][k] == b.draws[..k + 1][k];
    }
  }

  /** Two rounds from the same start agree as far as both go. */
  lemma {:induction false} RoundsAgree(stage: Stage, start: RoundStart, a: Round, b: Round, n: nat) returns (k: nat)
    requires n < |a.events| && n < |b.events|
    requires IsTaken(stage, start, a, n) && IsTaken(stage, start, b, n)
    ensures a.events[..n + 1] == b.events[..n + 1] && SameDraw(a, b, n, k)
    decreases n
  {
    hide IsTaken;
    k := 0;
    if n == 0 {
      FirstStep(stage, start, a);
      FirstStep(stage, start, b);
      assert a.events[..0] == b.events[..0];
    } else {
      EarlierIsTaken(stage, start, a, n);
      EarlierIsTaken(stage, start, b, n);
      k := RoundsAgree(stage, start, a, b, n - 1);
      k := NextDrawAgrees(stage, start, a, b, n, k);
    }
    SameAttempt(stage, start, a, b, n, k);
    OneMoreAgrees(a.events, b.events, n);
  }

  lemma EarlierIsTaken(stage: Stage, start: RoundStart, round: Round, n: nat)
    requires IsTaken(stage, start, round, n) && n > 0
    ensures IsTaken(stage, start, round, n - 1)
  {
  }

  /** A round's first step tells whether the feed would begin. */
  lemma SameBeginning(stage: Stage, start: RoundStart, a: Round, b: Round)
    requires IsRound(stage, start, a) && IsRound(stage, start, b) && ValidPhase(stage.phase)
    requires a.end == FeedFailedAtBegin
    ensures b == a
  {
    assert IsSamplersDraw(stage, start.clock.draws + 0, a.draws[0]);
    assert b.events[..0] == [];
    assert b.events != [] ==> IsDue(stage, start, b.draws, b.events, 0);
    if b.draws != [] {
      assert IsSamplersDraw(stage, start.clock.draws + 0, b.draws[0]);
    }
  }

  lemma SameEvents(stage: Stage, start: RoundStart, a: Round, b: Round)
    requires IsRound(stage, start, a) && IsRound(stage, start, b) && ValidPhase(stage.phase)
    requires a.end != FeedFailedAtBegin && b.end != FeedFailedAtBegin && |a.events| <= |b.events|
    requires AreAnswered(stage, start.before + a.events) && AreAnswered(stage, start.before + b.events)
    ensures a.events == b.events
  {
    hide IsDue, AreDraws, Active, AreAnswered, IsDone;
    var n := |a.events|;
    if n > 0 {
      var k := RoundsAgree(stage, start, a, b, n - 1);
    }
    var front := b.events[..n];
    assert a.events[..n] == a.events == front;
    assert n < |b.events| ==> !IsDone(stage, start, front);
  }

  /** A round's start and the world fix the round. */
  lemma RoundIsDetermined(stage: Stage, start: RoundStart, a: Round, b: Round)
    requires IsRound(stage, start, a) && IsRound(stage, start, b) && ValidPhase(stage.phase)
    requires AreAnswered(stage, start.before + a.events) && AreAnswered(stage, start.before + b.events)
    ensures a == b
  {
    hide IsDue, AreDraws, Active, AreAnswered, IsDone;
    assert a.draws != [] && a.end != FeedFailedAtBegin ==> IsUsed(a.draws, a.events, 0);
    assert b.draws != [] && b.end != FeedFailedAtBegin ==> IsUsed(b.draws, b.events, 0);
    if a.end == FeedFailedAtBegin {
      SameBeginning(stage, start, a, b);
    } else if b.end == FeedFailedAtBegin {
      SameBeginning(stage, start, b, a);
    } else {
      if |a.events| <= |b.events| {
        SameEvents(stage, start, a, b);
      } else {
        SameEvents(stage, start, b, a);
      }
      if a.events == [] {
        assert a.draws == [] == b.draws;
      } else {
        var n := |a.events| - 1;
        var k := RoundsAgree(stage, start, a, b, n);
        if a.events[n].Attempted? {
          var next: nat := k + 1;
          assert next < |a.draws| ==> IsUsed(a.draws, a.events, next);
          assert next < |b.draws| ==> IsUsed(b.draws, b.events, next);
          assert a.draws[..k + 1] == a.draws && b.draws[..k + 1] == b.draws;
        }
      }
    }
  }

  // ----- a phase

  lemma {:induction false} RoundAt(stage: Stage, rounds: seq<Round>, n: nat)
    requires AreRounds(stage, rounds) && AreAnswered(stage, EventsOf(rounds)) && n < |rounds|
    ensures AreRounds(stage, rounds[..n]) && (n > 0 ==> GoesOn(stage, rounds[..n]))
    ensures IsRound(stage, StartAfter(stage, rounds[..n]), rounds[n])
    ensures AreAnswered(stage, StartAfter(stage, rounds[..n]).before + rounds[n].events)
    decreases |rounds|
  {
    hide IsRound, GoesOn, AreAnswered;
    var front := rounds[..|rounds| - 1];
    if n < |front| {
      AnsweredFront(stage, EventsOf(front), rounds[|rounds| - 1].events);
      RoundAt(stage, front, n);
      assert front[..n] == rounds[..n];
    }
  }

  lemma NextRoundIsDetermined(stage: Stage, a: seq<Round>, b: seq<Round>, m: nat)
    requires AreRounds(stage, a) && AreAnswered(stage, EventsOf(a)) && m < |a|
    requires AreRounds(stage, b) && AreAnswered(stage, EventsOf(b)) && m < |b| && ValidPhase(stage.phase)
    requires a[..m] == b[..m]
    ensures a[m] == b[m]
  {
    hide *;
    RoundAt(stage, a, m);
    RoundAt(stage, b, m);
    RoundIsDetermined(stage, StartAfter(stage, a[..m]), a[m], b[m]);
  }

  lemma {:induction false} SameRounds(stage: Stage, a: seq<Round>, b: seq<Round>, n: nat)
    requires AreRounds(stage, a) && AreAnswered(stage, EventsOf(a)) && n <= |a|
    requires AreRounds(stage, b) && AreAnswered(stage, EventsOf(b)) && n <= |b| && ValidPhase(stage.phase)
    ensures a[..n] == b[..n]
    decreases n
  {
    hide *;
    if n > 0 {
      SameRounds(stage, a, b, n - 1);
      NextRoundIsDetermined(stage, a, b, n - 1);
      OneMoreAgrees(a, b, n - 1);
    }
  }

  lemma StoppedIsNotGoingOn(stage: Stage, rounds: seq<Round>, reason: Option<StopReason>)
    requires rounds != [] && StopsFor(stage, rounds, reason)
    ensures !GoesOn(stage, rounds)
  {
    hide GivesUp, AllQuarantined, IsSaturated;
    OneOfTheReasons(reason);
  }

  lemma OneOfTheReasons(reason: Option<StopReason>)
    ensures reason in {None, Some(TooManyFailures), Some(EveryDojoQuarantined), Some(FeedFailedAtRoundStart),
                       Some(FeedFailedOnAStep)}
  {
    if reason.Some? {
      match reason.value {
        case TooManyFailures =>
        case EveryDojoQuarantined =>
        case FeedFailedAtRoundStart =>
        case FeedFailedOnAStep =>
      }
    }
  }

  lemma OneReason(stage: Stage, rounds: seq<Round>, a: Option<StopReason>, b: Option<StopReason>)
    requires rounds != [] && StopsFor(stage, rounds, a) && StopsFor(stage, rounds, b)
    ensures a == b
  {
    hide GivesUp, AllQuarantined, IsSaturated;
    OneOfTheReasons(a);
    OneOfTheReasons(b);
  }

  lemma NoLongerPhase(stage: Stage, a: seq<Round>, b: seq<Round>, reason: Option<StopReason>)
    requires IsPhase(stage, a, reason) && ValidPhase(stage.phase)
    requires AreRounds(stage, b) && AreAnswered(stage, EventsOf(b)) && |a| <= |b|
    ensures a == b
  {
    hide AreRounds, AreAnswered, StopsFor, GoesOn;
    var n := |a|;
    SameRounds(stage, a, b, n);
    assert a[..n] == a == b[..n];
    if n < |b| {
      RoundAt(stage, b, n);
      StoppedIsNotGoingOn(stage, a, reason);
    } else {
      assert b[..n] == b;
    }
  }

  /** A phase's start and the world fix its rounds and why it stopped. */
  lemma PhaseIsDetermined(stage: Stage, a: seq<Round>, reason: Option<StopReason>, b: seq<Round>,
                          other: Option<StopReason>)
    requires IsPhase(stage, a, reason) && IsPhase(stage, b, other) && ValidPhase(stage.phase)
    ensures a == b && reason == other
  {
    hide AreRounds, AreAnswered, StopsFor;
    if |a| <= |b| {
      NoLongerPhase(stage, a, b, reason);
    } else {
      NoLongerPhase(stage, b, a, other);
    }
    OneReason(stage, a, reason, other);
  }

  // ----- a run

  lemma {:induction false} PhaseAt(plan: Plan, world: World, phases: seq<seq<Round>>, n: nat)
    requires ArePhases(plan, world, phases) && n < |phases|
    ensures n < |plan.phases| && IsPhase(NextStage(plan, world, phases[..n]), phases[n], None)
    decreases |phases|
  {
    hide IsPhase, NextStage;
    var front := phases[..|phases| - 1];
    if n < |front| {
      PhaseAt(plan, world, front, n);
      assert front[..n] == phases[..n];
    }
  }

  /** The run's n-th phase, with its own reason. */
  lemma PhaseOfRun(plan: Plan, world: World, phases: seq<seq<Round>>, reason: Option<StopReason>, n: nat)
    requires IsRun(plan, world, phases, reason) && n < |phases|
    ensures n < |phases| <= |plan.phases|
    ensures IsPhase(NextStage(plan, world, phases[..n]), phases[n], ReasonAt(phases, reason, n))
  {
    hide IsPhase, NextStage;
    var front := phases[..|phases| - 1];
    if n < |front| {
      PhaseAt(plan, world, front, n);
      assert front[..n] == phases[..n];
    }
  }

  function ReasonAt(phases: seq<seq<Round>>, reason: Option<StopReason>, n: nat): Option<StopReason> {
    if n + 1 == |phases| then reason else None
  }

  lemma NextPhaseIsDetermined(plan: Plan, world: World, a: seq<seq<Round>>, reason: Option<StopReason>,
                              b: seq<seq<Round>>, other: Option<StopReason>, m: nat)
    requires IsRun(plan, world, a, reason) && IsRun(plan, world, b, other) && m < |a| && m < |b| && ValidPlan(plan)
    requires a[..m] == b[..m]
    ensures a[m] == b[m] && ReasonAt(a, reason, m) == ReasonAt(b, other, m)
  {
    hide IsPhase, IsRun;
    PhaseOfRun(plan, world, a, reason, m);
    PhaseOfRun(plan, world, b, other, m);
    PhaseIsDetermined(NextStage(plan, world, a[..m]), a[m], ReasonAt(a, reason, m), b[m], ReasonAt(b, other, m));
  }

  lemma {:induction false} SamePhases(plan: Plan, world: World, a: seq<seq<Round>>, reason: Option<StopReason>,
                                      b: seq<seq<Round>>, other: Option<StopReason>, n: nat)
    requires IsRun(plan, world, a, reason) && IsRun(plan, world, b, other) && n <= |a| && n <= |b| && ValidPlan(plan)
    ensures a[..n] == b[..n] && (n > 0 ==> ReasonAt(a, reason, n - 1) == ReasonAt(b, other, n - 1))
    decreases n
  {
    hide *;
    if n > 0 {
      SamePhases(plan, world, a, reason, b, other, n - 1);
      NextPhaseIsDetermined(plan, world, a, reason, b, other, n - 1);
      OneMoreAgrees(a, b, n - 1);
    }
  }

  lemma NoLongerRun(plan: Plan, world: World, a: seq<seq<Round>>, reason: Option<StopReason>,
                    b: seq<seq<Round>>, other: Option<StopReason>)
    requires IsRun(plan, world, a, reason) && IsRun(plan, world, b, other) && |a| <= |b| && ValidPlan(plan)
    ensures a == b && reason == other
  {
    hide IsPhase, ArePhases;
    SamePhases(plan, world, a, reason, b, other, |a|);
    PhaseOfRun(plan, world, b, other, 0);
    assert a[..|a|] == a && b[..|b|] == b;
  }

  /** Two runs of one plan in one world are the same run, stopped for the same reason. */
  lemma RunIsDetermined(plan: Plan, world: World, a: seq<seq<Round>>, reason: Option<StopReason>,
                        b: seq<seq<Round>>, other: Option<StopReason>)
    requires IsRun(plan, world, a, reason) && IsRun(plan, world, b, other) && ValidPlan(plan)
    ensures a == b && reason == other
  {
    hide IsPhase, IsRun;
    if |a| <= |b| {
      NoLongerRun(plan, world, a, reason, b, other);
    } else {
      NoLongerRun(plan, world, b, other, a, reason);
    }
  }
}
