/** A training run as its sequence of events, and what the counters kept along it must be. */
module TrainingEvents {
  type Name = string

  datatype FaultPolicy = FaultPolicy(maxConsecutiveDojoFailures: nat, maxConsecutiveFailures: nat,
                                     maxTotalDojoFailures: nat)

  predicate ValidPolicy(policy: FaultPolicy) {
    policy.maxConsecutiveDojoFailures >= 1 && policy.maxConsecutiveFailures >= 1 && policy.maxTotalDojoFailures >= 1
  }

  /** How one step attempt ended. FeedRaised: the batch feed's own error, which ends the run. */
  datatype Ending = Stepped | OverflowSkipped | BaselineSkipped | Failed | FeedRaised

  /** A step attempt, with the dojos active and not quarantined and the loss scale when it began; or a
      sampler failure, which is no attempt. */
  datatype Event = Attempted(name: Name, active: seq<Name>, lossScale: real, ending: Ending) | SamplerFailed

  function Attempts(events: seq<Event>): nat {
    if events == [] then 0
    else Attempts(events[..|events| - 1]) + (if events[|events| - 1].Attempted? then 1 else 0)
  }

  function CountOf(events: seq<Event>, ending: Ending): nat {
    if events == [] then 0
    else CountOf(events[..|events| - 1], ending) + (if EndedAs(events[|events| - 1], ending) then 1 else 0)
  }

  predicate EndedAs(event: Event, ending: Ending) {
    event.Attempted? && event.ending == ending
  }

  predicate FailureOf(event: Event, name: Name) {
    EndedAs(event, Failed) && event.name == name
  }

  /** An fp16 overflow skip counts as a success; a skipped degenerate batch is neither. */
  predicate IsSuccess(event: Event) {
    EndedAs(event, Stepped) || EndedAs(event, OverflowSkipped)
  }

  function Failures(events: seq<Event>, name: Name): nat {
    if events == [] then 0
    else Failures(events[..|events| - 1], name) + (if FailureOf(events[|events| - 1], name) then 1 else 0)
  }

  /** The dojo's failures since its last success. */
  function Streak(events: seq<Event>, name: Name): nat {
    if events == [] then 0
    else
      var last, rest := events[|events| - 1], Streak(events[..|events| - 1], name);
      if FailureOf(last, name) then rest + 1
      else if IsSuccess(last) && last.name == name then 0
      else rest
  }

  /** Failures of any dojo, or of the sampler, since the last success of any dojo. */
  function OverallStreak(events: seq<Event>): nat {
    if events == [] then 0
    else
      var last, rest := events[|events| - 1], OverallStreak(events[..|events| - 1]);
      if last.SamplerFailed? || EndedAs(last, Failed) then rest + 1 else if IsSuccess(last) then 0 else rest
  }

  predicate ReachesLimit(policy: FaultPolicy, events: seq<Event>, name: Name) {
    || Streak(events, name) >= policy.maxConsecutiveDojoFailures
    || Failures(events, name) >= policy.maxTotalDojoFailures
  }

  /** A dojo is quarantined from the failure that reaches one of its limits on. */
  predicate Quarantined(policy: FaultPolicy, events: seq<Event>, name: Name)
    decreases |events|
  {
    events != [] &&
    (Quarantined(policy, events[..|events| - 1], name)
     || (FailureOf(events[|events| - 1], name) && ReachesLimit(policy, events, name)))
  }

  predicate GaveUp(policy: FaultPolicy, events: seq<Event>) {
    OverallStreak(events) >= policy.maxConsecutiveFailures
  }

  /** The tracker's active dojos that are not quarantined, in the tracker's order. */
  function ActiveNames(policy: FaultPolicy, tracked: seq<Name>, events: seq<Event>): seq<Name> {
    if tracked == [] then []
    else if Quarantined(policy, events, tracked[0]) then ActiveNames(policy, tracked[1..], events)
    else [tracked[0]] + ActiveNames(policy, tracked[1..], events)
  }

  lemma {:induction false} ActiveNamesAreNotQuarantined(policy: FaultPolicy, tracked: seq<Name>, events: seq<Event>,
                                                        name: Name)
    ensures name in ActiveNames(policy, tracked, events) <==> name in tracked && !Quarantined(policy, events, name)
  {
    if tracked != [] {
      ActiveNamesAreNotQuarantined(policy, tracked[1..], events, name);
    }
  }

  // ----- one more event

  lemma DropLast<T>(s: seq<T>, e: T)
    ensures (s + [e])[..|s + [e]| - 1] == s && (s + [e])[|s + [e]| - 1] == e
  {
  }

  lemma CountsStep(events: seq<Event>, event: Event, ending: Ending)
    ensures Attempts(events + [event]) == Attempts(events) + (if event.Attempted? then 1 else 0)
    ensures CountOf(events + [event], ending) == CountOf(events, ending) + (if EndedAs(event, ending) then 1 else 0)
  {
    DropLast(events, event);
  }

  lemma FaultsStep(policy: FaultPolicy, events: seq<Event>, event: Event, name: Name)
    ensures Failures(events + [event], name) == Failures(events, name) + (if FailureOf(event, name) then 1 else 0)
    ensures Streak(events + [event], name) ==
            if FailureOf(event, name) then Streak(events, name) + 1
            else if IsSuccess(event) && event.name == name then 0 else Streak(events, name)
    ensures OverallStreak(events + [event]) ==
            if event.SamplerFailed? || EndedAs(event, Failed) then OverallStreak(events) + 1
            else if IsSuccess(event) then 0 else OverallStreak(events)
    ensures Quarantined(policy, events + [event], name) <==>
            Quarantined(policy, events, name)
            || (FailureOf(event, name) && ReachesLimit(policy, events + [event], name))
  {
    DropLast(events, event);
  }

  // ----- accounting and quarantine over a whole run

  /** Every attempt ends in exactly one way. */
  lemma {:induction false} AttemptsAreAccountedFor(events: seq<Event>)
    ensures Attempts(events) == CountOf(events, Stepped) + CountOf(events, OverflowSkipped)
                                + CountOf(events, BaselineSkipped) + CountOf(events, Failed)
                                + CountOf(events, FeedRaised)
  {
    if events != [] {
      AttemptsAreAccountedFor(events[..|events| - 1]);
    }
  }

  lemma {:induction false} CountsConcat(a: seq<Event>, b: seq<Event>, ending: Ending)
    ensures Attempts(a + b) == Attempts(a) + Attempts(b)
    ensures CountOf(a + b, ending) == CountOf(a, ending) + CountOf(b, ending)
    decreases |b|
  {
    if b == [] {
      assert a + b == a;
    } else {
      CountsConcat(a, b[..|b| - 1], ending);
      assert (a + b)[..|a + b| - 1] == a + b[..|b| - 1];
    }
  }

  ghost predicate AttemptsOnly(names: set<Name>, events: seq<Event>) {
    forall i :: 0 <= i < |events| && events[i].Attempted? ==> events[i].name in names
  }

  /** Every attempt was on a dojo that was active and not quarantined when it began. */
  ghost predicate EveryAttemptAllowed(policy: FaultPolicy, events: seq<Event>) {
    forall i :: 0 <= i < |events| && events[i].Attempted? ==>
      events[i].name in events[i].active && !Quarantined(policy, events[..i], events[i].name)
  }

  lemma {:induction false} QuarantinedSince(policy: FaultPolicy, events: seq<Event>, k: nat, name: Name)
    requires k <= |events| && Quarantined(policy, events[..k], name)
    ensures Quarantined(policy, events, name)
    decreases |events| - k
  {
    if k < |events| {
      assert events[..k + 1][..k] == events[..k] && |events[..k + 1]| == k + 1;
      QuarantinedSince(policy, events, k + 1, name);
    } else {
      assert events[..k] == events;
    }
  }

  /** In a run whose every attempt was allowed, a quarantined dojo is attempted no more, so it has failed
      exactly up to the limit that quarantined it. */
  lemma QuarantineIsFinal(policy: FaultPolicy, events: seq<Event>, k: nat, later: nat, name: Name)
    requires EveryAttemptAllowed(policy, events) && k <= later < |events|
    requires Quarantined(policy, events[..k], name)
    ensures events[later].Attempted? ==> events[later].name != name
  {
    assert events[..later][..k] == events[..k];
    QuarantinedSince(policy, events[..later], k, name);
  }

  lemma {:induction false} FailuresStayWithinLimit(policy: FaultPolicy, events: seq<Event>, name: Name)
    requires ValidPolicy(policy) && EveryAttemptAllowed(policy, events)
    ensures Failures(events, name) <= policy.maxTotalDojoFailures
    ensures Streak(events, name) <= policy.maxConsecutiveDojoFailures
    ensures !Quarantined(policy, events, name) ==> !ReachesLimit(policy, events, name)
  {
    if events != [] {
      var last := |events| - 1;
      var rest, event := events[..last], events[last];
      assert events == rest + [event];
      forall i | 0 <= i < last && rest[i].Attempted?
        ensures rest[i].name in rest[i].active && !Quarantined(policy, rest[..i], rest[i].name)
      {
        assert rest[..i] == events[..i] && rest[i] == events[i];
      }
      FailuresStayWithinLimit(policy, rest, name);
      FaultsStep(policy, rest, event, name);
    }
  }

  // ----- the fp16 loss scale

  const MIN_LOSS_SCALE := 1.0
  const GROWTH_INTERVAL: nat := 2000

  datatype Scale = Scale(value: real, growthTracker: nat)

  /** GradScaler.update after a step: halve on a non-finite gradient, double after enough finite ones. */
  function Updated(scale: Scale, finite: bool): Scale {
    if !finite then Scale(scale.value * 0.5, 0)
    else if scale.growthTracker + 1 >= GROWTH_INTERVAL then Scale(scale.value * 2.0, 0)
    else Scale(scale.value, scale.growthTracker + 1)
  }

  /** The scale after one scaled step: an overflow at or below the floor is clamped back to it. */
  function AfterScaledStep(scale: Scale, finite: bool): Scale {
    var updated := Updated(scale, finite);
    if updated.value >= scale.value || scale.value > MIN_LOSS_SCALE then updated
    else updated.(value := MIN_LOSS_SCALE)
  }

  function AfterScaledSteps(scale: Scale, finite: seq<bool>): Scale
    decreases finite
  {
    if finite == [] then scale else AfterScaledSteps(AfterScaledStep(scale, finite[0]), finite[1..])
  }

  function PowerOfTwo(k: nat): (power: real)
    ensures power >= 1.0
  {
    if k == 0 then 1.0 else 2.0 * PowerOfTwo(k - 1)
  }

  ghost predicate IsPowerOfTwo(value: real) {
    exists k: nat :: value == PowerOfTwo(k)
  }

  lemma StepKeepsPowersOfTwo(scale: Scale, finite: bool)
    requires IsPowerOfTwo(scale.value)
    ensures IsPowerOfTwo(AfterScaledStep(scale, finite).value) && AfterScaledStep(scale, finite).value >= MIN_LOSS_SCALE
  {
    var k: nat :| scale.value == PowerOfTwo(k);
    assert PowerOfTwo(k + 1) == 2.0 * scale.value && PowerOfTwo(0) == 1.0;
    if k > 0 {
      assert PowerOfTwo(k - 1) == scale.value * 0.5;
    }
  }

  lemma {:induction false} PowersOfTwoStayAboveTheFloor(scale: Scale, finite: seq<bool>)
    requires IsPowerOfTwo(scale.value)
    ensures AfterScaledSteps(scale, finite).value >= MIN_LOSS_SCALE
    decreases finite
  {
    if finite == [] {
      var k: nat :| scale.value == PowerOfTwo(k);
    } else {
      StepKeepsPowersOfTwo(scale, finite[0]);
      PowersOfTwoStayAboveTheFloor(AfterScaledStep(scale, finite[0]), finite[1..]);
    }
  }

  function Overflows(n: nat): seq<bool> {
    seq(n, _ => false)
  }

  /** Any other scale can be driven below the floor: enough overflows halve it past 1 without meeting 1. */
  lemma {:induction false} OtherScalesFallBelowTheFloor(scale: Scale, k: nat) returns (n: nat)
    requires scale.value < PowerOfTwo(k) && !IsPowerOfTwo(scale.value)
    ensures AfterScaledSteps(scale, Overflows(n)).value < MIN_LOSS_SCALE
    decreases k
  {
    if scale.value < MIN_LOSS_SCALE {
      n := 0;
    } else {
      assert scale.value != 1.0 by {
        assert PowerOfTwo(0) == 1.0;
      }
      var next := AfterScaledStep(scale, false);
      if IsPowerOfTwo(next.value) {
        var j: nat :| next.value == PowerOfTwo(j);
        assert PowerOfTwo(j + 1) == scale.value;
      }
      var m := OtherScalesFallBelowTheFloor(next, k - 1);
      n := m + 1;
      assert Overflows(n)[0] == false && Overflows(n)[1..] == Overflows(m);
    }
  }

  lemma {:induction false} BelowSomePower(value: real) returns (k: nat)
    ensures value < PowerOfTwo(k)
    decreases if value < 1.0 then 0 else value.Floor
  {
    if value < 1.0 {
      k := 0;
    } else {
      var j := BelowSomePower(value / 2.0);
      k := j + 1;
      assert PowerOfTwo(k) == 2.0 * PowerOfTwo(j);
    }
  }

  /** GradScaler's own first scale. */
  lemma DefaultScaleIsAPowerOfTwo()
    ensures IsPowerOfTwo(65536.0)
  {
    assert PowerOfTwo(2) == 4.0 && PowerOfTwo(4) == 16.0 && PowerOfTwo(6) == 64.0 && PowerOfTwo(8) == 256.0;
    assert PowerOfTwo(10) == 1024.0 && PowerOfTwo(12) == 4096.0 && PowerOfTwo(14) == 16384.0;
    assert PowerOfTwo(16) == 65536.0;
  }

  /** Every step of every run starts at or above the floor exactly when the first scale is a power of two. */
  lemma FloorHoldsExactlyForPowersOfTwo(scale: Scale)
    ensures (forall finite: seq<bool> :: AfterScaledSteps(scale, finite).value >= MIN_LOSS_SCALE)
            <==> IsPowerOfTwo(scale.value)
  {
    if IsPowerOfTwo(scale.value) {
      forall finite: seq<bool> ensures AfterScaledSteps(scale, finite).value >= MIN_LOSS_SCALE {
        PowersOfTwoStayAboveTheFloor(scale, finite);
      }
    } else {
      var k := BelowSomePower(scale.value);
      var n := OtherScalesFallBelowTheFloor(scale, k);
    }
  }
}
