/** What one phase of training mutates: its fault ledger, batch feed, loss scaler and saturation tracker. */
module TrainingParts {
  import opened TrainingEvents
  import opened Wrappers

  ghost predicate AreCounts(policy: FaultPolicy, events: seq<Event>, name: Name, consecutive: nat, total: nat,
                            quarantined: bool)
  {
    && consecutive == Streak(events, name) && total == Failures(events, name)
    && quarantined == Quarantined(policy, events, name)
  }

  lemma OverallStep(events: seq<Event>, event: Event)
    ensures OverallStreak(events + [event]) ==
            if event.SamplerFailed? || EndedAs(event, Failed) then OverallStreak(events) + 1
            else if IsSuccess(event) then 0 else OverallStreak(events)
  {
    DropLast(events, event);
  }

  /** What one more event does to one dojo's counts. */
  lemma CountsAfter(policy: FaultPolicy, events: seq<Event>, event: Event, name: Name, consecutive: nat, total: nat,
                    quarantined: bool)
    requires AreCounts(policy, events, name, consecutive, total, quarantined)
    ensures if FailureOf(event, name)
            then AreCounts(policy, events + [event], name, consecutive + 1, total + 1,
                           quarantined || consecutive + 1 >= policy.maxConsecutiveDojoFailures
                           || total + 1 >= policy.maxTotalDojoFailures)
            else AreCounts(policy, events + [event], name,
                           if IsSuccess(event) && event.name == name then 0 else consecutive, total, quarantined)
  {
    FaultsStep(policy, events, event, name);
  }

  /** Failure counts per dojo and overall, and the quarantine. */
  class DojoFaultLedger {
    const policy: FaultPolicy
    const dojoNames: set<Name>
    var consecutiveByDojo: map<Name, nat>
    var totalByDojo: map<Name, nat>
    var consecutiveOverall: nat
    var quarantined: set<Name>

    /** The counts and the quarantine are those of these events. */
    ghost predicate Reflects(events: seq<Event>)
      reads this
    {
      && ValidPolicy(policy) && consecutiveByDojo.Keys == dojoNames && totalByDojo.Keys == dojoNames
      && consecutiveOverall == OverallStreak(events)
      && quarantined <= dojoNames
      && forall name :: name in dojoNames ==>
           AreCounts(policy, events, name, consecutiveByDojo[name], totalByDojo[name], name in quarantined)
    }

    constructor (policy: FaultPolicy, dojoNames: set<Name>)
      requires ValidPolicy(policy)
      ensures Reflects([]) && this.policy == policy && this.dojoNames == dojoNames
    {
      this.policy := policy;
      this.dojoNames := dojoNames;
      consecutiveByDojo := map name | name in dojoNames :: 0;
      totalByDojo := map name | name in dojoNames :: 0;
      consecutiveOverall := 0;
      quarantined := {};
    }

    /** Count one failure; a None name (the sampler's) counts toward the overall limit only. */
    method RecordFailure(name: Option<Name>, ghost events: seq<Event>, ghost event: Event)
      requires Reflects(events) && (name.Some? ==> name.value in dojoNames)
      requires if name.Some? then FailureOf(event, name.value) else event == SamplerFailed
      modifies this
      ensures Reflects(events + [event])
    {
      hide AreCounts, OverallStreak;
      OverallStep(events, event);
      ghost var before, total, inQuarantine := consecutiveByDojo, totalByDojo, quarantined;
      forall n | n in dojoNames && !(name.Some? && name.value == n)
        ensures AreCounts(policy, events + [event], n, before[n], total[n], n in inQuarantine)
      {
        CountsAfter(policy, events, event, n, before[n], total[n], n in inQuarantine);
      }
      consecutiveOverall := consecutiveOverall + 1;
      if name == None {
        return;
      }
      CountsAfter(policy, events, event, name.value, before[name.value], total[name.value], name.value in quarantined);
      consecutiveByDojo := consecutiveByDojo[name.value := consecutiveByDojo[name.value] + 1];
      totalByDojo := totalByDojo[name.value := totalByDojo[name.value] + 1];
      if name.value !in quarantined && (consecutiveByDojo[name.value] >= policy.maxConsecutiveDojoFailures
                                        || totalByDojo[name.value] >= policy.maxTotalDojoFailures) {
        quarantined := quarantined + {name.value};
      }
    }

    /** A success, an overflow skip included, ends the dojo's streak and the overall one. */
    method RecordSuccess(name: Name, ghost events: seq<Event>, ghost event: Event)
      requires Reflects(events) && name in dojoNames && IsSuccess(event) && event.name == name
      modifies this
      ensures Reflects(events + [event])
    {
      hide AreCounts, OverallStreak;
      OverallStep(events, event);
      ghost var before := consecutiveByDojo;
      forall n | n in dojoNames && n != name
        ensures AreCounts(policy, events + [event], n, before[n], totalByDojo[n], n in quarantined)
      {
        CountsAfter(policy, events, event, n, before[n], totalByDojo[n], n in quarantined);
      }
      CountsAfter(policy, events, event, name, before[name], totalByDojo[name], name in quarantined);
      consecutiveByDojo := consecutiveByDojo[name := 0];
      consecutiveOverall := 0;
    }

    /** An attempt that neither failed nor ran leaves the ledger right as it is. */
    lemma UntouchedStillReflects(events: seq<Event>, event: Event)
      requires Reflects(events) && (EndedAs(event, BaselineSkipped) || EndedAs(event, FeedRaised))
      ensures Reflects(events + [event])
    {
      hide AreCounts, OverallStreak;
      OverallStep(events, event);
      forall n | n in dojoNames
        ensures AreCounts(policy, events + [event], n, consecutiveByDojo[n], totalByDojo[n], n in quarantined)
      {
        CountsAfter(policy, events, event, n, consecutiveByDojo[n], totalByDojo[n], n in quarantined);
      }
    }

    method GaveUpNow(ghost events: seq<Event>) returns (gaveUp: bool)
      requires Reflects(events)
      ensures gaveUp == GaveUp(policy, events)
    {
      gaveUp := consecutiveOverall >= policy.maxConsecutiveFailures;
    }
  }

  datatype FeedError = ScheduleMismatch | WorkerStopped

  /** What building a batch gave: a batch, or the dojo's own error. */
  datatype Built = Batch | DojoError

  /** The round's unconsumed steps, next first; None between rounds. A prefetching feed's worker may also
      have stopped, which a direct feed's never does. */
  class BatchFeed {
    var pending: Option<seq<Name>>

    constructor ()
      ensures pending == None
    {
      pending := None;
    }

    method BeginRound(schedule: seq<Name>, workerStopped: bool) returns (error: Option<FeedError>)
      modifies this
      ensures error == if old(pending).Some? then Some(ScheduleMismatch)
                       else if workerStopped then Some(WorkerStopped) else None
      ensures pending == if error == None then Some(schedule) else old(pending)
    {
      if pending != None {
        return Some(ScheduleMismatch);
      }
      if workerStopped {
        return Some(WorkerStopped);
      }
      pending := Some(schedule);
      error := None;
    }

    /** The next scheduled step's batch; a dojo's own error consumes the step. */
    method NextBatch(name: Name, built: Built, workerStopped: bool) returns (error: Option<FeedError>, batch: Built)
      modifies this
      ensures error == if old(pending) == None || old(pending).value == [] || old(pending).value[0] != name
                       then Some(ScheduleMismatch)
                       else if workerStopped then Some(WorkerStopped) else None
      ensures pending == if error == None then Some(old(pending).value[1..]) else old(pending)
      ensures batch == built
    {
      batch := built;
      if pending == None || pending.value == [] || pending.value[0] != name {
        return Some(ScheduleMismatch), built;
      }
      if workerStopped {
        return Some(WorkerStopped), built;
      }
      pending := Some(pending.value[1..]);
      error := None;
    }

    method Reschedule(remaining: seq<Name>) returns (error: Option<FeedError>)
      modifies this
      ensures error == if old(pending) == None then Some(ScheduleMismatch) else None
      ensures pending == if error == None then Some(remaining) else None
    {
      if pending == None {
        return Some(ScheduleMismatch);
      }
      pending := Some(remaining);
      error := None;
    }

    method EndRound()
      modifies this
      ensures pending == None
    {
      pending := None;
    }
  }

  /** The fp16 loss scaler; a pass-through when disabled. */
  class GradScaler {
    const enabled: bool
    var scale: Scale

    constructor (enabled: bool, initial: real)
      ensures this.enabled == enabled && scale == Scale(initial, 0)
    {
      this.enabled := enabled;
      scale := Scale(initial, 0);
    }

    method Update(finite: bool)
      modifies this
      ensures scale == if enabled then Updated(old(scale), finite) else old(scale)
    {
      if enabled {
        scale := Updated(scale, finite);
      }
    }

    method SetScale(value: real)
      modifies this
      ensures scale == if enabled then old(scale).(value := value) else old(scale)
    {
      if enabled {
        scale := scale.(value := value);
      }
    }
  }

  /** The phase's dojos and those of them saturated. */
  class SaturationTracker {
    const dojoNames: seq<Name>
    var saturated: set<Name>

    constructor (dojoNames: seq<Name>)
      ensures this.dojoNames == dojoNames && saturated == {}
    {
      this.dojoNames := dojoNames;
      saturated := {};
    }

    function ActiveDojoNames(): seq<Name>
      reads this
    {
      Unsaturated(dojoNames, saturated)
    }

    /** Enough of the dojos are saturated, a quarantined one counting as saturated. */
    function PhaseDone(quarantined: set<Name>, target: real): bool
      reads this
    {
      EnoughSaturated(dojoNames, saturated + quarantined, target)
    }
  }

  predicate EnoughSaturated(names: seq<Name>, saturated: set<Name>, target: real) {
    names != [] && (|names| - |Unsaturated(names, saturated)|) as real / |names| as real >= target
  }

  function Unsaturated(names: seq<Name>, saturated: set<Name>): seq<Name> {
    if names == [] then []
    else if names[0] in saturated then Unsaturated(names[1..], saturated)
    else [names[0]] + Unsaturated(names[1..], saturated)
  }

  lemma {:induction false} UnsaturatedAreTheRest(names: seq<Name>, saturated: set<Name>, name: Name)
    ensures name in Unsaturated(names, saturated) <==> name in names && name !in saturated
  {
    if names != [] {
      UnsaturatedAreTheRest(names[1..], saturated, name);
    }
  }
}
