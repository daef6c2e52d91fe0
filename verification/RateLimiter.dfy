/** Spacing consecutive calls at least one interval apart over a monotone clock. */
module RateLimiter {
  import opened Reals
  import opened Wrappers

  /** A monotone clock: each reading is later by some drift, and a sleep lasts at least what was asked. */
  class Clock {
    const drift: nat -> real
    var now: real
    var readings: nat
    ghost var sleeps: seq<real>

    constructor (drift: nat -> real)
      ensures this.drift == drift && now == 0.0 && readings == 0 && sleeps == []
    {
      this.drift := drift;
      now, readings, sleeps := 0.0, 0, [];
    }

    ghost predicate Valid() {
      forall k :: drift(k) >= 0.0
    }

    method Read() returns (time: real)
      requires Valid()
      modifies this
      ensures time == now == old(now) + drift(old(readings)) && now >= old(now)
      ensures readings == old(readings) + 1 && sleeps == old(sleeps)
    {
      now := now + drift(readings);
      readings := readings + 1;
      time := now;
    }

    method Sleep(seconds: real)
      requires Valid() && seconds >= 0.0
      modifies this
      ensures now == old(now) + seconds + drift(old(readings)) && now >= old(now) + seconds
      ensures readings == old(readings) + 1 && sleeps == old(sleeps) + [seconds]
    {
      now := now + seconds + drift(readings);
      readings := readings + 1;
      sleeps := sleeps + [seconds];
    }
  }

  /** Consecutive times are at least `interval` apart. */
  ghost predicate AreSpaced(times: seq<real>, interval: real) {
    forall i :: 0 < i < |times| ==> times[i] - times[i - 1] >= interval
  }

  function Multiple(n: int, x: real): real {
    Times(n as real, x)
  }

  lemma MultipleStep(n: int, x: real)
    ensures Multiple(n + 1, x) == Multiple(n, x) + x && Multiple(0, x) == 0.0
  {
  }

  lemma {:induction false} SpacedFarApart(times: seq<real>, interval: real, i: nat, j: nat)
    requires AreSpaced(times, interval) && i <= j < |times|
    ensures times[j] - times[i] >= Multiple(j - i, interval)
    decreases j
  {
    if i < j {
      SpacedFarApart(times, interval, i, j - 1);
      MultipleStep(j - 1 - i, interval);
      assert times[j] - times[j - 1] >= interval;
    } else {
      MultipleStep(0, interval);
    }
  }

  /** How many of the times lie in [start, start + length]. */
  function CountIn(times: seq<real>, start: real, length: real): (count: nat)
    ensures count <= |times|
  {
    if times == [] then 0
    else
      var last := |times| - 1;
      CountIn(times[..last], start, length) + (if start <= times[last] <= start + length then 1 else 0)
  }

  /** If the window holds any of the times, it holds a run of them that ends with the last one in it. */
  lemma {:induction false} CountedAreARun(times: seq<real>, start: real, length: real, interval: real)
    returns (last: nat)
    requires interval > 0.0 && AreSpaced(times, interval) && CountIn(times, start, length) > 0
    ensures last < |times| && CountIn(times, start, length) <= last + 1
    ensures times[last] <= start + length && times[last + 1 - CountIn(times, start, length)] >= start
  {
    var end := |times| - 1;
    var rest := times[..end];
    assert forall i :: 0 < i < |rest| ==> rest[i] == times[i];
    if CountIn(rest, start, length) == 0 {
      last := end;
    } else {
      var before := CountedAreARun(rest, start, length, interval);
      if start <= times[end] <= start + length {
        last := end;
        var first := end + 1 - CountIn(times, start, length);
        SpacedFarApart(times, interval, before + 1 - CountIn(rest, start, length), first);
        NonNegative(first - (before + 1 - CountIn(rest, start, length)), interval);
      } else {
        last := before;
      }
    }
  }

  lemma NonNegative(n: int, x: real)
    requires n >= 0 && x >= 0.0
    ensures Multiple(n, x) >= 0.0
  {
  }

  /** Any window of a given length holds at most length / interval + 1 of the calls. */
  lemma WindowHoldsFewCalls(times: seq<real>, start: real, length: real, interval: real)
    requires interval > 0.0 && length >= 0.0 && AreSpaced(times, interval)
    ensures CountIn(times, start, length) as real <= length / interval + 1.0
  {
    var count := CountIn(times, start, length);
    MultipleStep(0, interval);
    if count == 0 {
      AtMostQuotient(0, interval, length);
    } else {
      var last := CountedAreARun(times, start, length, interval);
      SpacedFarApart(times, interval, last + 1 - count, last);
      AtMostQuotient(count - 1, interval, length);
    }
  }

  lemma AtMostQuotient(n: int, x: real, limit: real)
    requires x > 0.0 && Multiple(n, x) <= limit
    ensures n as real <= limit / x
  {
    var quotient := limit / x;
    assert quotient * x == limit;
    if quotient < n as real {
      assert (n as real - quotient) * x > 0.0;
    }
  }

  class RateLimiter {
    const minIntervalSeconds: real
    var lastCall: Option<real>
    ghost var calls: seq<real>

    constructor (requestsPerMinute: real)
      requires requestsPerMinute > 0.0
      ensures Valid() && calls == [] && minIntervalSeconds == 60.0 / requestsPerMinute
    {
      minIntervalSeconds := 60.0 / requestsPerMinute;
      lastCall := None;
      calls := [];
    }

    /** Every recorded call is at least one interval after the one before. */
    ghost predicate Valid()
      reads this
    {
      && minIntervalSeconds > 0.0 && AreSpaced(calls, minIntervalSeconds)
      && lastCall == if calls == [] then None else Some(calls[|calls| - 1])
    }

    /** What is left of the interval at `time`; nothing before the first call. */
    function Remaining(time: real): real
      reads this
    {
      if lastCall == None then 0.0 else minIntervalSeconds - (time - lastCall.value)
    }

    /** Block, if need be, for what is left of one interval since the last recorded call; then record this one. */
    method Wait(clock: Clock)
      requires Valid() && clock.Valid() && (calls != [] ==> calls[|calls| - 1] <= clock.now)
      modifies this, clock
      ensures Valid() && calls == old(calls) + [clock.now] && lastCall == Some(clock.now)
      ensures clock.now >= old(clock.now)
      ensures var reading := old(clock.readings);
              var time := old(clock.now) + clock.drift(reading);
              var remaining := old(Remaining(time));
              && remaining <= minIntervalSeconds
              && clock.sleeps == old(clock.sleeps) + (if remaining > 0.0 then [remaining] else [])
              && clock.now == if remaining > 0.0
                              then time + remaining + clock.drift(reading + 1) + clock.drift(reading + 2) else time
    {
      var now := clock.Read();
      if lastCall != None {
        var elapsed := now - lastCall.value;
        var remaining := minIntervalSeconds - elapsed;
        if remaining > 0.0 {
          clock.Sleep(remaining);
          now := clock.Read();
        }
      }
      lastCall := Some(now);
      calls := calls + [now];
    }
  }
}
