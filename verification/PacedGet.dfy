/** The paced, retrying GET: every request after a wait, network errors retried, a 429 waited out. */
module PacedGet {
  import opened Decimals
  import opened RateLimiter

  /** What one request meets: an error before any answer, or a status and its Retry-After header. */
  datatype Reply = NetworkError | Response(status: nat, retryAfter: Header)

  /** A header's text: an HTTP client decodes it as Latin-1. */
  type Header = s: string | forall i :: 0 <= i < |s| ==> s[i] < '\U{100}'

  datatype Got =
    | Returned(reply: Reply)
    | RetriesFailed(reply: Reply)
    | StillRateLimited(reply: Reply)
    | UnreadableRetryAfter(reply: Reply)
    | BadArguments
    | NeverAttempted

  const RETRY_BACKOFF_SECONDS := 2.0
  const DEFAULT_RATE_LIMITED_WAIT_SECONDS := 60.0
  const MAX_RATE_LIMITED_WAIT_SECONDS := 900.0
  const DEFAULT_MAX_ATTEMPTS := 3
  const DEFAULT_MAX_RATE_LIMITED_WAITS := 5

  // ----- the Retry-After header

  /** str.isspace of a Latin-1 character. */
  predicate IsSpace(c: char) {
    c == ' ' || '\t' <= c <= '\r' || '\U{1C}' <= c <= '\U{1F}' || c == '\U{85}' || c == '\U{A0}'
  }

  function Strip(s: string): string {
    if s != [] && IsSpace(s[0]) then Strip(s[1..])
    else if s != [] && IsSpace(s[|s| - 1]) then Strip(s[..|s| - 1])
    else s
  }

  /** The superscripts one, two and three: str.isdigit takes them for digits, float does not read them. */
  predicate IsSuperscript(c: char) {
    c == '\U{B2}' || c == '\U{B3}' || c == '\U{B9}'
  }

  /** str.isdigit of a Latin-1 text. */
  predicate PassesForDigits(text: string) {
    text != [] && forall i :: 0 <= i < |text| ==> '0' <= text[i] <= '9' || IsSuperscript(text[i])
  }

  datatype RetryAfter = Seconds(seconds: real) | ValueError

  function RetryAfterSeconds(header: Header): (wait: RetryAfter)
    ensures wait.Seconds? ==> 0.0 <= wait.seconds <= MAX_RATE_LIMITED_WAIT_SECONDS
  {
    var text := Strip(header);
    if !PassesForDigits(text) then Seconds(DEFAULT_RATE_LIMITED_WAIT_SECONDS)
    else if !IsDigits(text) then ValueError
    else if ParsedDigits(text) as real < MAX_RATE_LIMITED_WAIT_SECONDS then Seconds(ParsedDigits(text) as real)
    else Seconds(MAX_RATE_LIMITED_WAIT_SECONDS)
  }

  ghost predicate AreSpaces(s: string) {
    forall i :: 0 <= i < |s| ==> IsSpace(s[i])
  }

  lemma {:induction false} StrippedOfSpaces(before: string, text: string, after: string)
    requires AreSpaces(before) && AreSpaces(after)
    requires text != [] && !IsSpace(text[0]) && !IsSpace(text[|text| - 1])
    ensures Strip(before + text + after) == text
    decreases |before| + |after|
  {
    var all := before + text + after;
    if before != [] {
      assert all[1..] == before[1..] + text + after;
      StrippedOfSpaces(before[1..], text, after);
    } else if after != [] {
      assert all[..|all| - 1] == before + text + after[..|after| - 1];
      StrippedOfSpaces(before, text, after[..|after| - 1]);
    } else {
      assert all == text;
    }
  }

  /** A header of n seconds, with spaces around, asks for n seconds up to the cap. */
  lemma RetryAfterReadsTheSeconds(n: nat, before: Header, after: Header)
    requires AreSpaces(before) && AreSpaces(after)
    ensures RetryAfterSeconds(before + DigitsOf(n) + after) == Seconds(if n < 900 then n as real else 900.0)
  {
    StrippedOfSpaces(before, DigitsOf(n), after);
    DigitsParseBack(n);
  }

  /** Reading the header raises exactly for digits with a superscript among them, spaces around or not. */
  lemma RetryAfterRaisesExactlyForSuperscripts(before: Header, text: Header, after: Header)
    requires AreSpaces(before) && AreSpaces(after)
    requires text != [] ==> !IsSpace(text[0]) && !IsSpace(text[|text| - 1])
    ensures RetryAfterSeconds(before + text + after) == ValueError
            <==> PassesForDigits(text) && exists i :: 0 <= i < |text| && IsSuperscript(text[i])
  {
    TextIsStripped(before, text, after);
  }

  /** Any header that is neither digits nor superscripts throughout, a date or none at all, asks for a minute. */
  lemma OtherHeadersAskForAMinute(before: Header, text: Header, after: Header)
    requires AreSpaces(before) && AreSpaces(after) && !PassesForDigits(text)
    requires text != [] ==> !IsSpace(text[0]) && !IsSpace(text[|text| - 1])
    ensures RetryAfterSeconds(before + text + after) == Seconds(60.0)
  {
    TextIsStripped(before, text, after);
  }

  /** What one character before a digit makes of a header, by its Latin-1 code. */
  lemma OneCharacterBeforeADigit(c: char, digit: char)
    requires c as int < 256 && '0' <= digit <= '9'
    ensures var n, d := c as int, digit as int - 48;
            RetryAfterSeconds([c, digit]) ==
            if n in {9, 10, 11, 12, 13, 28, 29, 30, 31, 32, 133, 160} then Seconds(d as real)
            else if n in {178, 179, 185} then ValueError
            else if 48 <= n < 58 then Seconds((10 * (n - 48) + d) as real)
            else Seconds(60.0)
  {
    var header := [c, digit];
    assert header[1..] == [digit] && header[..1] == [c];
    assert [digit][..0] == [] && [c][..0] == [];
    assert ParsedDigits([digit]) == digit as int - 48;
    if IsSpace(c) {
      assert Strip(header) == Strip([digit]) == [digit];
    } else {
      assert Strip(header) == header;
      assert forall i :: 0 <= i < |header| ==> header[i] == c || header[i] == digit;
      assert PassesForDigits(header) <==> '0' <= c <= '9' || IsSuperscript(c) by {
        assert header[0] == c;
      }
      assert IsDigits(header) <==> '0' <= c <= '9' by {
        assert header[0] == c;
      }
      if '0' <= c <= '9' {
        assert ParsedDigits(header) == ParsedDigits([c]) * 10 + (digit as int - 48);
      }
    }
  }

  lemma TextIsStripped(before: string, text: string, after: string)
    requires AreSpaces(before) && AreSpaces(after)
    requires text != [] ==> !IsSpace(text[0]) && !IsSpace(text[|text| - 1])
    ensures Strip(before + text + after) == text
  {
    if text != [] {
      StrippedOfSpaces(before, text, after);
    } else {
      assert before + text + after == before + after;
      SpacesStripToNothing(before + after);
    }
  }

  lemma {:induction false} SpacesStripToNothing(s: string)
    requires AreSpaces(s)
    ensures Strip(s) == []
    decreases |s|
  {
    if s != [] {
      SpacesStripToNothing(s[1..]);
    }
  }

  // ----- what a GET does against a server, as the replies of its requests

  /** An attempt raises on a network error or an untolerated 4xx or 5xx other than 429. */
  predicate Raises(reply: Reply, tolerated: set<nat>) {
    reply.NetworkError? || (reply.status != 429 && reply.status !in tolerated && 400 <= reply.status < 600)
  }

  /** How a group of attempts ended, how many requests it made, and the pauses between them. */
  datatype Tries = Tries(reply: Reply, succeeded: bool, used: nat, pauses: seq<real>)

  /** call_with_retries, from request number `from` on. */
  function Retried(server: nat -> Reply, tolerated: set<nat>, from: nat, attempts: nat): Tries
    requires attempts > 0
    decreases attempts
  {
    if !Raises(server(from), tolerated) then Tries(server(from), true, 1, [])
    else if attempts == 1 then Tries(server(from), false, 1, [])
    else
      var rest := Retried(server, tolerated, from + 1, attempts - 1);
      Tries(rest.reply, rest.succeeded, rest.used + 1, [RETRY_BACKOFF_SECONDS] + rest.pauses)
  }

  datatype Outcome = Outcome(got: Got, used: nat, pauses: seq<real>)

  /** The whole GET with `waits` 429s still to wait out. */
  function Paced(server: nat -> Reply, tolerated: set<nat>, from: nat, attempts: nat, waits: nat): Outcome
    requires attempts > 0
    decreases waits
  {
    var tries := Retried(server, tolerated, from, attempts);
    if !tries.succeeded then Outcome(RetriesFailed(tries.reply), tries.used, tries.pauses)
    else if !IsRateLimited(tries.reply) then Outcome(Returned(tries.reply), tries.used, tries.pauses)
    else if waits == 0 then Outcome(StillRateLimited(tries.reply), tries.used, tries.pauses)
    else if IsUnreadable(tries.reply) then Outcome(UnreadableRetryAfter(tries.reply), tries.used, tries.pauses)
    else
      var rest := Paced(server, tolerated, from + tries.used, attempts, waits - 1);
      Outcome(rest.got, tries.used + rest.used, tries.pauses + [RetryAfterSeconds(tries.reply.retryAfter).seconds]
              + rest.pauses)
  }

  /** Of a whole GET, `used` requests and the pauses so far are done, and `rest` is still to come. */
  ghost predicate Continues(whole: Outcome, rest: Outcome, used: int, before: seq<real>, pauses: seq<real>) {
    whole.got == rest.got && whole.used == used + rest.used && before + whole.pauses == pauses + rest.pauses
  }

  lemma ContinuesAfterWait(whole: Outcome, now: Outcome, used: int, before: seq<real>, pauses: seq<real>, tries: Tries,
                           seconds: real, rest: Outcome)
    requires Continues(whole, now, used, before, pauses)
    requires now == Outcome(rest.got, tries.used + rest.used, tries.pauses + [seconds] + rest.pauses)
    ensures Continues(whole, rest, used + tries.used, before, pauses + tries.pauses + [seconds])
  {
    assert pauses + (tries.pauses + [seconds] + rest.pauses) == pauses + tries.pauses + [seconds] + rest.pauses;
  }

  /** One group of attempts, and what follows it. */
  lemma PacedStep(server: nat -> Reply, tolerated: set<nat>, from: nat, attempts: nat, waits: nat)
    requires attempts > 0
    ensures var tries, o := Retried(server, tolerated, from, attempts), Paced(server, tolerated, from, attempts, waits);
            if !tries.succeeded then o == Outcome(RetriesFailed(tries.reply), tries.used, tries.pauses)
            else if !IsRateLimited(tries.reply) then o == Outcome(Returned(tries.reply), tries.used, tries.pauses)
            else if waits == 0 then o == Outcome(StillRateLimited(tries.reply), tries.used, tries.pauses)
            else if IsUnreadable(tries.reply)
            then o == Outcome(UnreadableRetryAfter(tries.reply), tries.used, tries.pauses)
            else
              var rest := Paced(server, tolerated, from + tries.used, attempts, waits - 1);
              o == Outcome(rest.got, tries.used + rest.used,
                           tries.pauses + [RetryAfterSeconds(tries.reply.retryAfter).seconds] + rest.pauses)
  {
  }

  /** One attempt of a group, and what follows it. */
  lemma RetriedStep(server: nat -> Reply, tolerated: set<nat>, from: nat, attempts: nat)
    requires attempts > 0
    ensures var t := Retried(server, tolerated, from, attempts);
            if !Raises(server(from), tolerated) then t == Tries(server(from), true, 1, [])
            else if attempts == 1 then t == Tries(server(from), false, 1, [])
            else
              var rest := Retried(server, tolerated, from + 1, attempts - 1);
              t == Tries(rest.reply, rest.succeeded, rest.used + 1, [RETRY_BACKOFF_SECONDS] + rest.pauses)
  {
  }

  /** A group ends at its first reply that does not raise, or after all its attempts raised. */
  lemma {:induction false} RetriedEndsAtTheFirstSuccess(server: nat -> Reply, tolerated: set<nat>, from: nat,
                                                        attempts: nat)
    requires attempts > 0
    ensures var t := Retried(server, tolerated, from, attempts);
            && 1 <= t.used <= attempts && t.reply == server(from + t.used - 1)
            && (t.succeeded <==> !Raises(t.reply, tolerated)) && (!t.succeeded ==> t.used == attempts)
            && (forall k: nat :: from <= k < from + t.used - 1 ==> Raises(server(k), tolerated))
            && |t.pauses| == t.used - 1
    decreases attempts
  {
    if Raises(server(from), tolerated) && attempts > 1 {
      RetriedEndsAtTheFirstSuccess(server, tolerated, from + 1, attempts - 1);
    }
  }

  function RateLimitedIn(server: nat -> Reply, from: nat, used: nat): nat
    decreases used
  {
    if used == 0 then 0
    else RateLimitedIn(server, from, used - 1) + (if IsRateLimited(server(from + used - 1)) then 1 else 0)
  }

  predicate IsRateLimited(reply: Reply) {
    reply.Response? && reply.status == 429
  }

  /** A 429 whose Retry-After raises when it is read. */
  predicate IsUnreadable(reply: Reply) {
    IsRateLimited(reply) && RetryAfterSeconds(reply.retryAfter) == ValueError
  }

  lemma {:induction false} NoneRateLimited(server: nat -> Reply, tolerated: set<nat>, from: nat, used: nat)
    requires forall k: nat :: from <= k < from + used ==> Raises(server(k), tolerated)
    ensures RateLimitedIn(server, from, used) == 0
    decreases used
  {
    if used > 0 {
      NoneRateLimited(server, tolerated, from, used - 1);
    }
  }

  lemma {:induction false} RateLimitedConcat(server: nat -> Reply, from: nat, first: nat, second: nat)
    ensures RateLimitedIn(server, from, first + second) ==
            RateLimitedIn(server, from, first) + RateLimitedIn(server, from + first, second)
    decreases second
  {
    if second > 0 {
      RateLimitedConcat(server, from, first, second - 1);
      assert from + (first + second) - 1 == from + first + second - 1;
    }
  }

  function Budget(groups: nat, attempts: nat): nat {
    groups * attempts
  }

  lemma BudgetStep(groups: nat, attempts: nat)
    ensures Budget(groups + 1, attempts) == attempts + Budget(groups, attempts)
  {
  }

  /** At most (waits + 1) * attempts requests, with a pause between each two. */
  lemma {:induction false} PacedMakesFewRequests(server: nat -> Reply, tolerated: set<nat>, from: nat, attempts: nat,
                                                 waits: nat)
    requires attempts > 0
    ensures var o := Paced(server, tolerated, from, attempts, waits);
            1 <= o.used <= Budget(waits + 1, attempts) && |o.pauses| == o.used - 1
    decreases waits
  {
    hide Retried, Budget;
    var tries := Retried(server, tolerated, from, attempts);
    RetriedEndsAtTheFirstSuccess(server, tolerated, from, attempts);
    BudgetStep(waits, attempts);
    if tries.succeeded && IsRateLimited(tries.reply) && waits > 0 && !IsUnreadable(tries.reply) {
      PacedMakesFewRequests(server, tolerated, from + tries.used, attempts, waits - 1);
    }
  }

  /** With the default arguments, at most eighteen. */
  lemma DefaultsMakeAtMostEighteen(server: nat -> Reply, tolerated: set<nat>, from: nat)
    ensures Paced(server, tolerated, from, DEFAULT_MAX_ATTEMPTS, DEFAULT_MAX_RATE_LIMITED_WAITS).used <= 18
  {
    PacedMakesFewRequests(server, tolerated, from, DEFAULT_MAX_ATTEMPTS, DEFAULT_MAX_RATE_LIMITED_WAITS);
  }

  /** The last reply, and how many 429s came before it, decide how the GET ends. A 429 is never returned. */
  ghost predicate EndsRight(o: Outcome, last: Reply, tolerated: set<nat>, limited: nat, waits: nat) {
    match o.got
    case Returned(reply) => reply == last && !Raises(last, tolerated) && !IsRateLimited(last) && limited <= waits
    case RetriesFailed(reply) => reply == last && Raises(last, tolerated) && limited <= waits
    case StillRateLimited(reply) => reply == last && IsRateLimited(last) && limited == waits + 1
    case UnreadableRetryAfter(reply) => reply == last && IsUnreadable(last) && limited <= waits
    case BadArguments => false
    case NeverAttempted => false
  }

  /** The last `attempts` of the requests up to `end` all raised. */
  ghost predicate WholeGroupRaised(server: nat -> Reply, tolerated: set<nat>, from: nat, end: nat, attempts: nat) {
    from + attempts <= end && forall k: nat :: end - attempts <= k < end ==> Raises(server(k), tolerated)
  }

  lemma {:induction false} PacedEndsRight(server: nat -> Reply, tolerated: set<nat>, from: nat, attempts: nat,
                                          waits: nat)
    requires attempts > 0 && 429 !in tolerated
    ensures var o := Paced(server, tolerated, from, attempts, waits);
            && o.used > 0
            && EndsRight(o, server(from + o.used - 1), tolerated, RateLimitedIn(server, from, o.used), waits)
    decreases waits
  {
    var tries := Retried(server, tolerated, from, attempts);
    GroupCounts(server, tolerated, from, attempts);
    PacedStep(server, tolerated, from, attempts, waits);
    hide Retried, RateLimitedIn, Paced, Raises;
    if tries.succeeded && IsRateLimited(tries.reply) && waits > 0 && !IsUnreadable(tries.reply) {
      hide IsRateLimited, EndsRight;
      var next: nat := from + tries.used;
      var rest, o := Paced(server, tolerated, next, attempts, waits - 1),
          Paced(server, tolerated, from, attempts, waits);
      PacedEndsRight(server, tolerated, next, attempts, waits - 1);
      RateLimitedConcat(server, from, tries.used, rest.used);
      assert from + o.used - 1 == next + rest.used - 1;
      EndsRightAfterWait(o, rest, server(next + rest.used - 1), tolerated, RateLimitedIn(server, next, rest.used),
                         waits);
    }
  }

  lemma EndsRightAfterWait(o: Outcome, rest: Outcome, last: Reply, tolerated: set<nat>, limited: nat, waits: nat)
    requires waits > 0 && o.got == rest.got && EndsRight(rest, last, tolerated, limited, waits - 1)
    ensures EndsRight(o, last, tolerated, limited + 1, waits)
  {
    hide Raises;
  }

  lemma {:induction false} RaisedAfterAGroup(server: nat -> Reply, tolerated: set<nat>, from: nat, attempts: nat,
                                             waits: nat)
    requires attempts > 0
    ensures var o := Paced(server, tolerated, from, attempts, waits);
            o.got.RetriesFailed? ==> WholeGroupRaised(server, tolerated, from, from + o.used, attempts)
    decreases waits
  {
    var tries := Retried(server, tolerated, from, attempts);
    RetriedEndsAtTheFirstSuccess(server, tolerated, from, attempts);
    PacedStep(server, tolerated, from, attempts, waits);
    hide Retried, Paced, Raises;
    if tries.succeeded && IsRateLimited(tries.reply) && waits > 0 && !IsUnreadable(tries.reply) {
      RaisedAfterAGroup(server, tolerated, from + tries.used, attempts, waits - 1);
    }
  }

  /** The last error is raised exactly when the last replies, as many as one group has attempts, all raised. */
  lemma RaisesExactlyAfterAWholeGroup(server: nat -> Reply, tolerated: set<nat>, from: nat, attempts: nat, waits: nat)
    requires attempts > 0 && 429 !in tolerated
    ensures var o := Paced(server, tolerated, from, attempts, waits);
            && (o.got.RetriesFailed? <==> WholeGroupRaised(server, tolerated, from, from + o.used, attempts))
            && (o.got.RetriesFailed? ==> o.used > 0 && o.got.reply == server(from + o.used - 1))
  {
    hide Paced;
    PacedEndsRight(server, tolerated, from, attempts, waits);
    RaisedAfterAGroup(server, tolerated, from, attempts, waits);
    var last := from + Paced(server, tolerated, from, attempts, waits).used - 1;
    assert WholeGroupRaised(server, tolerated, from, last + 1, attempts) ==> Raises(server(last), tolerated);
  }

  /** One group of attempts meets a 429 only as its last reply. */
  lemma GroupCounts(server: nat -> Reply, tolerated: set<nat>, from: nat, attempts: nat)
    requires attempts > 0
    ensures var t := Retried(server, tolerated, from, attempts);
            && t.used > 0 && t.reply == server(from + t.used - 1)
            && (t.succeeded <==> !Raises(t.reply, tolerated))
            && RateLimitedIn(server, from, t.used) == if IsRateLimited(t.reply) then 1 else 0
  {
    RetriedEndsAtTheFirstSuccess(server, tolerated, from, attempts);
    NoneRateLimited(server, tolerated, from, Retried(server, tolerated, from, attempts).used - 1);
  }

  // ----- the GET itself

  class Session {
    const server: nat -> Reply
    const limiter: RateLimiter
    const clock: Clock
    var requests: nat
    ghost var pauses: seq<real>
    ghost var requestTimes: seq<real>
    ghost const earlier: seq<real>

    constructor (server: nat -> Reply, limiter: RateLimiter, clock: Clock)
      requires limiter.Valid() && clock.Valid()
      requires limiter.calls != [] ==> limiter.calls[|limiter.calls| - 1] <= clock.now
      ensures Valid() && this.server == server && this.limiter == limiter && this.clock == clock
      ensures requests == 0 && pauses == [] && requestTimes == []
    {
      this.server, this.limiter, this.clock, requests, pauses := server, limiter, clock, 0, [];
      requestTimes, earlier := [], limiter.calls;
    }

    /** The limiter's calls since the session began are the moments of its requests, one each. */
    ghost predicate Valid()
      reads this, limiter, clock
    {
      && limiter.Valid() && clock.Valid()
      && (limiter.calls != [] ==> limiter.calls[|limiter.calls| - 1] <= clock.now)
      && |requestTimes| == requests && limiter.calls == earlier + requestTimes
    }

    /** So in any window of a given length at most length / interval + 1 requests are made. */
    lemma RequestsArePaced(start: real, length: real)
      requires Valid() && length >= 0.0
      ensures AreSpaced(requestTimes, limiter.minIntervalSeconds)
      ensures CountIn(requestTimes, start, length) as real <= length / limiter.minIntervalSeconds + 1.0
    {
      forall i | 0 < i < |requestTimes| ensures requestTimes[i] - requestTimes[i - 1] >= limiter.minIntervalSeconds {
        var call := |earlier| + i;
        assert requestTimes[i] == limiter.calls[call] && requestTimes[i - 1] == limiter.calls[call - 1];
      }
      WindowHoldsFewCalls(requestTimes, start, length, limiter.minIntervalSeconds);
    }

    /** One paced request; `raised` if it is one call_with_retries retries. */
    method Attempt(tolerated: set<nat>) returns (reply: Reply, raised: bool)
      requires Valid()
      modifies this`requests, this`requestTimes, limiter, clock
      ensures Valid() && reply == server(old(requests)) && raised == Raises(reply, tolerated)
      ensures requests == old(requests) + 1 && requestTimes == old(requestTimes) + [clock.now]
    {
      limiter.Wait(clock);
      reply, requestTimes := server(requests), requestTimes + [clock.now];
      requests := requests + 1;
      if reply.NetworkError? {
        return reply, true;
      }
      raised := false;
      if reply.status != 429 && reply.status !in tolerated {
        raised := 400 <= reply.status < 600;
      }
    }

    method Pause(seconds: real)
      requires Valid() && seconds >= 0.0
      modifies this`pauses, clock
      ensures Valid() && pauses == old(pauses) + [seconds] && clock.now >= old(clock.now) + seconds
      ensures clock.sleeps == old(clock.sleeps) + [seconds]
    {
      clock.Sleep(seconds);
      pauses := pauses + [seconds];
    }

    /** Attempts until one does not raise, with a fixed pause between them and none after the last. */
    method CallWithRetries(tolerated: set<nat>, maxAttempts: nat) returns (reply: Reply, succeeded: bool)
      requires Valid() && maxAttempts > 0
      modifies this, limiter, clock
      ensures Valid()
      ensures var tries := Retried(server, tolerated, old(requests), maxAttempts);
              && reply == tries.reply && succeeded == tries.succeeded && requests == old(requests) + tries.used
              && pauses == old(pauses) + tries.pauses
    {
      hide Retried, Raises, Session.Valid;
      ghost var goal := Retried(server, tolerated, requests, maxAttempts);
      reply, succeeded := NetworkError, false;
      for index := 0 to maxAttempts
        invariant Valid() && !succeeded && requests == old(requests) + index
        invariant index < maxAttempts ==>
                    var rest := Retried(server, tolerated, requests, maxAttempts - index);
                    && goal.reply == rest.reply && goal.succeeded == rest.succeeded && goal.used == index + rest.used
                    && old(pauses) + goal.pauses == pauses + rest.pauses
        invariant index == maxAttempts ==>
                    goal == Tries(reply, false, index, goal.pauses) && old(pauses) + goal.pauses == pauses
      {
        RetriedStep(server, tolerated, requests, maxAttempts - index);
        var raised;
        reply, raised := Attempt(tolerated);
        if !raised {
          return reply, true;
        }
        if index < maxAttempts - 1 {
          ghost var rest := Retried(server, tolerated, requests, maxAttempts - index - 1);
          assert pauses + ([RETRY_BACKOFF_SECONDS] + rest.pauses) == pauses + [RETRY_BACKOFF_SECONDS] + rest.pauses;
          Pause(RETRY_BACKOFF_SECONDS);
        }
      }
    }

    /** paced_get. */
    method PacedGet(tolerated: set<nat>, maxAttempts: int, maxRateLimitedWaits: int) returns (got: Got)
      requires Valid()
      modifies this, limiter, clock
      ensures Valid()
      ensures got.BadArguments? <==> 429 in tolerated || maxRateLimitedWaits < 0
      ensures got.NeverAttempted? <==> !got.BadArguments? && maxAttempts <= 0
      ensures got.BadArguments? || got.NeverAttempted? ==> requests == old(requests)
      ensures !got.BadArguments? && !got.NeverAttempted? ==>
                var paced := Paced(server, tolerated, old(requests), maxAttempts, maxRateLimitedWaits);
                && got == paced.got && requests == old(requests) + paced.used
                && pauses == old(pauses) + paced.pauses
    {
      if 429 in tolerated || maxRateLimitedWaits < 0 {
        return BadArguments;
      }
      if maxAttempts <= 0 {
        return NeverAttempted;
      }
      got := WaitOutRateLimits(tolerated, maxAttempts, maxRateLimitedWaits);
    }

    /** Groups of attempts, waiting out each 429 except the last. */
    method WaitOutRateLimits(tolerated: set<nat>, attempts: nat, waits: nat) returns (got: Got)
      requires Valid() && attempts > 0
      modifies this, limiter, clock
      ensures Valid()
      ensures !got.BadArguments? && !got.NeverAttempted?
      ensures var paced := Paced(server, tolerated, old(requests), attempts, waits);
              && got == paced.got && requests == old(requests) + paced.used
              && pauses == old(pauses) + paced.pauses
    {
      hide Paced, Retried, RetryAfterSeconds, Raises, Session.Valid;
      ghost var goal := Paced(server, tolerated, requests, attempts, waits);
      var reply := NetworkError;
      for waitsSoFar := 0 to waits + 1
        invariant Valid() && waitsSoFar <= waits
        invariant requests >= old(requests)
        invariant Continues(goal, Paced(server, tolerated, requests, attempts, waits - waitsSoFar),
                            requests - old(requests), old(pauses), pauses)
      {
        ghost var from, before := requests, pauses;
        ghost var tries := Retried(server, tolerated, requests, attempts);
        PacedStep(server, tolerated, requests, attempts, waits - waitsSoFar);
        var succeeded;
        reply, succeeded := CallWithRetries(tolerated, attempts);
        if !succeeded {
          return RetriesFailed(reply);
        }
        if reply.NetworkError? || reply.status != 429 {
          return Returned(reply);
        }
        if waitsSoFar == waits {
          return StillRateLimited(reply);
        }
        var wait := RetryAfterSeconds(reply.retryAfter);
        if wait.ValueError? {
          return UnreadableRetryAfter(reply);
        }
        var seconds := wait.seconds;
        ContinuesAfterWait(goal, Paced(server, tolerated, from, attempts, waits - waitsSoFar), from - old(requests),
                           old(pauses), before, tries, seconds,
                           Paced(server, tolerated, requests, attempts, waits - waitsSoFar - 1));
        Pause(seconds);
      }
      assert false;
      got := StillRateLimited(reply);
    }
  }

  // ----- a server that always gives the same reply

  lemma {:induction false} RetriedSteadily(server: nat -> Reply, tolerated: set<nat>, from: nat, attempts: nat,
                                           reply: Reply)
    requires attempts > 0 && forall k :: server(k) == reply
    ensures Retried(server, tolerated, from, attempts) ==
            if Raises(reply, tolerated) then Tries(reply, false, attempts, seq(attempts - 1, _ => 2.0))
            else Tries(reply, true, 1, [])
    decreases attempts
  {
    if Raises(reply, tolerated) {
      if attempts == 1 {
        assert seq(attempts - 1, _ => 2.0) == [];
      } else {
        RetriedSteadily(server, tolerated, from + 1, attempts - 1, reply);
        assert seq(attempts - 1, _ => 2.0) == [2.0] + seq(attempts - 2, _ => 2.0);
      }
    }
  }

  /** A network error, or an untolerated 4xx or 5xx other than 429, is retried with two seconds between attempts and
      then raised. */
  lemma ErrorsAreRetriedThenRaised(server: nat -> Reply, tolerated: set<nat>, from: nat, attempts: nat, waits: nat,
                                   reply: Reply)
    requires attempts > 0 && forall k :: server(k) == reply
    requires reply == NetworkError
             || (400 <= reply.status < 600 && reply.status != 429 && reply.status !in tolerated)
    ensures Paced(server, tolerated, from, attempts, waits) ==
            Outcome(RetriesFailed(reply), attempts, seq(attempts - 1, _ => 2.0))
  {
    RetriedSteadily(server, tolerated, from, attempts, reply);
    PacedStep(server, tolerated, from, attempts, waits);
  }

  /** Any other reply but a 429 is returned at once. */
  lemma OtherRepliesAreReturned(server: nat -> Reply, tolerated: set<nat>, from: nat, attempts: nat, waits: nat,
                                reply: Reply)
    requires attempts > 0 && forall k :: server(k) == reply
    requires reply.Response? && reply.status != 429
             && (reply.status < 400 || reply.status >= 600 || reply.status in tolerated)
    ensures Paced(server, tolerated, from, attempts, waits) == Outcome(Returned(reply), 1, [])
  {
    RetriedSteadily(server, tolerated, from, attempts, reply);
    PacedStep(server, tolerated, from, attempts, waits);
  }

  /** A 429 is waited out by its own Retry-After, once per wait allowed, and then raised. */
  lemma {:induction false} RateLimitsAreWaitedOut(server: nat -> Reply, tolerated: set<nat>, from: nat, attempts: nat,
                                                  waits: nat, retryAfter: Header, seconds: real)
    requires attempts > 0 && forall k :: server(k) == Response(429, retryAfter)
    requires RetryAfterSeconds(retryAfter) == Seconds(seconds)
    ensures Paced(server, tolerated, from, attempts, waits) ==
            Outcome(StillRateLimited(Response(429, retryAfter)), waits + 1, seq(waits, _ => seconds))
    decreases waits
  {
    RetriedSteadily(server, tolerated, from, attempts, Response(429, retryAfter));
    PacedStep(server, tolerated, from, attempts, waits);
    hide Paced, RetryAfterSeconds;
    if waits == 0 {
      assert seq(waits, _ => seconds) == [];
    } else {
      RateLimitsAreWaitedOut(server, tolerated, from + 1, attempts, waits - 1, retryAfter, seconds);
      assert seq(waits, _ => seconds) == [] + [seconds] + seq(waits - 1, _ => seconds);
    }
  }
}
