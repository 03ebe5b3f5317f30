/** The retry loop of the Responses handler (controller/relay.go, controller/retry_policy.go): retries
    bound to stored state wait out a rate limit, and nothing is retried once bytes were written. */
module Responses {
  import opened Gateway
  import opened Selection
  import opened RetryPolicy
  import opened Relay
  import opened Text

  const TOO_MANY_REQUESTS := 429

  /** What the loop reads after attempt k ended. */
  datatype Report =
    | Success
    | Failure(status: int, cancelled: bool, written: bool, stateRecordFailed: bool, retryable: bool,
              retryAfter: Header, retryAfterMs: Header, now: int)

  datatype Reason =
    | NoReason | ClientCancelled | ResponseAlreadyStarted | StateRecordFailed | SpecificChannelRequested
    | NonRetryableError | RetryAfterExceedsLimit | StateChannelExhausted | ProviderChannelsExhausted
    | NoAvailableChannel | StateKeyUnavailable
    | RetryLimitReached

  function ResponsesRetryStopReason(report: Report, specific: bool): Reason
    requires report.Failure?
  {
    if report.cancelled then ClientCancelled
    else if report.written then ResponseAlreadyStarted
    else if report.stateRecordFailed then StateRecordFailed
    else if specific then SpecificChannelRequested
    else if !report.retryable then NonRetryableError
    else NoReason
  }

  /** An attempt after which another may follow. */
  predicate Repeatable(report: Report, specific: bool) {
    report.Failure? && !report.cancelled && !report.written && !report.stateRecordFailed && !specific
        && report.retryable
  }

  /** The reason for stopping is the first of these that holds, in this order: the client left, bytes were written,
      the state record failed, a channel was asked for by name, the error is final. */
  lemma StopReasonIsTheFirst(report: Report, specific: bool)
    requires report.Failure?
    ensures var reason := ResponsesRetryStopReason(report, specific);
            && (reason == NoReason <==> Repeatable(report, specific))
            && (reason == ClientCancelled <==> report.cancelled)
            && (reason == ResponseAlreadyStarted <==> report.written && !report.cancelled)
            && (reason == StateRecordFailed <==> report.stateRecordFailed && !report.cancelled && !report.written)
            && (reason == SpecificChannelRequested
                <==> specific && !report.cancelled && !report.written && !report.stateRecordFailed)
            && (reason == NonRetryableError
                <==> !report.retryable && !report.cancelled && !report.written && !report.stateRecordFailed
                     && !specific)
  {
  }

  /** What the loop does not decide itself, by attempt: tables, draws, reports, whether the client is
      gone when a retry starts, while it waits or just before it is sent, and whether the stored key is usable. */
  datatype Env = Env(
    view: nat -> View, again: nat -> View, roll: nat -> nat, reroll: nat -> nat, report: nat -> Report,
    goneAtSelection: nat -> bool, goneWhileWaiting: nat -> bool, goneBeforeSending: nat -> bool, keyUsable: nat -> bool)

  ghost predicate Reflects(pools: Pools, env: Env, t: Target) {
    && (forall k: nat {:trigger env.view(k)} :: Sound(env.view(k)) && pools.first(k) == PoolOf(env.view(k), t))
    && (forall k: nat {:trigger env.again(k)} :: Sound(env.again(k)) && pools.again(k) == PoolOf(env.again(k), t))
  }

  /** A state-bound retry after a rate limit: the wait that was granted, and the channel tried again. */
  ghost predicate WaitedRetry(pools: Pools, report: Report, k: nat, channel: int, wait: Option<int>) {
    && report.Failure? && report.status == TOO_MANY_REQUESTS
    && wait.Some?
    && ResponsesRetryDelay(report.retryAfter, report.retryAfterMs, k, report.now) == Wait(wait.value)
    && BestIn(pools.first(k), [], channel)
  }

  /** selectResponsesRetryChannel for retry number k. */
  method SelectResponsesRetryChannel(env: Env, t: Target, k: nat, failed: seq<int>, report: Report, ghost pools: Pools)
    returns (r: Selected, reason: Reason, failed': seq<int>, wait: Option<int>, ghost reset: bool)
    requires Reflects(pools, env, t) && report.Failure?
    ensures reason != NoReason ==> r.NoChannel? && reason in {ClientCancelled, RetryAfterExceedsLimit}
    ensures reason == ClientCancelled ==> env.goneAtSelection(k) || env.goneWhileWaiting(k)
    ensures reason == RetryAfterExceedsLimit
        ==> && t.boundary.stateChannel > 0 && report.status == TOO_MANY_REQUESTS
            && ResponsesRetryDelay(report.retryAfter, report.retryAfterMs, k, report.now) == TooLong
    ensures r.Selected? && t.boundary.stateChannel > 0 && report.status == TOO_MANY_REQUESTS
        ==> failed' == failed && WaitedRetry(pools, report, k, r.channel, wait)
    ensures r.Selected? && !(t.boundary.stateChannel > 0 && report.status == TOO_MANY_REQUESTS)
        ==> && wait == None
            && failed' == (if reset then [] else failed)
            && TurnOk(pools, HasRetryBoundary(t.boundary), k, failed, NoChannel, Turn(r.channel, reset))
    ensures r.NoChannel? && reason == NoReason
        ==> if t.boundary.stateChannel > 0 && report.status == TOO_MANY_REQUESTS then pools.first(k).Keys == {}
            else NothingLeft(pools, HasRetryBoundary(t.boundary), k, failed, NoChannel)
  {
    r, reason, failed', wait, reset := NoChannel, NoReason, failed, None, false;
    if env.goneAtSelection(k) {
      reason := ClientCancelled;
      return;
    }
    if t.boundary.stateChannel <= 0 || report.status != TOO_MANY_REQUESTS {
      reset := Exhausted(pools.first(k), failed);
      r, failed' := SelectRetryChannel(env.view(k), env.again(k), t, failed, env.roll(k), env.reroll(k));
      return;
    }
    var delay := ResponsesRetryDelay(report.retryAfter, report.retryAfterMs, k, report.now);
    if delay.TooLong? {
      reason := RetryAfterExceedsLimit;
      return;
    }
    wait := Some(delay.nanoseconds);
    if env.goneWhileWaiting(k) {
      reason := ClientCancelled;
      return;
    }
    r := SelectFresh(env.view(k), t, [], env.roll(k));
  }

  /** A retry of a request bound to a state channel: after a rate limit, on that channel, which is enabled and
      inside the provider of the request, after the wait that the headers of the rate limit call for. */
  ghost predicate StateBoundRetry(env: Env, t: Target, k: nat, channel: int, wait: Option<int>) {
    && k > 0 && channel == t.boundary.stateChannel
    && channel in env.view(k).channels
    && env.view(k).channels[channel].status == ENABLED
    && RetryProviderAllows(t.boundary, env.view(k).channels[channel])
    && var report := env.report(k - 1);
       && report.Failure? && report.status == TOO_MANY_REQUESTS && wait.Some?
       && ResponsesRetryDelay(report.retryAfter, report.retryAfterMs, k, report.now) == Wait(wait.value)
  }

  ghost predicate RepeatableUntilLast(env: Env, specific: bool, attempts: nat) {
    forall k: nat :: k + 1 < attempts ==> Repeatable(env.report(k), specific)
  }

  /** With a state channel every retry waits out a rate limit on that channel. */
  ghost predicate StateBound(env: Env, t: Target, history: seq<int>, waits: seq<Option<int>>) {
    && |history| == |waits|
    && forall k: nat :: 0 < k < |history| ==> StateBoundRetry(env, t, k, history[k], waits[k])
  }

  ghost predicate NeverWaits(waits: seq<Option<int>>) {
    forall k :: 0 <= k < |waits| ==> waits[k] == None
  }

  /** Without a state channel the execution so far is a run of the retry protocol, and never waited. */
  ghost predicate InProtocol(pools: Pools, bounded: bool, first: int, turns: seq<Turn>, history: seq<int>,
                             waits: seq<Option<int>>) {
    Run(pools, bounded, first, false, turns) && history == History(first, turns) && NeverWaits(waits)
  }

  lemma NeverWaitsMore(waits: seq<Option<int>>)
    requires NeverWaits(waits)
    ensures NeverWaits(waits + [None])
  {
  }

  lemma ExtendProtocol(pools: Pools, bounded: bool, first: int, turns: seq<Turn>, history: seq<int>,
                       waits: seq<Option<int>>, turn: Turn)
    requires InProtocol(pools, bounded, first, turns, history, waits)
    requires TurnOk(pools, bounded, |history|, FailedAfter(first, turns), LastOf(first, false, turns), turn)
    ensures InProtocol(pools, bounded, first, turns + [turn], history + [turn.channel], waits + [None])
    ensures FailedAfter(first, turns + [turn])
            == AppendUnique(if turn.reset then [] else FailedAfter(first, turns), turn.channel)
  {
    ExtendRun(pools, bounded, first, false, turns, turn);
    ExtendTrail(first, false, turns, turn);
    NeverWaitsMore(waits);
  }

  /** Why retry number k is not sent, as the log will say. */
  ghost predicate GivenUp(pools: Pools, t: Target, env: Env, k: nat, failed: seq<int>, report: Report, reason: Reason)
    requires report.Failure?
  {
    var limited := t.boundary.stateChannel > 0 && report.status == TOO_MANY_REQUESTS;
    var nothing := if limited then pools.first(k).Keys == {}
        else NothingLeft(pools, HasRetryBoundary(t.boundary), k, failed, NoChannel);
    match reason
    case ClientCancelled => env.goneAtSelection(k) || env.goneWhileWaiting(k) || env.goneBeforeSending(k)
    case RetryAfterExceedsLimit => limited
        && ResponsesRetryDelay(report.retryAfter, report.retryAfterMs, k, report.now) == TooLong
    case StateChannelExhausted => t.boundary.stateChannel > 0 && nothing
    case ProviderChannelsExhausted => t.boundary.stateChannel <= 0 && t.boundary.provider != "" && nothing
    case NoAvailableChannel => !HasRetryBoundary(t.boundary) && nothing
    case StateKeyUnavailable => !env.keyUsable(k)
    case _ => false
  }

  /** One turn of the loop up to the attempt: selection, stored key, and the client still there. */
  method NextAttempt(env: Env, t: Target, k: nat, failed: seq<int>, report: Report, ghost last: Selected,
                     ghost pools: Pools)
    returns (chosen: Selected, reason: Reason, kept: seq<int>, wait: Option<int>, ghost reset: bool)
    requires Reflects(pools, env, t) && k > 0 && report == env.report(k - 1) && report.Failure?
    requires t.boundary.stateChannel > 0 ==> failed == [t.boundary.stateChannel]
    ensures chosen.Selected? <==> reason == NoReason
    ensures reason != NoReason ==> GivenUp(pools, t, env, k, failed, report, reason)
    ensures chosen.Selected? && t.boundary.stateChannel > 0
        ==> kept == failed && StateBoundRetry(env, t, k, chosen.channel, wait)
    ensures chosen.Selected? && t.boundary.stateChannel <= 0
        ==> && wait == None && kept == (if reset then [] else failed)
            && TurnOk(pools, HasRetryBoundary(t.boundary), k, failed, last, Turn(chosen.channel, reset))
  {
    chosen, reason, kept, wait, reset := SelectResponsesRetryChannel(env, t, k, failed, report, pools);
    if chosen.NoChannel? {
      if reason == NoReason {
        reason := if t.boundary.stateChannel > 0 then StateChannelExhausted
                  else if t.boundary.provider != "" then ProviderChannelsExhausted
                  else NoAvailableChannel;
      }
      return;
    }
    RetryOfStateBound(env, t, k, failed, report, chosen.channel, wait, reset, pools);
    if !env.keyUsable(k) {
      chosen, reason := NoChannel, StateKeyUnavailable;
    } else if env.goneBeforeSending(k) {
      chosen, reason := NoChannel, ClientCancelled;
    }
  }

  /** The variables of the loop. */
  datatype Passage = Passage(history: seq<int>, waits: seq<Option<int>>, failed: seq<int>, report: Report,
                             reason: Reason)

  /** The loop after these turns. */
  ghost predicate Reached(pools: Pools, t: Target, first: int, env: Env, specific: bool, turns: seq<Turn>, p: Passage) {
    && |p.history| == |turns| + 1
    && p.report == env.report(|turns|)
    && p.reason == StopReason(p.report, specific)
    && RepeatableUntilLast(env, specific, |turns| + 1)
    && (t.boundary.stateChannel > 0
        ==> p.failed == [first] && StateBound(env, t, p.history, p.waits))
    && (t.boundary.stateChannel <= 0 ==>
          InProtocol(pools, HasRetryBoundary(t.boundary), first, turns, p.history, p.waits)
              && p.failed == FailedAfter(first, turns))
  }

  function StopReason(report: Report, specific: bool): Reason {
    if report.Success? then NoReason else ResponsesRetryStopReason(report, specific)
  }

  lemma ExtendStateBound(env: Env, t: Target, history: seq<int>, waits: seq<Option<int>>, channel: int,
                         wait: Option<int>)
    requires StateBound(env, t, history, waits) && StateBoundRetry(env, t, |history|, channel, wait)
    ensures StateBound(env, t, history + [channel], waits + [wait])
  {
  }

  /** One pass of the loop; `attempted` is false when the retry was given up before it was sent, for `why`. */
  method TryNext(env: Env, t: Target, p: Passage, specific: bool, ghost pools: Pools, ghost first: int,
                 ghost turns: seq<Turn>)
    returns (next: Passage, attempted: bool, why: Reason, ghost turns': seq<Turn>)
    requires Reflects(pools, env, t) && (t.boundary.stateChannel > 0 ==> first == t.boundary.stateChannel)
    requires Reached(pools, t, first, env, specific, turns, p) && p.report.Failure? && p.reason == NoReason
    ensures Reached(pools, t, first, env, specific, turns', next)
    ensures |turns'| == |turns| + if attempted then 1 else 0
    ensures !attempted ==> next == p && turns' == turns && GivenUp(pools, t, env, |turns| + 1, p.failed, p.report, why)
  {
    next, attempted, turns' := p, false, turns;
    ghost var reset;
    var chosen, kept, wait;
    chosen, why, kept, wait, reset :=
        NextAttempt(env, t, |p.history|, p.failed, p.report, LastOf(first, false, turns), pools);
    if chosen.NoChannel? {
      return;
    }
    attempted := true;
    ghost var turn := Turn(chosen.channel, reset);
    turns' := turns + [turn];
    var failed := AppendUniqueChannelID(kept, chosen.channel);
    var report := env.report(|p.history|);
    var reason := if report.Success? then NoReason else ResponsesRetryStopReason(report, specific);
    next := Passage(p.history + [chosen.channel], p.waits + [wait], failed, report, reason);
    ExtendReached(pools, t, first, env, specific, turns, p, turn, kept, wait, next);
  }

  lemma ExtendReached(pools: Pools, t: Target, first: int, env: Env, specific: bool, turns: seq<Turn>, p: Passage,
                      turn: Turn, kept: seq<int>, wait: Option<int>, next: Passage)
    requires Reached(pools, t, first, env, specific, turns, p) && Repeatable(p.report, specific)
    requires t.boundary.stateChannel > 0 ==>
               && first == t.boundary.stateChannel && kept == p.failed
               && StateBoundRetry(env, t, |p.history|, turn.channel, wait)
    requires t.boundary.stateChannel <= 0 ==>
               && wait == None && kept == (if turn.reset then [] else p.failed)
               && TurnOk(pools, HasRetryBoundary(t.boundary), |p.history|, p.failed, LastOf(first, false, turns), turn)
    requires next.history == p.history + [turn.channel] && next.waits == p.waits + [wait]
    requires next.failed == AppendUnique(kept, turn.channel)
    requires next.report == env.report(|p.history|) && next.reason == StopReason(next.report, specific)
    ensures Reached(pools, t, first, env, specific, turns + [turn], next)
  {
    if t.boundary.stateChannel <= 0 {
      ExtendProtocol(pools, HasRetryBoundary(t.boundary), first, turns, p.history, p.waits, turn);
    } else {
      ExtendStateBound(env, t, p.history, p.waits, turn.channel, wait);
    }
  }

  /** Why the loop ended after this many attempts with this failed list. */
  ghost predicate Explained(pools: Pools, t: Target, env: Env, specific: bool, limit: nat, attempts: nat,
                            failed: seq<int>, reason: Reason)
    requires attempts > 0
  {
    var report := env.report(attempts - 1);
    if report.Success? then reason == NoReason
    else if ResponsesRetryStopReason(report, specific) != NoReason
        then reason == ResponsesRetryStopReason(report, specific)
    else if attempts == 1 + limit then reason == RetryLimitReached
    else GivenUp(pools, t, env, attempts, failed, report, reason)
  }

  /** The handler. `history` lists the channels tried, `waits` the wait before each of them. */
  method RelayResponse(env: Env, t: Target, first: int, retryTimes: int, specific: bool, ghost pools: Pools)
    returns (history: seq<int>, waits: seq<Option<int>>, reason: Reason, ghost turns: seq<Turn>)
    requires Reflects(pools, env, t)
    // the distributor lets a request pass only inside its own boundary
    requires t.boundary.stateChannel > 0 ==> first == t.boundary.stateChannel
    ensures 1 <= |history| <= 1 + Max(retryTimes, 0)
    // no attempt follows one that wrote bytes, was cancelled, lost its state record or may not be retried
    ensures RepeatableUntilLast(env, specific, |history|)
    ensures t.boundary.stateChannel > 0 ==> StateBound(env, t, history, waits)
    // without a state channel the execution is a run of the retry protocol, and never waits
    ensures t.boundary.stateChannel <= 0
        ==> InProtocol(pools, HasRetryBoundary(t.boundary), first, turns, history, waits)
    // the reason reported is the true one
    ensures Explained(pools, t, env, specific, Max(retryTimes, 0), |history|,
                      if t.boundary.stateChannel > 0 then [first] else FailedAfter(first, turns), reason)
  {
    var report := env.report(0);
    reason := if report.Success? then NoReason else ResponsesRetryStopReason(report, specific);
    var p := Passage([first], [None], [first], report, reason);
    turns := [];
    if report.Failure? && reason == NoReason {
      reason := RetryLimitReached;
      var i := retryTimes;
      while i > 0
        invariant i <= Max(retryTimes, 0) && |turns| == Max(retryTimes, 0) - Max(i, 0)
        invariant Reached(pools, t, first, env, specific, turns, p)
        invariant p.report.Failure? && p.reason == NoReason && reason == RetryLimitReached
        decreases i
      {
        var attempted, why;
        p, attempted, why, turns := TryNext(env, t, p, specific, pools, first, turns);
        if !attempted {
          reason := why;
          break;
        }
        if p.report.Success? || p.reason != NoReason {
          reason := p.reason;
          break;
        }
        i := i - 1;
      }
    }
    history, waits := p.history, p.waits;
  }

  /** Under a state channel only the waited retry remains: any other selection would need a second channel. */
  lemma RetryOfStateBound(env: Env, t: Target, k: nat, failed: seq<int>, report: Report, channel: int,
                          wait: Option<int>, reset: bool, pools: Pools)
    requires Reflects(pools, env, t) && k > 0 && report == env.report(k - 1) && report.Failure?
    requires t.boundary.stateChannel > 0 ==> failed == [t.boundary.stateChannel]
    requires t.boundary.stateChannel > 0 && report.status == TOO_MANY_REQUESTS
             ==> WaitedRetry(pools, report, k, channel, wait)
    requires t.boundary.stateChannel > 0 && report.status != TOO_MANY_REQUESTS
         ==> TurnOk(pools, HasRetryBoundary(t.boundary), k, failed, NoChannel, Turn(channel, reset))
    ensures t.boundary.stateChannel > 0 ==> StateBoundRetry(env, t, k, channel, wait)
  {
    if t.boundary.stateChannel > 0 {
      assert channel in pools.first(k);
      assert pools.first(k) == PoolOf(env.view(k), t);
      PoolRespectsBoundary(env.view(k), t, channel);
    }
  }

  /** Over a whole state-bound execution: every retry waits between a millisecond and thirty seconds, exactly what
      the headers of the report before it call for, or two seconds doubling up to sixteen without readable ones;
      no less than Retry-After demands if and only if the headers are heeded. */
  lemma StateBoundRunHeedsHeadersIff(env: Env, t: Target, history: seq<int>, waits: seq<Option<int>>, k: nat)
    requires StateBound(env, t, history, waits) && 0 < k < |history|
    ensures history[k] == t.boundary.stateChannel && waits[k].Some? && MILLISECOND <= waits[k].value <= WAIT_LIMIT
    ensures var report := env.report(k - 1);
            report.Failure? && (waits[k].value >= Demanded(report.retryAfter, report.now)
                                <==> Heeded(report.retryAfter, report.retryAfterMs, report.now))
    ensures var report := env.report(k - 1);
            var ms, after := report.retryAfterMs, report.retryAfter;
            waits[k].value
            == if ms.Number? && 0 <= ms.value <= INT64_MAX then Max(1, ms.value) * MILLISECOND
               else if after.HttpDate? || (after.Number? && 0 <= after.value <= INT64_MAX)
               then Max(MILLISECOND, Demanded(after, report.now))
               else if k == 1 then 2 * SECOND else if k == 2 then 4 * SECOND else if k == 3 then 8 * SECOND
               else 16 * SECOND
  {
    assert StateBoundRetry(env, t, k, history[k], waits[k]);
    var report := env.report(k - 1);
    WaitIsBounded(report.retryAfter, report.retryAfterMs, k, report.now);
    WaitRespectsRetryAfterIff(report.retryAfter, report.retryAfterMs, k, report.now);
    WaitIsWhatHeadersCallFor(report.retryAfter, report.retryAfterMs, k, report.now);
    if !(report.retryAfterMs.Number? && 0 <= report.retryAfterMs.value <= INT64_MAX)
       && !report.retryAfter.HttpDate? && !(report.retryAfter.Number? && 0 <= report.retryAfter.value <= INT64_MAX) {
      WaitsOf(report.retryAfter, report.retryAfterMs, report.now);
    }
  }

  lemma WaitsOf(retryAfter: Header, retryAfterMs: Header, now: int)
    requires !(retryAfterMs.Number? && 0 <= retryAfterMs.value <= INT64_MAX)
    requires !retryAfter.HttpDate? && !(retryAfter.Number? && 0 <= retryAfter.value <= INT64_MAX)
    ensures forall k :: k >= 1 ==>
              ResponsesRetryDelay(retryAfter, retryAfterMs, k, now)
              == Wait(if k == 1 then 2 * SECOND else if k == 2 then 4 * SECOND else if k == 3 then 8 * SECOND
                      else 16 * SECOND)
  {
    forall k | k >= 1 {
      BackoffDoubles(retryAfter, retryAfterMs, k, now);
    }
    BackoffDoubles(retryAfter, retryAfterMs, 1, now);
    BackoffDoubles(retryAfter, retryAfterMs, 2, now);
    BackoffDoubles(retryAfter, retryAfterMs, 3, now);
    BackoffDoubles(retryAfter, retryAfterMs, 4, now);
  }
}
