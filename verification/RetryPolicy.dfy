/** Choosing the next channel after a failure (controller/retry_policy.go). */
module RetryPolicy {
  import opened Text
  import opened Gateway
  import opened Selection

  /** The two tables as one selection sees them. */
  datatype View = View(channels: Channels, table: seq<Ability>)

  ghost predicate Sound(v: View) {
    && UniqueKeys(v.table)
    && forall c :: c in v.channels ==> c > 0 && v.channels[c].id == c
  }

  /** What a request asks for, whatever it has already tried. */
  datatype Target = Target(group: string, model: string, boundary: Boundary)

  ghost function PoolOf(v: View, t: Target): map<int, int> {
    Pool(v.channels, v.table, t.boundary, t.group, t.model)
  }

  /** The pool of a request in plain terms: the enabled channels with an enabled ability for group and model that are
      of the provider, if the request has one, and are the state channel, if it has one; with that ability's
      priority. */
  lemma PoolMeans(v: View, t: Target, c: int)
    requires Sound(v)
    ensures c in PoolOf(v, t)
       <==> && c in v.channels && v.channels[c].status == ENABLED
            && (t.boundary.stateChannel > 0 ==> c == t.boundary.stateChannel)
            && (t.boundary.provider != "" ==> v.channels[c].provider == t.boundary.provider)
            && exists a :: a in v.table && a.channelId == c && a.group == t.group && a.model == t.model && a.enabled
    ensures c in PoolOf(v, t) ==>
              forall a :: a in v.table && a.channelId == c && a.group == t.group && a.model == t.model && a.enabled ==>
                PoolOf(v, t)[c] == a.priority
  {
    if c in PoolOf(v, t) {
      forall a | a in v.table && a.channelId == c && a.group == t.group && a.model == t.model && a.enabled
        ensures PoolOf(v, t)[c] == a.priority
      {
        RowInPool(v.channels, v.table, t.boundary, t.group, t.model, a);
      }
    }
  }

  /** Everything in the pool of a request is an enabled channel inside the boundary. */
  lemma PoolRespectsBoundary(v: View, t: Target, c: int)
    requires Sound(v) && c in PoolOf(v, t)
    ensures c in v.channels && v.channels[c].status == ENABLED && RetryProviderAllows(t.boundary, v.channels[c])
    ensures t.boundary.stateChannel > 0 ==> c == t.boundary.stateChannel
  {
  }

  method AppendUniqueChannelID(ids: seq<int>, id: int) returns (r: seq<int>)
    ensures r == if id <= 0 || id in ids then ids else ids + [id]
  {
    if id <= 0 {
      return ids;
    }
    for i := 0 to |ids|
      invariant id !in ids[..i]
    {
      if ids[i] == id {
        return ids;
      }
    }
    r := ids + [id];
  }

  method SelectFresh(v: View, t: Target, exclude: seq<int>, roll: nat) returns (r: Selected)
    requires Sound(v)
    ensures r.NoChannel? <==> Exhausted(PoolOf(v, t), exclude)
    ensures r.Selected? ==> BestIn(PoolOf(v, t), exclude, r.channel)
  {
    var q := Request(t.group, t.model, t.boundary, exclude);
    r := CacheGetRandomSatisfiedChannel(v.channels, v.table, q, 0, None, roll);
    SelectionMeetsSpec(v.channels, v.table, q, roll, r);
  }

  /** selectRetryChannel. When the round is exhausted the failed list is emptied and the selection
      starts over, unless a boundary forbids it. `again` is the view at the second query. */
  method SelectRetryChannel(v: View, again: View, t: Target, failed: seq<int>, roll: nat, reroll: nat)
    returns (r: Selected, failed': seq<int>)
    requires Sound(v) && Sound(again)
    ensures !Exhausted(PoolOf(v, t), failed)
        ==> failed' == failed && r.Selected? && BestIn(PoolOf(v, t), failed, r.channel)
    ensures Exhausted(PoolOf(v, t), failed) && HasRetryBoundary(t.boundary) ==> r == NoChannel && failed' == failed
    ensures Exhausted(PoolOf(v, t), failed) && !HasRetryBoundary(t.boundary)
        ==> failed' == []
            && (if r.Selected? then BestIn(PoolOf(again, t), [], r.channel) else PoolOf(again, t).Keys == {})
  {
    failed' := failed;
    r := SelectFresh(v, t, failed, roll);
    if r.NoChannel? {
      if HasRetryBoundary(t.boundary) {
        return;
      }
      failed' := [];
      r := SelectFresh(again, t, [], reroll);
    }
  }

  // ---------- the wait before a state-bound retry ----------

  const INT64_MAX := 0x7FFF_FFFF_FFFF_FFFF
  const MILLISECOND := 1_000_000
  const SECOND := 1000 * MILLISECOND
  const WAIT_LIMIT := 30 * SECOND

  /** A header value as the two parsers see it: an optionally signed decimal number, an HTTP date
      (in nanoseconds), or anything else. Times and delays are in nanoseconds. */
  datatype Header = Number(value: int) | HttpDate(at: int) | Unreadable

  /** strconv.ParseInt(_, 10, 64) followed by the test for a non-negative number. */
  predicate ParsesNonNegative(h: Header) {
    h.Number? && 0 <= h.value <= INT64_MAX
  }

  function Max(a: int, b: int): int {
    if a >= b then a else b
  }

  function Min(a: int, b: int): int {
    if a <= b then a else b
  }

  function BackoffSeconds(attempt: int): int {
    match Min(Max(attempt, 1), 4) case 1 => 2 case 2 => 4 case 3 => 8 case _ => 16
  }

  datatype Delay = Wait(nanoseconds: int) | TooLong

  function ResponsesRetryDelay(retryAfter: Header, retryAfterMs: Header, attempt: int, now: int): Delay {
    if ParsesNonNegative(retryAfterMs) then
      if retryAfterMs.value > WAIT_LIMIT / MILLISECOND then TooLong
      else Wait(Max(MILLISECOND, retryAfterMs.value * MILLISECOND))
    else if ParsesNonNegative(retryAfter) && retryAfter.value > WAIT_LIMIT / SECOND then TooLong
    else
      var delay :=
        if ParsesNonNegative(retryAfter) then retryAfter.value * SECOND
        else if retryAfter.HttpDate? then retryAfter.at - now
        else BackoffSeconds(attempt) * SECOND;
      if delay > WAIT_LIMIT then TooLong else Wait(Max(MILLISECOND, delay))
  }

  /** The earliest delay the Retry-After header permits (section 10.2.3 of RFC 9110): a number of
      seconds, or a date. A negative number is not a delay the field can carry. */
  function Demanded(retryAfter: Header, now: int): int {
    match retryAfter
    case Number(seconds) => if seconds >= 0 then seconds * SECOND else 0
    case HttpDate(at) => at - now
    case Unreadable => 0
  }

  /** The headers do not make the gateway come back too soon: a readable retry-after-ms asks for no less than
      Retry-After, or, without one, the seconds fit int64. */
  predicate Heeded(retryAfter: Header, retryAfterMs: Header, now: int) {
    if ParsesNonNegative(retryAfterMs) then Max(1, retryAfterMs.value) * MILLISECOND >= Demanded(retryAfter, now)
    else !(retryAfter.Number? && retryAfter.value > INT64_MAX)
  }

  /** Every wait lies between one millisecond and thirty seconds. */
  lemma WaitIsBounded(retryAfter: Header, retryAfterMs: Header, attempt: int, now: int)
    ensures var d := ResponsesRetryDelay(retryAfter, retryAfterMs, attempt, now);
            d.Wait? ==> MILLISECOND <= d.nanoseconds <= WAIT_LIMIT
  {
  }

  /** The wait is what the headers call for, no less and no more: the milliseconds of a readable retry-after-ms,
      else what a readable Retry-After demands, at least one millisecond either way; too long exactly when that is
      more than thirty seconds. */
  lemma WaitIsWhatHeadersCallFor(retryAfter: Header, retryAfterMs: Header, attempt: int, now: int)
    ensures retryAfterMs.Number? && 0 <= retryAfterMs.value <= INT64_MAX ==>
              ResponsesRetryDelay(retryAfter, retryAfterMs, attempt, now)
              == if retryAfterMs.value * MILLISECOND > 30 * SECOND then TooLong
                 else Wait(if retryAfterMs.value == 0 then MILLISECOND else retryAfterMs.value * MILLISECOND)
    ensures !(retryAfterMs.Number? && 0 <= retryAfterMs.value <= INT64_MAX)
            && (retryAfter.HttpDate? || (retryAfter.Number? && 0 <= retryAfter.value <= INT64_MAX)) ==>
              var demanded := Demanded(retryAfter, now);
              ResponsesRetryDelay(retryAfter, retryAfterMs, attempt, now)
              == if demanded > 30 * SECOND then TooLong
                 else Wait(if demanded < MILLISECOND then MILLISECOND else demanded)
  {
  }

  /** Without a readable header the wait is two seconds at first, doubles up to the fourth attempt and stays. */
  lemma BackoffDoubles(retryAfter: Header, retryAfterMs: Header, attempt: int, now: int)
    requires !(retryAfterMs.Number? && 0 <= retryAfterMs.value <= INT64_MAX)
    requires !retryAfter.HttpDate? && !(retryAfter.Number? && 0 <= retryAfter.value <= INT64_MAX)
    ensures ResponsesRetryDelay(retryAfter, retryAfterMs, attempt, now)
         == if attempt <= 1 then Wait(2 * SECOND)
            else if attempt <= 4
            then Wait(2 * ResponsesRetryDelay(retryAfter, retryAfterMs, attempt - 1, now).nanoseconds)
            else ResponsesRetryDelay(retryAfter, retryAfterMs, 4, now)
  {
  }

  /** A granted wait respects Retry-After except in two cases: a readable retry-after-ms header that
      asks for less overrides it, and a number of seconds outside int64 is replaced by the backoff. */
  lemma WaitRespectsRetryAfterIff(retryAfter: Header, retryAfterMs: Header, attempt: int, now: int)
    requires ResponsesRetryDelay(retryAfter, retryAfterMs, attempt, now).Wait?
    ensures ResponsesRetryDelay(retryAfter, retryAfterMs, attempt, now).nanoseconds >= Demanded(retryAfter, now)
       <==> Heeded(retryAfter, retryAfterMs, now)
  {
  }

  /** A retry-after-ms of 1 next to a Retry-After of 10 seconds is granted after one millisecond. */
  lemma ShortMillisecondsWin()
    ensures ResponsesRetryDelay(Number(10), Number(1), 1, 0) == Wait(MILLISECOND)
    ensures Demanded(Number(10), 0) == 10 * SECOND
  {
  }
}
