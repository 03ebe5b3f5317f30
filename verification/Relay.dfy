/** The retry loop of the relay handler (controller/relay.go): which channels a request tries, in what order. */
module Relay {
  import opened Gateway
  import opened Sequences
  import opened Selection
  import opened RetryPolicy

  /** The channels eligible at each selection of a request, with their priorities: `first(k)` at the
      query of attempt k, `again(k)` at the second query, which follows when the first finds nothing. */
  datatype Pools = Pools(first: nat -> map<int, int>, again: nat -> map<int, int>)

  ghost predicate PositiveIds(pools: Pools) {
    forall k: nat, c :: (c in pools.first(k) ==> c > 0) && (c in pools.again(k) ==> c > 0)
  }

  /** The eligible channels are the same at every selection. */
  ghost predicate Steady(pools: Pools, pool: map<int, int>) {
    forall k: nat :: pools.first(k) == pool && pools.again(k) == pool
  }

  /** Round numbers start at 0 and move on by at most one. */
  ghost predicate RoundsAdvance(rounds: seq<nat>) {
    && rounds != [] && rounds[0] == 0
    && forall i :: 0 < i < |rounds| ==> rounds[i - 1] <= rounds[i] <= rounds[i - 1] + 1
  }

  /** Within a round no channel is tried twice. */
  ghost predicate NoRepeat(history: seq<int>, rounds: seq<nat>)
    requires |history| == |rounds|
  {
    forall i, j :: 0 <= i < j < |history| && rounds[i] == rounds[j] ==> history[i] != history[j]
  }

  /** Within a round, the first pick of the request aside, priorities never rise. */
  ghost predicate NeverRises(pool: map<int, int>, history: seq<int>, rounds: seq<nat>)
    requires |history| == |rounds|
    requires forall i :: 0 <= i < |history| ==> history[i] in pool
  {
    forall i, j :: 0 < i < j < |history| && rounds[i] == rounds[j] ==> pool[history[i]] >= pool[history[j]]
  }

  /** A round ends only when the whole pool was tried in it. */
  ghost predicate RoundsComplete(pool: map<int, int>, history: seq<int>, rounds: seq<nat>)
    requires |history| == |rounds|
  {
    forall i, c :: 0 < i < |history| && rounds[i] > rounds[i - 1] && c in pool
        ==> InRound(history[..i], rounds[..i], rounds[i - 1], c)
  }

  ghost predicate RoundRobin(pool: map<int, int>, history: seq<int>, rounds: seq<nat>) {
    && |rounds| == |history|
    && RoundsAdvance(rounds)
    && (forall i :: 0 <= i < |history| ==> history[i] in pool)
    && NoRepeat(history, rounds)
    && NeverRises(pool, history, rounds)
    && RoundsComplete(pool, history, rounds)
  }

  ghost predicate InRound(history: seq<int>, rounds: seq<nat>, round: nat, c: int) {
    exists j :: 0 <= j < |history| && j < |rounds| && rounds[j] == round && history[j] == c
  }

  lemma RoundsOrdered(rounds: seq<nat>, i: nat, j: nat)
    requires RoundsAdvance(rounds) && i <= j < |rounds|
    ensures rounds[i] <= rounds[j]
    decreases j - i
  {
    if i < j {
      RoundsOrdered(rounds, i, j - 1);
    }
  }

  lemma RoundRobinPrefix(pool: map<int, int>, history: seq<int>, rounds: seq<nat>, n: nat)
    requires RoundRobin(pool, history, rounds) && 0 < n <= |history|
    ensures RoundRobin(pool, history[..n], rounds[..n])
  {
    forall i, c | 0 < i < n && rounds[i] > rounds[i - 1] && c in pool
      ensures InRound(history[..n][..i], rounds[..n][..i], rounds[i - 1], c)
    {
      assert history[..n][..i] == history[..i] && rounds[..n][..i] == rounds[..i];
    }
  }

  /** A channel of the pool has been tried once in every finished round, and at most once in the last. */
  lemma {:induction false} TriesOf(pool: map<int, int>, history: seq<int>, rounds: seq<nat>, c: int)
    requires RoundRobin(pool, history, rounds) && c in pool
    ensures var last := rounds[|rounds| - 1];
            Count(history, c) == last + if InRound(history, rounds, last, c) then 1 else 0
    decreases |history|
  {
    var n := |history|;
    var last := rounds[n - 1];
    if n == 1 {
      assert history[..0] == [];
    } else {
      var h, r := history[..n - 1], rounds[..n - 1];
      RoundRobinPrefix(pool, history, rounds, n - 1);
      TriesOf(pool, h, r, c);
      assert r[n - 2] == rounds[n - 2];
      if last > rounds[n - 2] {
        assert InRound(h, r, rounds[n - 2], c);
        assert InRound(history, rounds, last, c) <==> history[n - 1] == c by {
          forall j | 0 <= j < n - 1 ensures rounds[j] < last {
            RoundsOrdered(rounds, j, n - 2);
          }
        }
      } else if history[n - 1] == c {
        assert !InRound(h, r, last, c);
        assert InRound(history, rounds, last, c);
      } else if InRound(h, r, last, c) {
        var j :| 0 <= j < |h| && r[j] == last && h[j] == c;
        assert rounds[j] == last && history[j] == c;
      }
    }
  }

  /** Balance: the tries of any two channels of the pool never differ by more than one. */
  lemma Balanced(pool: map<int, int>, history: seq<int>, rounds: seq<nat>, c: int, d: int)
    requires RoundRobin(pool, history, rounds) && c in pool && d in pool
    ensures -1 <= Count(history, c) - Count(history, d) <= 1
  {
    TriesOf(pool, history, rounds, c);
    TriesOf(pool, history, rounds, d);
  }

  /** The round in progress: the failed list holds its channels, and what is left is not ranked above them. */
  ghost predicate RoundOpen(pool: map<int, int>, history: seq<int>, rounds: seq<nat>, failed: seq<int>) {
    && RoundRobin(pool, history, rounds)
    && var last := rounds[|rounds| - 1];
       && (forall c :: c in failed <==> InRound(history, rounds, last, c))
       && (forall j, d ::
             0 < j < |history| && rounds[j] == last && d in pool && d !in failed ==>
               pool[d] <= pool[history[j]])
  }

  lemma ExtendRounds(rounds: seq<nat>, round: nat)
    requires RoundsAdvance(rounds)
    requires rounds[|rounds| - 1] <= round <= rounds[|rounds| - 1] + 1
    ensures RoundsAdvance(rounds + [round])
    ensures forall i :: 0 <= i < |rounds| ==> rounds[i] <= rounds[|rounds| - 1]
  {
    forall i | 0 <= i < |rounds| ensures rounds[i] <= rounds[|rounds| - 1] {
      RoundsOrdered(rounds, i, |rounds| - 1);
    }
  }

  lemma ExtendComplete(pool: map<int, int>, history: seq<int>, rounds: seq<nat>, round: nat, c: int)
    requires |history| == |rounds| > 0 && RoundsComplete(pool, history, rounds)
    requires round > rounds[|rounds| - 1] ==>
               forall d :: d in pool ==> InRound(history, rounds, rounds[|rounds| - 1], d)
    ensures RoundsComplete(pool, history + [c], rounds + [round])
  {
    var n := |history|;
    var h, r := history + [c], rounds + [round];
    forall i, d | 0 < i < |h| && r[i] > r[i - 1] && d in pool
      ensures InRound(h[..i], r[..i], r[i - 1], d)
    {
      assert h[..i] == history[..i] && r[..i] == rounds[..i];
      if i == n {
        assert history[..n] == history && rounds[..n] == rounds;
      }
    }
  }

  lemma ExtendRobin(pool: map<int, int>, history: seq<int>, rounds: seq<nat>, failed: seq<int>, round: nat, c: int)
    requires RoundOpen(pool, history, rounds, failed) && c in pool
    requires var last := rounds[|rounds| - 1];
             if round == last
             then c !in failed && forall j :: 0 < j < |history| && rounds[j] == last ==> pool[history[j]] >= pool[c]
             else round == last + 1 && Exhausted(pool, failed)
    ensures RoundRobin(pool, history + [c], rounds + [round])
  {
    var last := rounds[|rounds| - 1];
    ExtendRounds(rounds, round);
    ExtendComplete(pool, history, rounds, round, c);
    forall i | 0 <= i < |history| && rounds[i] == last ensures history[i] in failed {
      assert InRound(history, rounds, last, history[i]);
    }
    assert NoRepeat(history + [c], rounds + [round]);
    assert NeverRises(pool, history + [c], rounds + [round]);
  }

  lemma ExtendMembers(history: seq<int>, rounds: seq<nat>, last: nat, failed: seq<int>, c: int, d: int)
    requires |history| == |rounds|
    requires d in failed <==> InRound(history, rounds, last, d)
    ensures d in failed + [c] <==> InRound(history + [c], rounds + [last], last, d)
  {
    var n := |history|;
    var h, r := history + [c], rounds + [last];
    assert r[n] == last && h[n] == c;
    if InRound(history, rounds, last, d) {
      var j :| 0 <= j < n && rounds[j] == last && history[j] == d;
      assert r[j] == last && h[j] == d;
    }
  }

  /** A best channel outside the failed list continues the round. */
  lemma ContinueRound(pool: map<int, int>, history: seq<int>, rounds: seq<nat>, failed: seq<int>, c: int)
    requires RoundOpen(pool, history, rounds, failed) && BestIn(pool, failed, c)
    ensures RoundOpen(pool, history + [c], rounds + [rounds[|rounds| - 1]], failed + [c])
  {
    var last := rounds[|rounds| - 1];
    ExtendRobin(pool, history, rounds, failed, last, c);
    forall d ensures d in failed + [c] <==> InRound(history + [c], rounds + [last], last, d) {
      ExtendMembers(history, rounds, last, failed, c, d);
    }
  }

  /** After a reset a best channel of the whole pool opens the next round. */
  lemma OpenRound(pool: map<int, int>, history: seq<int>, rounds: seq<nat>, failed: seq<int>, c: int)
    requires RoundOpen(pool, history, rounds, failed) && Exhausted(pool, failed) && BestIn(pool, [], c)
    ensures RoundOpen(pool, history + [c], rounds + [rounds[|rounds| - 1] + 1], [c])
  {
    var next := rounds[|rounds| - 1] + 1;
    ExtendRobin(pool, history, rounds, failed, next, c);
    var r := rounds + [next];
    forall j | 0 <= j < |history| ensures r[j] < next {
      RoundsOrdered(rounds, j, |rounds| - 1);
    }
    forall d ensures d in [c] <==> InRound(history + [c], r, next, d) {
      assert r[|history|] == next && (history + [c])[|history|] == c;
    }
  }

  // ---------- the protocol as a step machine ----------

  /** One retry: the channel it chose, and whether the failed list was emptied for it. */
  datatype Turn = Turn(channel: int, reset: bool)

  function AppendUnique(ids: seq<int>, id: int): seq<int> {
    if id <= 0 || id in ids then ids else ids + [id]
  }

  /** The failed list after the turns. */
  function FailedAfter(first: int, turns: seq<Turn>): seq<int> {
    if turns == [] then [first]
    else
      var turn := turns[|turns| - 1];
      AppendUnique(if turn.reset then [] else FailedAfter(first, turns[..|turns| - 1]), turn.channel)
  }

  function History(first: int, turns: seq<Turn>): (h: seq<int>)
    ensures |h| == |turns| + 1 && h[0] == first
  {
    if turns == [] then [first] else History(first, turns[..|turns| - 1]) + [turns[|turns| - 1].channel]
  }

  /** The round each attempt belongs to. */
  function RoundsOf(turns: seq<Turn>): (r: seq<nat>)
    ensures |r| == |turns| + 1
  {
    if turns == [] then [0]
    else
      var before := RoundsOf(turns[..|turns| - 1]);
      before + [before[|turns| - 1] + if turns[|turns| - 1].reset then 1 else 0]
  }

  /** What retry number k may do with this failed list: continue with a best channel that has not
      failed; or, with no boundary, start over with a best channel of all; or, when there is none,
      repeat the last channel. */
  ghost predicate TurnOk(pools: Pools, bounded: bool, k: nat, failed: seq<int>, last: Selected, turn: Turn) {
    if !Exhausted(pools.first(k), failed) then
      !turn.reset && BestIn(pools.first(k), failed, turn.channel)
    else
      && !bounded && turn.reset
      && if pools.again(k).Keys != {} then BestIn(pools.again(k), [], turn.channel)
         else last.Selected? && turn.channel == last.channel
  }

  function LastOf(first: int, lastKnown: bool, turns: seq<Turn>): Selected {
    if turns != [] then Selected(turns[|turns| - 1].channel, -1)
    else if lastKnown then Selected(first, -1)
    else NoChannel
  }

  /** The runs of the protocol. `bounded`: the request has a retry boundary. */
  ghost predicate Run(pools: Pools, bounded: bool, first: int, lastKnown: bool, turns: seq<Turn>) {
    turns != [] ==>
      var before := turns[..|turns| - 1];
      && Run(pools, bounded, first, lastKnown, before)
      && TurnOk(pools, bounded, |turns|, FailedAfter(first, before), LastOf(first, lastKnown, before),
                turns[|turns| - 1])
  }

  lemma LastTurn(turns: seq<Turn>, turn: Turn)
    ensures (turns + [turn])[..|turns + [turn]| - 1] == turns && (turns + [turn])[|turns + [turn]| - 1] == turn
  {
  }

  lemma ExtendRun(pools: Pools, bounded: bool, first: int, lastKnown: bool, turns: seq<Turn>, turn: Turn)
    requires Run(pools, bounded, first, lastKnown, turns)
    requires TurnOk(pools, bounded, |turns| + 1, FailedAfter(first, turns), LastOf(first, lastKnown, turns), turn)
    ensures Run(pools, bounded, first, lastKnown, turns + [turn])
  {
    LastTurn(turns, turn);
  }

  lemma ExtendTrail(first: int, lastKnown: bool, turns: seq<Turn>, turn: Turn)
    ensures History(first, turns + [turn]) == History(first, turns) + [turn.channel]
    ensures FailedAfter(first, turns + [turn])
            == AppendUnique(if turn.reset then [] else FailedAfter(first, turns), turn.channel)
    ensures LastOf(first, lastKnown, turns + [turn]) == Selected(turn.channel, -1)
  {
    LastTurn(turns, turn);
  }

  /** With no boundary and a steady pool that holds the first channel, every run goes round the pool. */
  lemma {:induction false} RunGoesRound(pools: Pools, first: int, lastKnown: bool, turns: seq<Turn>,
                                        pool: map<int, int>)
    requires PositiveIds(pools) && Steady(pools, pool) && first in pool
    requires Run(pools, false, first, lastKnown, turns)
    ensures RoundOpen(pool, History(first, turns), RoundsOf(turns), FailedAfter(first, turns))
  {
    if turns == [] {
      OneOpen(pool, first);
    } else {
      var before, turn := turns[..|turns| - 1], turns[|turns| - 1];
      RunGoesRound(pools, first, lastKnown, before, pool);
      SteadyTurn(pools, pool, first, |turns|, FailedAfter(first, before), LastOf(first, lastKnown, before), turn);
      LastTurnGoesRound(first, turns, pool);
    }
  }

  lemma LastTurnGoesRound(first: int, turns: seq<Turn>, pool: map<int, int>)
    requires turns != []
    requires var before, turn := turns[..|turns| - 1], turns[|turns| - 1];
             && RoundOpen(pool, History(first, before), RoundsOf(before), FailedAfter(first, before))
             && turn.channel > 0 && (turn.reset ==> Exhausted(pool, FailedAfter(first, before)))
             && BestIn(pool, if turn.reset then [] else FailedAfter(first, before), turn.channel)
    ensures RoundOpen(pool, History(first, turns), RoundsOf(turns), FailedAfter(first, turns))
  {
    var before, turn := turns[..|turns| - 1], turns[|turns| - 1];
    TrailOfLast(first, turns);
    RoundAfter(pool, History(first, before), RoundsOf(before), FailedAfter(first, before), turn,
               History(first, turns), RoundsOf(turns), FailedAfter(first, turns));
  }

  lemma RoundAfter(pool: map<int, int>, history: seq<int>, rounds: seq<nat>, failed: seq<int>, turn: Turn,
                   history': seq<int>, rounds': seq<nat>, failed': seq<int>)
    requires RoundOpen(pool, history, rounds, failed) && turn.channel > 0
    requires BestIn(pool, if turn.reset then [] else failed, turn.channel) && (turn.reset ==> Exhausted(pool, failed))
    requires history' == history + [turn.channel]
             && failed' == AppendUnique(if turn.reset then [] else failed, turn.channel)
    requires rounds' == rounds + [rounds[|rounds| - 1] + if turn.reset then 1 else 0]
    ensures RoundOpen(pool, history', rounds', failed')
  {
    TurnGoesRound(pool, history, rounds, failed, turn);
  }

  lemma TrailOfLast(first: int, turns: seq<Turn>)
    requires turns != []
    ensures var before, turn := turns[..|turns| - 1], turns[|turns| - 1];
            && History(first, turns) == History(first, before) + [turn.channel]
            && RoundsOf(turns)
                 == RoundsOf(before) + [RoundsOf(before)[|RoundsOf(before)| - 1] + if turn.reset then 1 else 0]
            && FailedAfter(first, turns)
                 == AppendUnique(if turn.reset then [] else FailedAfter(first, before), turn.channel)
  {
  }

  lemma SteadyTurn(pools: Pools, pool: map<int, int>, first: int, k: nat, failed: seq<int>, last: Selected, turn: Turn)
    requires PositiveIds(pools) && Steady(pools, pool) && first in pool && TurnOk(pools, false, k, failed, last, turn)
    ensures BestIn(pool, if turn.reset then [] else failed, turn.channel) && turn.channel > 0
    ensures turn.reset ==> Exhausted(pool, failed)
  {
    assert pools.first(k) == pool == pools.again(k);
    assert first in pool.Keys;
  }

  lemma TurnGoesRound(pool: map<int, int>, history: seq<int>, rounds: seq<nat>, failed: seq<int>, turn: Turn)
    requires RoundOpen(pool, history, rounds, failed) && turn.channel > 0
    requires BestIn(pool, if turn.reset then [] else failed, turn.channel) && (turn.reset ==> Exhausted(pool, failed))
    ensures RoundOpen(pool, history + [turn.channel], rounds + [rounds[|rounds| - 1] + if turn.reset then 1 else 0],
                      AppendUnique(if turn.reset then [] else failed, turn.channel))
  {
    if turn.reset {
      OpenRound(pool, history, rounds, failed, turn.channel);
    } else {
      ContinueRound(pool, history, rounds, failed, turn.channel);
    }
  }

  lemma OneOpen(pool: map<int, int>, first: int)
    requires first in pool
    ensures RoundOpen(pool, [first], [0], [first])
  {
    forall c ensures c in [first] <==> InRound([first], [0], 0, c) {
      assert [0][0] == 0 && [first][0] == first;
    }
  }

  /** At any point of any such run the tries of two eligible channels differ by at most one. */
  lemma RunIsBalanced(pools: Pools, first: int, lastKnown: bool, turns: seq<Turn>, pool: map<int, int>, c: int, d: int)
    requires PositiveIds(pools) && Steady(pools, pool) && first in pool && c in pool && d in pool
    requires Run(pools, false, first, lastKnown, turns)
    ensures -1 <= Count(History(first, turns), c) - Count(History(first, turns), d) <= 1
  {
    RunGoesRound(pools, first, lastKnown, turns, pool);
    Balanced(pool, History(first, turns), RoundsOf(turns), c, d);
  }

  /** No channel is tried twice, and every one after the first is eligible when it is chosen. */
  ghost predicate StaysInside(pools: Pools, history: seq<int>) {
    && (forall i, j :: 0 <= i < j < |history| ==> history[i] != history[j])
    && (forall k: nat :: 0 < k < |history| ==> history[k] in pools.first(k))
  }

  /** Under a boundary every run stays inside it and never tries a channel twice, whatever happens to the
      tables meanwhile. */
  lemma {:induction false} RunStaysInside(pools: Pools, first: int, lastKnown: bool, turns: seq<Turn>)
    requires PositiveIds(pools) && Run(pools, true, first, lastKnown, turns)
    ensures StaysInside(pools, History(first, turns))
    ensures FailedAfter(first, turns) == History(first, turns)
  {
    if turns != [] {
      RunStaysInside(pools, first, lastKnown, turns[..|turns| - 1]);
    }
  }

  /** A request pinned to one channel is not sent again by this loop once its first attempt used that channel. */
  lemma PinnedChannelIsNotRetried(pools: Pools, first: int, lastKnown: bool, turns: seq<Turn>)
    requires PositiveIds(pools) && Run(pools, true, first, lastKnown, turns)
    requires forall k: nat, c :: c in pools.first(k) ==> c == first
    ensures turns == []
  {
    if turns != [] {
      LastTurnIsNew(pools, first, lastKnown, turns);
    }
  }

  lemma LastTurnIsNew(pools: Pools, first: int, lastKnown: bool, turns: seq<Turn>)
    requires PositiveIds(pools) && Run(pools, true, first, lastKnown, turns) && turns != []
    ensures var c := turns[|turns| - 1].channel; c != first && c in pools.first(|turns|)
  {
    RunStaysInside(pools, first, lastKnown, turns);
    var h := History(first, turns);
    assert h[0] != h[|turns|] && h[|turns|] in pools.first(|turns|);
  }

  // ---------- the handler ----------

  /** How an attempt ends. `BodyLost`: the channel was chosen but the request body could not be read again. */
  datatype Outcome = Succeeded | Failed(retryable: bool) | BodyLost

  /** What the loop does not decide itself, by attempt: the tables each query sees and its random draw. */
  datatype Env = Env(view: nat -> View, again: nat -> View, roll: nat -> nat, reroll: nat -> nat,
                     outcome: nat -> Outcome)

  /** `pools` lists what each query of this request may return. */
  ghost predicate Reflects(pools: Pools, env: Env, t: Target) {
    && (forall k: nat {:trigger env.view(k)} :: Sound(env.view(k)) && pools.first(k) == PoolOf(env.view(k), t))
    && (forall k: nat {:trigger env.again(k)} :: Sound(env.again(k)) && pools.again(k) == PoolOf(env.again(k), t))
  }

  lemma ReflectedIdsArePositive(pools: Pools, env: Env, t: Target)
    requires Reflects(pools, env, t)
    ensures PositiveIds(pools)
  {
    forall k: nat, c ensures (c in pools.first(k) ==> c > 0) && (c in pools.again(k) ==> c > 0) {
      assert Sound(env.view(k)) && Sound(env.again(k));
    }
  }

  /** A request that the distributor sent to `ch`, which its own boundary b admits, and pinned to the provider of
      `ch`: every retry goes to a channel that is enabled when it is chosen and lies inside both boundaries; no
      channel is tried twice, and a request bound to a state channel is not retried at all. */
  lemma PinnedRunStaysInside(pools: Pools, env: Env, t: Target, b: Boundary, ch: Channel, lastKnown: bool,
                             turns: seq<Turn>)
    requires Reflects(pools, env, t)
    requires RetryProviderAllows(b, ch) && t.boundary == PinProvider(b, ch)
    requires t.boundary.provider != "" || t.boundary.stateChannel > 0
    requires Run(pools, HasRetryBoundary(t.boundary), ch.id, lastKnown, turns)
    ensures RetryProviderAllows(t.boundary, ch)
    ensures var history := History(ch.id, turns);
            && (forall i, j :: 0 <= i < j < |history| ==> history[i] != history[j])
            && forall k: nat :: 0 < k < |history| ==> Inside(env.view(k), b, t.boundary, history[k])
    ensures b.stateChannel > 0 ==> turns == []
  {
    ReflectedIdsArePositive(pools, env, t);
    RunStaysInside(pools, ch.id, lastKnown, turns);
    PinningOnlyNarrows(b, ch, ch);
    forall k: nat, c | c in pools.first(k) ensures Inside(env.view(k), b, t.boundary, c) {
      PoolIsInside(env.view(k), t, b, ch, c);
    }
    if b.stateChannel > 0 {
      PinnedChannelIsNotRetried(pools, ch.id, lastKnown, turns);
    }
  }

  /** An enabled channel that both boundaries allow. */
  ghost predicate Inside(v: View, b: Boundary, pinned: Boundary, c: int) {
    && c in v.channels && v.channels[c].id == c && v.channels[c].status == ENABLED
    && WithinBoundary(b, v.channels[c]) && WithinBoundary(pinned, v.channels[c])
  }

  predicate WithinBoundary(b: Boundary, ch: Channel) {
    (b.stateChannel > 0 ==> ch.id == b.stateChannel) && (b.provider != "" ==> ch.provider == b.provider)
  }

  lemma PoolIsInside(v: View, t: Target, b: Boundary, ch: Channel, c: int)
    requires Sound(v) && c in PoolOf(v, t)
    requires RetryProviderAllows(b, ch) && t.boundary == PinProvider(b, ch)
    ensures Inside(v, b, t.boundary, c)
    ensures b.stateChannel > 0 ==> c == ch.id
  {
    PoolRespectsBoundary(v, t, c);
    PinningOnlyNarrows(b, ch, v.channels[c]);
  }

  /** All attempts but the last failed in a way that permits another. */
  ghost predicate FailedUntilLast(env: Env, attempts: nat) {
    forall k: nat :: k + 1 < attempts ==> env.outcome(k) == Failed(true)
  }

  /** Nothing can be chosen for retry number k. */
  ghost predicate NothingLeft(pools: Pools, bounded: bool, k: nat, failed: seq<int>, last: Selected) {
    Exhausted(pools.first(k), failed) && (bounded || (last.NoChannel? && pools.again(k).Keys == {}))
  }

  /** One turn of the loop up to the attempt. */
  method ChooseNext(env: Env, t: Target, k: nat, failed: seq<int>, last: Selected, ghost pools: Pools)
    returns (chosen: Selected, failed': seq<int>, ghost reset: bool)
    requires Reflects(pools, env, t)
    ensures chosen.NoChannel? ==> NothingLeft(pools, HasRetryBoundary(t.boundary), k, failed, last)
    ensures chosen.Selected?
            ==> TurnOk(pools, HasRetryBoundary(t.boundary), k, failed, last, Turn(chosen.channel, reset))
    ensures chosen.Selected? ==> failed' == AppendUnique(if reset then [] else failed, chosen.channel)
  {
    var kept;
    chosen, kept := SelectRetryChannel(env.view(k), env.again(k), t, failed, env.roll(k), env.reroll(k));
    reset := Exhausted(pools.first(k), failed);
    failed' := kept;
    if chosen.NoChannel? {
      if last.NoChannel? || HasRetryBoundary(t.boundary) {
        return;
      }
      chosen := last;
    }
    failed' := AppendUniqueChannelID(kept, chosen.channel);
  }

  /** The variables of the loop: admin_channel_history, retryAttempts, the failed list, the last channel
      loaded, and how the last attempt ended. */
  datatype Progress = Progress(history: seq<int>, failures: seq<int>, failed: seq<int>, last: Selected, result: Outcome)

  /** The loop after these turns. */
  ghost predicate Reached(pools: Pools, bounded: bool, first: int, lastKnown: bool, env: Env, turns: seq<Turn>,
                          p: Progress) {
    && Run(pools, bounded, first, lastKnown, turns)
    && p.history == History(first, turns)
    && p.failed == FailedAfter(first, turns) && p.last == LastOf(first, lastKnown, turns)
    && p.result == env.outcome(|turns|)
    && p.failures == (if p.result.Failed? then p.history else p.history[..|turns|])
    && FailedUntilLast(env, |turns| + 1)
  }

  lemma ExtendReached(pools: Pools, bounded: bool, first: int, lastKnown: bool, env: Env, turns: seq<Turn>, p: Progress,
                      turn: Turn)
    requires Reached(pools, bounded, first, lastKnown, env, turns, p) && p.result == Failed(true)
    requires TurnOk(pools, bounded, |turns| + 1, p.failed, p.last, turn)
    ensures var result := env.outcome(|turns| + 1);
            Reached(pools, bounded, first, lastKnown, env, turns + [turn],
                    Progress(p.history + [turn.channel],
                             if result.Failed? then p.failures + [turn.channel] else p.failures,
                             AppendUnique(if turn.reset then [] else p.failed, turn.channel),
                             Selected(turn.channel, -1), result))
  {
    ExtendRun(pools, bounded, first, lastKnown, turns, turn);
    ExtendTrail(first, lastKnown, turns, turn);
    assert (p.history + [turn.channel])[..|turns| + 1] == p.history;
  }

  /** One pass of the loop; `attempted` is false when there is no channel to try. */
  method TryNext(env: Env, t: Target, p: Progress, ghost pools: Pools, ghost first: int, ghost lastKnown: bool,
                 ghost turns: seq<Turn>)
    returns (next: Progress, attempted: bool, ghost turns': seq<Turn>)
    requires Reflects(pools, env, t)
    requires Reached(pools, HasRetryBoundary(t.boundary), first, lastKnown, env, turns, p) && p.result == Failed(true)
    ensures Reached(pools, HasRetryBoundary(t.boundary), first, lastKnown, env, turns', next)
    ensures |turns'| == |turns| + if attempted then 1 else 0
    ensures !attempted ==>
              next == p && turns' == turns
                && NothingLeft(pools, HasRetryBoundary(t.boundary), |turns| + 1, p.failed, p.last)
  {
    next, attempted, turns' := p, false, turns;
    ghost var reset;
    var chosen, failed;
    chosen, failed, reset := ChooseNext(env, t, |p.history|, p.failed, p.last, pools);
    if chosen.NoChannel? {
      return;
    }
    var result := env.outcome(|p.history|);
    var failures := p.failures;
    if result.Failed? {
      failures := failures + [chosen.channel];
    }
    attempted := true;
    ExtendReached(pools, HasRetryBoundary(t.boundary), first, lastKnown, env, turns, p, Turn(chosen.channel, reset));
    turns' := turns + [Turn(chosen.channel, reset)];
    next := Progress(p.history + [chosen.channel], failures, failed, chosen.(keyIndex := -1), result);
  }

  /** The handler: every execution is a run of the step machine, of at most 1 + RetryTimes attempts.
      `history` lists the channels in the order they were chosen (admin_channel_history), `failures`
      those that were tried and failed (retryAttempts). `lastKnown`: the first channel can still be
      loaded. `skipRetry`: the affinity rule forbids retries. */
  method Relay(env: Env, t: Target, first: int, retryTimes: int, lastKnown: bool, skipRetry: bool, ghost pools: Pools)
    returns (history: seq<int>, failures: seq<int>, succeeded: bool, ghost turns: seq<Turn>)
    requires Reflects(pools, env, t) && env.outcome(0) != BodyLost
    ensures Run(pools, HasRetryBoundary(t.boundary), first, lastKnown, turns) && history == History(first, turns)
    ensures |turns| <= Max(retryTimes, 0)
    // a retry happens only after a retryable failure, and success ends the run
    ensures FailedUntilLast(env, |history|)
    ensures succeeded == env.outcome(|turns|).Succeeded?
    ensures failures == if env.outcome(|turns|).Failed? then history else history[..|turns|]
    // a run that stops early has a reason
    ensures skipRetry ==> turns == []
    ensures !skipRetry && |turns| < retryTimes && env.outcome(|turns|) == Failed(true)
        ==> NothingLeft(pools, HasRetryBoundary(t.boundary), |history|, FailedAfter(first, turns),
                        LastOf(first, lastKnown, turns))
  {
    var result := env.outcome(0);
    var last := if lastKnown then Selected(first, -1) else NoChannel;
    var p := Progress([first], if result.Failed? then [first] else [], [first], last, result);
    turns := [];
    if result == Failed(true) && !skipRetry {
      var i := retryTimes;
      while i > 0
        invariant i <= Max(retryTimes, 0) && |turns| == Max(retryTimes, 0) - Max(i, 0)
        invariant Reached(pools, HasRetryBoundary(t.boundary), first, lastKnown, env, turns, p)
        invariant p.result == Failed(true)
        decreases i
      {
        var attempted;
        p, attempted, turns := TryNext(env, t, p, pools, first, lastKnown, turns);
        if !attempted || p.result != Failed(true) {
          break;
        }
        i := i - 1;
      }
    }
    history, failures, succeeded := p.history, p.failures, p.result.Succeeded?;
  }
}
