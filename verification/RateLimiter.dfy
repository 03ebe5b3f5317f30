/** The in-memory sliding-window rate limiter (common/rate-limit.go) and its configured limits. */
module RateLimiter {
  datatype Limit = Limit(max: int, duration: int)

  /** The oldest admitted request of each key that is still remembered comes first. Times are in seconds. */
  type Store = map<string, seq<int>>

  /** The verdict of Request. */
  predicate Admits(store: Store, key: string, limit: Limit, now: int) {
    if key in store && |store[key]| >= limit.max then |store[key]| > 0 && now - store[key][0] >= limit.duration
        else true
  }

  function AfterRequest(store: Store, key: string, limit: Limit, now: int): Store {
    if key !in store then store[key := [now]]
    else if |store[key]| < limit.max then store[key := store[key] + [now]]
    else if Admits(store, key, limit, now) then store[key := store[key][1..] + [now]]
    else store
  }

  predicate Expired(queue: seq<int>, expiry: nat, now: int) {
    |queue| == 0 || now - queue[|queue| - 1] > expiry
  }

  function AfterClear(store: Store, expiry: nat, now: int): Store {
    map key | key in store && !Expired(store[key], expiry, now) :: store[key]
  }

  class InMemoryRateLimiter {
    const expiry: nat
    var store: Store

    /** No remembered queue is empty. */
    ghost predicate Valid()
      reads this
    {
      forall key :: key in store ==> store[key] != []
    }

    constructor (expiry: nat)
      ensures Valid() && this.expiry == expiry && store == map[]
    {
      this.expiry := expiry;
      store := map[];
    }

    /** Request. A negative maximum makes the allocation of a fresh queue panic. */
    method Request(key: string, maxRequestNum: int, duration: int, now: int) returns (admitted: bool, panicked: bool)
      requires Valid()
      modifies this
      ensures Valid() && panicked == (key !in old(store) && maxRequestNum < 0)
      ensures panicked ==> store == old(store)
      ensures !panicked ==>
                && admitted == Admits(old(store), key, Limit(maxRequestNum, duration), now)
                && store == AfterRequest(old(store), key, Limit(maxRequestNum, duration), now)
    {
      panicked := false;
      if key in store {
        var queue := store[key];
        if |queue| < maxRequestNum {
          store := store[key := queue + [now]];
          return true, false;
        }
        if now - queue[0] >= duration {
          queue := queue[1..];
          store := store[key := queue + [now]];
          return true, false;
        }
        return false, false;
      }
      if maxRequestNum < 0 {
        return false, true;
      }
      store := store[key := []];
      store := store[key := store[key] + [now]];
      assert [] + [now] == [now];
      assert store == old(store)[key := [now]];
      admitted := true;
    }

    method ClearExpiredItems(now: int)
      requires Valid()
      modifies this
      ensures Valid() && store == AfterClear(old(store), expiry, now)
    {
      var rest := store.Keys;
      while rest != {}
        invariant rest <= store.Keys <= old(store).Keys
        invariant forall key :: key in rest ==> key in store && store[key] == old(store)[key]
        invariant forall key ::
                    key in old(store) && key !in rest ==>
                      (key in store <==> !Expired(old(store)[key], expiry, now))
        invariant forall key :: key in store ==> store[key] == old(store)[key]
        decreases rest
      {
        var key :| key in rest;
        var queue := store[key];
        if |queue| == 0 || now - queue[|queue| - 1] > expiry {
          store := store - {key};
        }
        rest := rest - {key};
      }
    }
  }

  // ---------- runs ----------

  datatype Action = Request(key: string, now: int) | Clear(now: int)

  datatype Hit = Hit(key: string, time: int)

  /** The limiter beside the whole history of admitted requests, latest last. */
  datatype Book = Book(store: Store, history: seq<Hit>)

  function Step(limits: string -> Limit, expiry: nat, b: Book, a: Action): Book {
    match a
    case Request(key, now) =>
      Book(AfterRequest(b.store, key, limits(key), now),
           if Admits(b.store, key, limits(key), now) then b.history + [Hit(key, now)] else b.history)
    case Clear(now) => b.(store := AfterClear(b.store, expiry, now))
  }

  function Play(limits: string -> Limit, expiry: nat, actions: seq<Action>): Book {
    if actions == [] then Book(map[], [])
    else Step(limits, expiry, Play(limits, expiry, actions[..|actions| - 1]), actions[|actions| - 1])
  }

  /** The clock never goes back and has reached at most `now`; nothing is cleared unless the expiry is positive. */
  predicate Timed(expiry: nat, actions: seq<Action>, now: int) {
    && (forall i, j :: 0 <= i < j < |actions| ==> actions[i].now <= actions[j].now)
    && (forall a :: a in actions ==> a.now <= now && (a.Clear? ==> expiry > 0))
  }

  /** The admitted requests of the key in the last `duration` seconds. */
  function InWindow(history: seq<Hit>, key: string, duration: int, now: int): nat {
    if history == [] then 0
    else
      var last := history[|history| - 1];
      InWindow(history[..|history| - 1], key, duration, now)
          + if last.key == key && now - last.time < duration then 1 else 0
  }

  /** After these actions, a request at `now` gets the verdict of the unbounded history. */
  ghost predicate Faithful(limits: string -> Limit, expiry: nat, actions: seq<Action>, key: string, now: int) {
    var b := Play(limits, expiry, actions);
    Admits(b.store, key, limits(key), now) <==> InWindow(b.history, key, limits(key).duration, now) < limits(key).max
  }

  /** The window fits what is remembered. */
  predicate Fits(limit: Limit, expiry: nat) {
    limit.max >= 1 && (expiry > 0 ==> limit.duration <= expiry + 1)
  }

  function TimesOf(history: seq<Hit>, key: string): seq<int> {
    if history == [] then []
    else
      var last := history[|history| - 1];
      TimesOf(history[..|history| - 1], key) + if last.key == key then [last.time] else []
  }

  function After(times: seq<int>, duration: int, now: int): nat {
    if times == [] then 0
    else
      After(times[..|times| - 1], duration, now)
        + if now - times[|times| - 1] < duration then 1 else 0
  }

  lemma {:induction false} InWindowIsAfter(history: seq<Hit>, key: string, duration: int, now: int)
    ensures InWindow(history, key, duration, now) == After(TimesOf(history, key), duration, now)
  {
    if history != [] {
      InWindowIsAfter(history[..|history| - 1], key, duration, now);
      var times := TimesOf(history[..|history| - 1], key);
      var last := history[|history| - 1];
      assert (times + [last.time])[..|times|] == times && times + [] == times;
    }
  }

  /** In a non-decreasing list, the times in the window are a suffix. */
  lemma {:induction false} AfterCounts(times: seq<int>, duration: int, now: int, from: nat)
    requires from <= |times|
    requires forall i :: 0 <= i < from ==> now - times[i] >= duration
    ensures After(times, duration, now) <= |times| - from
    ensures (forall i :: from <= i < |times| ==> now - times[i] < duration)
            ==> After(times, duration, now) == |times| - from
  {
    if from < |times| {
      AfterCounts(times[..|times| - 1], duration, now, from);
    } else if times != [] {
      AfterCounts(times[..|times| - 1], duration, now, from - 1);
    }
  }

  /** What is remembered of a key: the latest admitted times, in order; what is forgotten is outside the
      window for good, unless the queue is full. */
  ghost predicate Remembers(b: Book, key: string, limit: Limit, now: int) {
    var times := TimesOf(b.history, key);
    && InOrder(times, now)
    && if key in b.store then QueueOf(times, b.store[key], limit, now) else Past(times, |times|, limit, now)
  }

  ghost predicate InOrder(times: seq<int>, now: int) {
    && (forall i, j :: 0 <= i < j < |times| ==> times[i] <= times[j])
    && (forall i :: 0 <= i < |times| ==> times[i] <= now)
  }

  /** The first `count` times have left the window. */
  ghost predicate Past(times: seq<int>, count: nat, limit: Limit, now: int)
    requires count <= |times|
  {
    forall i :: 0 <= i < count ==> now - times[i] >= limit.duration
  }

  ghost predicate QueueOf(times: seq<int>, queue: seq<int>, limit: Limit, now: int) {
    && 0 < |queue| <= |times| && |queue| <= limit.max
    && times[|times| - |queue|..] == queue
    && (|queue| < limit.max ==> Past(times, |times| - |queue|, limit, now))
  }

  lemma QueueGrows(times: seq<int>, queue: seq<int>, limit: Limit, now: int)
    requires QueueOf(times, queue, limit, now)
    ensures |queue| < limit.max ==> QueueOf(times + [now], queue + [now], limit, now)
    ensures |queue| == limit.max ==> QueueOf(times + [now], queue[1..] + [now], limit, now)
  {
    var more := times + [now];
    assert more[|times| - |queue|..] == queue + [now];
    assert more[|times| - |queue| + 1..] == queue[1..] + [now];
  }

  lemma QueueStarts(times: seq<int>, limit: Limit, now: int)
    requires Past(times, |times|, limit, now) && limit.max >= 1
    ensures QueueOf(times + [now], [now], limit, now)
  {
    assert (times + [now])[|times|..] == [now];
  }

  lemma RequestRemembers(limits: string -> Limit, expiry: nat, b: Book, key: string, now: int, k: string)
    requires Remembers(b, k, limits(k), now) && limits(k).max >= 1
    ensures Remembers(Step(limits, expiry, b, Request(key, now)), k, limits(k), now)
  {
    var times := TimesOf(b.history, k);
    if key == k && Admits(b.store, key, limits(key), now) {
      OwnHit(b.history, key, now);
      OneTimeMore(times, now);
      if key in b.store {
        QueueGrows(times, b.store[key], limits(key), now);
      } else {
        QueueStarts(times, limits(key), now);
      }
    } else if Admits(b.store, key, limits(key), now) {
      OtherHit(b.history, key, now, k);
    }
  }

  lemma OwnHit(history: seq<Hit>, key: string, now: int)
    ensures TimesOf(history + [Hit(key, now)], key) == TimesOf(history, key) + [now]
  {
    assert (history + [Hit(key, now)])[..|history|] == history;
  }

  lemma OneTimeMore(times: seq<int>, now: int)
    requires InOrder(times, now)
    ensures InOrder(times + [now], now)
  {
  }

  lemma OtherHit(history: seq<Hit>, key: string, now: int, k: string)
    requires key != k
    ensures TimesOf(history + [Hit(key, now)], k) == TimesOf(history, k)
  {
    assert (history + [Hit(key, now)])[..|history|] == history;
  }

  lemma ClearRemembers(limits: string -> Limit, expiry: nat, b: Book, now: int, k: string)
    requires Remembers(b, k, limits(k), now) && Fits(limits(k), expiry) && expiry > 0
    ensures Remembers(Step(limits, expiry, b, Clear(now)), k, limits(k), now)
  {
    var times := TimesOf(b.history, k);
    if k in b.store && Expired(b.store[k], expiry, now) {
      assert b.store[k][|b.store[k]| - 1] == times[|times| - 1];
    }
  }

  lemma {:induction false} PlayRemembers(limits: string -> Limit, expiry: nat, actions: seq<Action>, key: string,
                                         now: int)
    requires Timed(expiry, actions, now) && Fits(limits(key), expiry)
    ensures Remembers(Play(limits, expiry, actions), key, limits(key), now)
  {
    if actions != [] {
      var front, last := actions[..|actions| - 1], actions[|actions| - 1];
      TimedFront(expiry, actions, now);
      PlayRemembers(limits, expiry, front, key, last.now);
      var b := Play(limits, expiry, front);
      match last
      case Request(k, time) => RequestRemembers(limits, expiry, b, k, time, key);
      case Clear(time) => ClearRemembers(limits, expiry, b, time, key);
      StillRemembers(Step(limits, expiry, b, last), key, limits(key), last.now, now);
    }
  }

  lemma TimedFront(expiry: nat, actions: seq<Action>, now: int)
    requires Timed(expiry, actions, now) && actions != []
    ensures var last := actions[|actions| - 1];
            Timed(expiry, actions[..|actions| - 1], last.now) && last.now <= now && (last.Clear? ==> expiry > 0)
  {
    var front, last := actions[..|actions| - 1], actions[|actions| - 1];
    assert last in actions;
    forall a | a in front ensures a in actions && a.now <= last.now {
      var i :| 0 <= i < |front| && front[i] == a;
      assert actions[i] == a;
    }
  }

  lemma StillRemembers(b: Book, key: string, limit: Limit, earlier: int, now: int)
    requires Remembers(b, key, limit, earlier) && earlier <= now
    ensures Remembers(b, key, limit, now)
  {
  }

  lemma RememberedIsFaithful(b: Book, key: string, limit: Limit, now: int)
    requires Remembers(b, key, limit, now) && limit.max >= 1
    ensures Admits(b.store, key, limit, now) <==> InWindow(b.history, key, limit.duration, now) < limit.max
  {
    var times := TimesOf(b.history, key);
    InWindowIsAfter(b.history, key, limit.duration, now);
    if key in b.store {
      QueueDecides(times, |times| - |b.store[key]|, limit, now);
    } else {
      AfterCounts(times, limit.duration, now, |times|);
    }
  }

  /** A queue of the times from `from` on, the rest being forgotten. */
  lemma QueueDecides(times: seq<int>, from: nat, limit: Limit, now: int)
    requires from < |times| && |times| - from <= limit.max
    requires forall i, j :: 0 <= i < j < |times| ==> times[i] <= times[j]
    requires |times| - from < limit.max ==> forall i :: 0 <= i < from ==> now - times[i] >= limit.duration
    ensures (|times| - from < limit.max || now - times[from] >= limit.duration)
            <==> After(times, limit.duration, now) < limit.max
  {
    if |times| - from < limit.max {
      AfterCounts(times, limit.duration, now, from);
    } else if now - times[from] >= limit.duration {
      AfterCounts(times, limit.duration, now, from + 1);
    } else {
      LateOnesCount(times, limit.duration, now, from);
    }
  }

  lemma {:induction false} LateOnesCount(times: seq<int>, duration: int, now: int, from: nat)
    requires from <= |times|
    requires forall i :: from <= i < |times| ==> now - times[i] < duration
    ensures After(times, duration, now) >= |times| - from
  {
    if from < |times| {
      LateOnesCount(times[..|times| - 1], duration, now, from);
    }
  }

  // ---------- exactness ----------

  /** In every run, every request of the key gets the verdict of the unbounded history. */
  ghost predicate Exact(limits: string -> Limit, expiry: nat, key: string) {
    forall actions, now :: Timed(expiry, actions, now) ==> Faithful(limits, expiry, actions, key, now)
  }

  /** The bounded, cleaned-up queue is the sliding window exactly when at least one request is allowed and
      the window is not longer than what clean-up leaves. */
  lemma ExactIff(limits: string -> Limit, expiry: nat, key: string)
    ensures Exact(limits, expiry, key) <==> Fits(limits(key), expiry)
  {
    if Fits(limits(key), expiry) {
      forall actions, now | Timed(expiry, actions, now) ensures Faithful(limits, expiry, actions, key, now) {
        PlayRemembers(limits, expiry, actions, key, now);
        RememberedIsFaithful(Play(limits, expiry, actions), key, limits(key), now);
      }
    } else if limits(key).max < 1 {
      assert Timed(expiry, [], 0) && !Faithful(limits, expiry, [], key, 0);
    } else {
      ClearedTooSoon(limits, expiry, key);
    }
  }

  /** `count` requests of the key at time 0. */
  function Burst(key: string, count: nat): (actions: seq<Action>)
    ensures |actions| == count && forall a :: a in actions ==> a == Request(key, 0)
  {
    if count == 0 then [] else Burst(key, count - 1) + [Request(key, 0)]
  }

  lemma {:induction false} BurstIsAdmitted(limits: string -> Limit, expiry: nat, key: string, count: nat)
    requires count <= limits(key).max && limits(key).duration > expiry + 1
    ensures var b := Play(limits, expiry, Burst(key, count));
            && (count > 0 ==> b.store.Keys == {key} && |b.store[key]| == count && b.store[key][count - 1] == 0)
            && (count == 0 ==> b.store == map[])
            && InWindow(b.history, key, limits(key).duration, expiry + 1) == count
  {
    if count > 0 {
      BurstIsAdmitted(limits, expiry, key, count - 1);
      var front := Burst(key, count - 1);
      assert Burst(key, count)[..count - 1] == front;
      var b := Play(limits, expiry, front);
      assert (b.history + [Hit(key, 0)])[..|b.history|] == b.history;
    }
  }

  lemma BurstIsTimed(expiry: nat, key: string, count: nat)
    requires expiry > 0
    ensures Timed(expiry, Burst(key, count) + [Clear(expiry + 1)], expiry + 1)
  {
    var burst := Burst(key, count);
    var actions := burst + [Clear(expiry + 1)];
    forall i | 0 <= i < |actions| ensures actions[i] == if i < count then Request(key, 0) else Clear(expiry + 1) {
      assert i < count ==> actions[i] == burst[i] && burst[i] in burst;
    }
  }

  /** A full burst, a clean-up one second after it expires: the next request is let in too early. */
  lemma ClearedTooSoon(limits: string -> Limit, expiry: nat, key: string)
    requires limits(key).max >= 1 && expiry > 0 && limits(key).duration > expiry + 1
    ensures var actions := Burst(key, limits(key).max) + [Clear(expiry + 1)];
            Timed(expiry, actions, expiry + 1) && !Faithful(limits, expiry, actions, key, expiry + 1)
  {
    var burst := Burst(key, limits(key).max);
    var actions := burst + [Clear(expiry + 1)];
    BurstIsAdmitted(limits, expiry, key, limits(key).max);
    BurstIsTimed(expiry, key, limits(key).max);
    PlayThenClear(limits, expiry, burst, key);
  }

  lemma PlayThenClear(limits: string -> Limit, expiry: nat, front: seq<Action>, key: string)
    requires var b := Play(limits, expiry, front);
             key in b.store && |b.store[key]| > 0 && b.store[key][|b.store[key]| - 1] == 0
    ensures var b := Play(limits, expiry, front + [Clear(expiry + 1)]);
            key !in b.store && b.history == Play(limits, expiry, front).history
  {
    assert (front + [Clear(expiry + 1)])[..|front|] == front;
  }

  // ---------- the limits as configured (common/config/config.go) ----------

  const KEY_EXPIRATION := 20 * 60

  const GLOBAL_API := Limit(180000, 30 * 60)
  const GLOBAL_WEB := Limit(6000, 30 * 60)
  const UPLOAD := Limit(10, 600)
  const DOWNLOAD := Limit(10, 60)
  const CRITICAL := Limit(200, 200 * 60)

  /** Of the default limits only upload and download are exact: the other windows outlast the clean-up. */
  lemma DefaultLimits(limits: string -> Limit, key: string)
    requires limits(key) in {GLOBAL_API, GLOBAL_WEB, UPLOAD, DOWNLOAD, CRITICAL}
    ensures Exact(limits, KEY_EXPIRATION, key) <==> limits(key) in {UPLOAD, DOWNLOAD}
  {
    ExactIff(limits, KEY_EXPIRATION, key);
  }
}
