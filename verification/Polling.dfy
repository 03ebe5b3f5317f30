/** Choosing the key of a multi-key channel: random, or round-robin over a shared counter that skips
    disabled keys (model/channel.go, common/redis.go). */
module Polling {
  import opened Text
  import opened Sequences
  import opened KeyAdmin
  import G = Gateway

  const POLLING := 0
  const RANDOM := 1

  predicate Enabled(info: KeyInfo, i: int) {
    KeyStatus(info, i) == G.ENABLED
  }

  ghost predicate SomeEnabled(info: KeyInfo, n: nat) {
    exists i :: 0 <= i < n && Enabled(info, i)
  }

  /** The enabled indices below n, ascending. */
  function EnabledIndices(info: KeyInfo, n: nat): seq<nat> {
    if n == 0 then [] else EnabledIndices(info, n - 1) + if Enabled(info, n - 1) then [n - 1] else []
  }

  lemma {:induction false} EnabledIndicesAre(info: KeyInfo, n: nat)
    ensures forall k: nat :: k in EnabledIndices(info, n) <==> k < n && Enabled(info, k)
    ensures EnabledIndices(info, n) == [] <==> !SomeEnabled(info, n)
  {
    if n > 0 {
      EnabledIndicesAre(info, n - 1);
      if Enabled(info, n - 1) {
        assert SomeEnabled(info, n);
      }
    }
  }

  /** They stand in ascending order, so the first one is the least. */
  lemma {:induction false} EnabledIndicesAscend(info: KeyInfo, n: nat)
    ensures forall i, j :: 0 <= i < j < |EnabledIndices(info, n)| ==>
              EnabledIndices(info, n)[i] < EnabledIndices(info, n)[j]
  {
    if n > 0 {
      EnabledIndicesAscend(info, n - 1);
      EnabledIndicesAre(info, n - 1);
      var front := EnabledIndices(info, n - 1);
      forall i | 0 <= i < |front| ensures front[i] < n - 1 {
        assert front[i] in front;
      }
    }
  }

  /** The key that counter value p falls on is not enabled. */
  predicate OffAt(info: KeyInfo, n: nat, p: nat)
    requires 0 < n
  {
    !Enabled(info, p % n)
  }

  /** The first enabled index at or after the counter value c, going round the n keys; the scan has
      already passed `skipped` disabled ones. */
  function ScanFrom(info: KeyInfo, n: nat, c: nat, skipped: nat): (r: Option<nat>)
    requires 0 < n && skipped <= n
    decreases n - skipped
  {
    if skipped == n then None
    else if OffAt(info, n, c + skipped) then ScanFrom(info, n, c, skipped + 1)
    else Some((c + skipped) % n)
  }

  function Chosen(info: KeyInfo, n: nat, c: nat): Option<nat>
    requires 0 < n
  {
    ScanFrom(info, n, c, 0)
  }

  /** A draw gives an enabled key: the scan finds one whenever there is one. */
  lemma {:induction false} ScanFinds(info: KeyInfo, n: nat, c: nat, skipped: nat)
    requires 0 < n && skipped <= n
    requires forall p :: c <= p < c + skipped ==> OffAt(info, n, p)
    ensures ScanFrom(info, n, c, skipped).Some? <==> SomeEnabled(info, n)
    ensures ScanFrom(info, n, c, skipped).Some? ==>
              ScanFrom(info, n, c, skipped).value < n && Enabled(info, ScanFrom(info, n, c, skipped).value)
    decreases n - skipped
  {
    if skipped < n {
      if OffAt(info, n, c + skipped) {
        ScanFinds(info, n, c, skipped + 1);
      }
    } else {
      forall i | 0 <= i < n ensures !Enabled(info, i) {
        EveryIndexIsPassed(n, c, i);
        assert OffAt(info, n, c + (i - c) % n);
      }
    }
  }

  lemma EveryIndexIsPassed(n: nat, c: nat, i: nat)
    requires i < n
    ensures (c + (i - c) % n) % n == i
  {
    var q := (i - c) / n;
    assert c + (i - c) % n == i + n * -q;
    ModShift(i, n, -q);
  }

  lemma NoSmallMultiple(n: int, d: int)
    requires n > 0
    ensures d >= 1 ==> n * d >= n
    ensures d <= -1 ==> n * d + n <= 0
  {
  }

  lemma ModShift(a: int, n: nat, q: int)
    requires 0 < n && 0 <= a < n
    ensures (a + n * q) % n == a
  {
    var b := a + n * q;
    var d := b / n;
    assert b == n * d + b % n;
    assert n * (q - d) == b % n - a;
    NoSmallMultiple(n, q - d);
  }

  /** The counter shared by every request of the channel: Redis when it answers, else the process's own. */
  class Counters {
    var redis: nat
    var local: nat

    method IncrMod(redisUp: bool, n: nat) returns (start: nat)
      requires 0 < n
      modifies this
      ensures redisUp ==> redis == old(redis) + 1 && local == old(local) && start == old(redis) % n
      ensures !redisUp ==> local == old(local) + 1 && redis == old(redis) && start == old(local) % n
    {
      if redisUp {
        redis := redis + 1;
        start := (redis - 1) % n;
      } else {
        local := local + 1;
        start := (local - 1) % n;
      }
    }

    /** GetNextAvailableKey; `draw` is the random number. An error exactly when no key is enabled. */
    method GetNextAvailableKey(single: string, keys: seq<string>, info: KeyInfo, redisUp: bool, draw: nat)
      returns (r: Option<(string, nat)>)
      modifies this
      ensures !info.isMultiKey ==> r == Some((single, 0))
      ensures info.isMultiKey ==> (r.Some? <==> SomeEnabled(info, |keys|))
      ensures info.isMultiKey && r.Some?
              ==> r.value.1 < |keys| && Enabled(info, r.value.1) && r.value.0 == keys[r.value.1]
      ensures info.isMultiKey && info.selectionMode == RANDOM && r.Some? ==>
                var enabled := EnabledIndices(info, |keys|); enabled != [] && r.value.1 == enabled[draw % |enabled|]
      ensures info.isMultiKey && info.selectionMode !in {RANDOM, POLLING} && r.Some? ==>
                EnabledIndices(info, |keys|) != [] && r.value.1 == EnabledIndices(info, |keys|)[0]
      ensures !info.isMultiKey || info.selectionMode != POLLING ==> redis == old(redis) && local == old(local)
      ensures info.isMultiKey && info.selectionMode == POLLING && r.Some? ==>
                && Chosen(info, |keys|, old(if redisUp then redis else local)) == Some(r.value.1)
                && redis == old(redis) + (if redisUp then 1 else 0)
                && local == old(local) + (if redisUp then 0 else 1)
    {
      if !info.isMultiKey {
        return Some((single, 0));
      }
      var n := |keys|;
      if n == 0 {
        return None;
      }
      var enabledIndices := CollectEnabled(info, n);
      EnabledIndicesAre(info, n);
      if |enabledIndices| == 0 {
        return None;
      }
      var fallback := enabledIndices[0];
      assert fallback in enabledIndices;
      if info.selectionMode == RANDOM {
        var selected := enabledIndices[draw % |enabledIndices|];
        assert selected in enabledIndices;
        return Some((keys[selected], selected));
      }
      if info.selectionMode == POLLING {
        ghost var c := if redisUp then redis else local;
        var start := IncrMod(redisUp, n);
        ScanFinds(info, n, c, 0);
        var idx := ScanKeys(info, n, start, c);
        return Some((keys[idx], idx));
      }
      return Some((keys[fallback], fallback));
    }
  }

  method CollectEnabled(info: KeyInfo, n: nat) returns (enabledIndices: seq<nat>)
    ensures enabledIndices == EnabledIndices(info, n)
  {
    enabledIndices := [];
    for i := 0 to n
      invariant enabledIndices == EnabledIndices(info, i)
    {
      if KeyStatus(info, i) == G.ENABLED {
        enabledIndices := enabledIndices + [i];
      }
    }
  }

  /** The scan of the polling mode, from the reduced counter value on. */
  method ScanKeys(info: KeyInfo, n: nat, start: nat, ghost c: nat) returns (idx: nat)
    requires 0 < n && start == c % n && Chosen(info, n, c).Some?
    ensures Chosen(info, n, c) == Some(idx)
  {
    for i := 0 to n
      invariant Chosen(info, n, c) == ScanFrom(info, n, c, i)
    {
      idx := (start + i) % n;
      StartsAnywhere(c, i, n);
      if KeyStatus(info, idx) == G.ENABLED {
        return;
      }
    }
    assert false;
  }

  lemma StartsAnywhere(c: nat, i: nat, n: nat)
    requires 0 < n
    ensures (c % n + i) % n == (c + i) % n
  {
    var a := (c + i) % n;
    assert c % n + i == a + n * ((c + i) / n - c / n) by {
      assert c == n * (c / n) + c % n;
      assert c + i == n * ((c + i) / n) + a;
    }
    ModShift(a, n, (c + i) / n - c / n);
  }

  // ---------- every window of n draws ----------

  /** The disabled keys directly before key k, cyclically, counted from the d nearest ones being disabled. */
  function DisabledBefore(info: KeyInfo, n: nat, k: nat, d: nat): (r: nat)
    requires k < n && d < n
    ensures d <= r < n
    decreases n - d
  {
    if d == n - 1 || !OffAt(info, n, k + n - (d + 1)) then d else DisabledBefore(info, n, k, d + 1)
  }

  /** How many of the m draws from counter value c on give key k. */
  ghost function Hits(info: KeyInfo, n: nat, k: nat, c: nat, m: nat): nat
    requires 0 < n
  {
    if m == 0 then 0 else Hits(info, n, k, c, m - 1) + if Chosen(info, n, c + m - 1) == Some(k) then 1 else 0
  }

  lemma SamePlace(n: nat, c: nat, skipped: nat)
    requires 0 < n
    ensures (c + n + skipped) % n == (c + skipped) % n
  {
    ModShift((c + skipped) % n, n, (c + skipped) / n + 1);
    assert c + n + skipped == (c + skipped) % n + n * ((c + skipped) / n + 1);
  }

  /** The keys are chosen with period n. */
  lemma {:induction false} ScanIsPeriodic(info: KeyInfo, n: nat, c: nat, skipped: nat)
    requires 0 < n && skipped <= n
    ensures ScanFrom(info, n, c + n, skipped) == ScanFrom(info, n, c, skipped)
    decreases n - skipped
  {
    if skipped < n {
      SamePlace(n, c, skipped);
      ScanIsPeriodic(info, n, c, skipped + 1);
    }
  }

  lemma {:induction false} HitsFirst(info: KeyInfo, n: nat, k: nat, c: nat, m: nat)
    requires 0 < n
    ensures Hits(info, n, k, c, m + 1) == (if Chosen(info, n, c) == Some(k) then 1 else 0) + Hits(info, n, k, c + 1, m)
  {
    if m > 0 {
      HitsFirst(info, n, k, c, m - 1);
    }
  }

  /** It does not matter where a window of n draws starts. */
  lemma {:induction false} WindowsAgree(info: KeyInfo, n: nat, k: nat, c: nat)
    requires 0 < n
    ensures Hits(info, n, k, c, n) == Hits(info, n, k, 0, n)
  {
    if c > 0 {
      HitsFirst(info, n, k, c - 1, n);
      ScanIsPeriodic(info, n, c - 1, 0);
      assert Hits(info, n, k, c - 1, n + 1)
          == Hits(info, n, k, c - 1, n) + if Chosen(info, n, c - 1 + n) == Some(k) then 1 else 0;
      WindowsAgree(info, n, k, c - 1);
    }
  }

  /** The draw d places before key k, after passing the disabled keys between e and d, reaches k exactly
      when nothing enabled lies between. */
  lemma {:induction false} DrawBefore(info: KeyInfo, n: nat, k: nat, d: nat, e: nat)
    requires k < n && e <= d < n && Enabled(info, k)
    ensures ScanFrom(info, n, k + n - d, d - e) == Some(k)
       <==> forall p :: k + n - e <= p < k + n ==> OffAt(info, n, p)
    decreases e
  {
    assert k + n - d + (d - e) == k + n - e;
    ModShift(k, n, 1);
    if e > 0 {
      NotBefore(n, k, e);
      DrawBefore(info, n, k, d, e - 1);
    }
  }

  lemma NotBefore(n: nat, k: nat, e: nat)
    requires k < n && 0 < e < n
    ensures (k + n - e) % n != k
  {
    if k >= e {
      ModShift(k - e, n, 1);
    } else {
      ModShift(k + n - e, n, 0);
    }
  }

  lemma {:induction false} DisabledBeforeIsARun(info: KeyInfo, n: nat, k: nat, d: nat, e: nat)
    requires k < n && d < n && e < n
    requires forall p :: k + n - d <= p < k + n ==> OffAt(info, n, p)
    ensures (forall p :: k + n - e <= p < k + n ==> OffAt(info, n, p)) <==> e <= DisabledBefore(info, n, k, d)
    decreases n - d
  {
    if d < n - 1 && OffAt(info, n, k + n - (d + 1)) {
      DisabledBeforeIsARun(info, n, k, d + 1, e);
    }
  }

  /** The window that ends with key k's own turn. */
  lemma {:induction false} LastWindow(info: KeyInfo, n: nat, k: nat, m: nat)
    requires k < n && m <= n && Enabled(info, k)
    ensures var skip := n - 1 - DisabledBefore(info, n, k, 0);
            Hits(info, n, k, k + 1, m) == if m <= skip then 0 else m - skip
  {
    if m > 0 {
      LastWindow(info, n, k, m - 1);
      DrawBefore(info, n, k, n - m, n - m);
      DisabledBeforeIsARun(info, n, k, 0, n - m);
      assert k + 1 + m - 1 == k + n - (n - m);
    }
  }

  /** Over any n consecutive draws of an n-key channel an enabled key is chosen once for itself and once
      for each disabled key directly before it; a disabled key never is. */
  lemma PollingShares(info: KeyInfo, n: nat, c: nat, drawn: seq<Option<nat>>, k: nat)
    requires k < n == |drawn|
    requires forall t :: 0 <= t < n ==> drawn[t] == Chosen(info, n, c + t)
    ensures Count(drawn, Some(k)) == if Enabled(info, k) then 1 + DisabledBefore(info, n, k, 0) else 0
  {
    CountIsHits(info, n, k, c, drawn);
    if Enabled(info, k) {
      WindowsAgree(info, n, k, c);
      WindowsAgree(info, n, k, k + 1);
      LastWindow(info, n, k, n);
    } else {
      DisabledIsNeverHit(info, n, k, c, n);
    }
  }

  lemma {:induction false} CountIsHits(info: KeyInfo, n: nat, k: nat, c: nat, drawn: seq<Option<nat>>)
    requires 0 < n
    requires forall t :: 0 <= t < |drawn| ==> drawn[t] == Chosen(info, n, c + t)
    ensures Count(drawn, Some(k)) == Hits(info, n, k, c, |drawn|)
  {
    if drawn != [] {
      CountIsHits(info, n, k, c, drawn[..|drawn| - 1]);
      assert drawn[|drawn| - 1] == Chosen(info, n, c + (|drawn| - 1));
    }
  }

  lemma {:induction false} DisabledIsNeverHit(info: KeyInfo, n: nat, k: nat, c: nat, m: nat)
    requires 0 < n && !Enabled(info, k)
    ensures Hits(info, n, k, c, m) == 0
  {
    if m > 0 {
      DisabledIsNeverHit(info, n, k, c, m - 1);
      ScanFinds(info, n, c + m - 1, 0);
    }
  }
}
