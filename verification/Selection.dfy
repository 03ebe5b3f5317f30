/** Channel selection (model/cache.go): priority levels, exclusion, boundary, weighted pick.
    The imperative selection is proved against `BestLevel`, which knows no levels and no fallback. */
module Selection {
  import opened Text
  import opened Gateway
  import opened Sequences

  // ---------- weights ----------

  /** A missing or zero weight counts as one. */
  function Effective(weight: nat): nat {
    if weight <= 0 then 1 else weight
  }

  function Total(weights: seq<nat>): nat {
    if weights == [] then 0 else Total(weights[..|weights| - 1]) + Effective(weights[|weights| - 1])
  }

  /** The index an unlimited accumulation stops at: the weights before it stay below the
      threshold and the weights up to it reach it. */
  ghost predicate PickedBy(weights: seq<nat>, threshold: int, i: int) {
    && 0 <= i < |weights|
    && Total(weights[..i]) < threshold <= Total(weights[..i + 1])
  }

  lemma {:induction false} TotalStep(weights: seq<nat>, i: nat)
    requires i < |weights|
    ensures Total(weights[..i + 1]) == Total(weights[..i]) + Effective(weights[i])
  {
    assert weights[..i + 1][..i] == weights[..i];
  }

  lemma {:induction false} TotalMonotone(weights: seq<nat>, i: nat, j: nat)
    requires i <= j <= |weights|
    ensures Total(weights[..i]) <= Total(weights[..j])
    decreases j - i
  {
    if i < j {
      TotalStep(weights, i);
      TotalMonotone(weights, i + 1, j);
    }
  }

  lemma PickIsUnique(weights: seq<nat>, threshold: int, i: int, j: int)
    requires PickedBy(weights, threshold, i) && PickedBy(weights, threshold, j)
    ensures i == j
  {
    if i < j {
      TotalMonotone(weights, i + 1, j);
    } else if j < i {
      TotalMonotone(weights, j + 1, i);
    }
  }

  /** The accumulating loop. With a threshold the random draw can give, the final "unable to select" error is
      never reached. */
  method PickByWeight(weights: seq<nat>, threshold: int) returns (picked: Option<nat>)
    ensures 1 <= threshold <= Total(weights) ==> picked.Some?
    ensures picked.Some? && 1 <= threshold ==> PickedBy(weights, threshold, picked.value)
    ensures picked.Some? ==> picked.value < |weights|
  {
    var current := 0;
    for i := 0 to |weights|
      invariant current == Total(weights[..i])
      invariant current < threshold || threshold < 1
    {
      TotalStep(weights, i);
      current := current + Effective(weights[i]);
      if current >= threshold {
        return Some(i);
      }
    }
    assert weights[..|weights|] == weights;
    picked := None;
  }

  /** A draw that selects index i. */
  lemma DrawFor(weights: seq<nat>, i: nat) returns (roll: nat)
    requires i < |weights|
    ensures Total(weights) >= 1 && PickedBy(weights, roll % Total(weights) + 1, i)
  {
    TotalStep(weights, i);
    TotalMonotone(weights, i + 1, |weights|);
    assert weights[..|weights|] == weights;
    roll := Total(weights[..i]);
    SmallModulus(roll, Total(weights));
  }

  lemma SmallModulus(n: nat, m: nat)
    requires n < m
    ensures n % m == n
  {
  }

  /** How many of the thresholds lo..hi select index i. */
  ghost function Hits(weights: seq<nat>, lo: int, hi: int, i: int): nat
    decreases hi - lo
  {
    if lo > hi then 0 else (if PickedBy(weights, lo, i) then 1 else 0) + Hits(weights, lo + 1, hi, i)
  }

  lemma {:induction false} HitsOf(weights: seq<nat>, lo: int, hi: int, i: nat)
    requires i < |weights| && hi == Total(weights)
    ensures Hits(weights, lo, hi, i)
         == (if lo <= Total(weights[..i]) then Effective(weights[i])
             else if lo <= Total(weights[..i + 1]) then Total(weights[..i + 1]) - lo + 1 else 0)
    decreases hi - lo
  {
    TotalStep(weights, i);
    TotalMonotone(weights, i + 1, |weights|);
    assert weights[..|weights|] == weights;
    if lo <= hi {
      HitsOf(weights, lo + 1, hi, i);
    }
  }

  /** The pick is exactly proportional: of the thresholds 1..total, max(1, w_i) select channel i. */
  lemma PickIsProportional(weights: seq<nat>, i: nat)
    requires i < |weights|
    ensures Hits(weights, 1, Total(weights), i) == Effective(weights[i])
  {
    HitsOf(weights, 1, Total(weights), i);
  }

  // ---------- priority levels ----------

  type Channels = map<int, Channel>

  /** A selection request, as the distributor and the retry policy build it. */
  datatype Request = Request(group: string, model: string, boundary: Boundary, exclude: seq<int>)

  predicate Allowed(channels: Channels, b: Boundary, a: Ability) {
    a.channelId in channels && RetryProviderAllows(b, channels[a.channelId])
  }

  predicate Candidate(channels: Channels, q: Request, a: Ability) {
    Joined(channels, a, q.group, q.model) && a.channelId !in q.exclude && Allowed(channels, q.boundary, a)
  }

  /** A candidate that no candidate of the table outranks. */
  predicate IsBest(channels: Channels, q: Request, table: seq<Ability>, a: Ability) {
    && Candidate(channels, q, a)
    && forall b :: b in table && Candidate(channels, q, b) ==> b.priority <= a.priority
  }

  /** The reference result: every best candidate in table order. It knows no levels and no fallback. */
  function BestLevel(channels: Channels, q: Request, table: seq<Ability>): seq<Ability> {
    Keep(table, BestOf(channels, q, table))
  }

  function BestOf(channels: Channels, q: Request, table: seq<Ability>): Ability -> bool {
    a => IsBest(channels, q, table, a)
  }

  function NotAbove(ceiling: int): Ability -> bool {
    (a: Ability) => a.priority <= ceiling
  }

  function CandidateAt(channels: Channels, q: Request, priority: int): Ability -> bool {
    a => Candidate(channels, q, a) && a.priority == priority
  }

  function InLevel(channels: Channels, q: Request, priority: int): Ability -> bool {
    a => Joined(channels, a, q.group, q.model) && a.priority == priority && a.channelId !in q.exclude
  }

  function InBoundary(channels: Channels, b: Boundary): Ability -> bool {
    a => Allowed(channels, b, a)
  }

  function InsertDescending(p: int, sorted: seq<int>): seq<int> {
    if sorted == [] || sorted[0] < p then [p] + sorted
    else if sorted[0] == p then sorted
    else [sorted[0]] + InsertDescending(p, sorted[1..])
  }

  /** SELECT DISTINCT priority over the joined rows, sorted downwards; neither exclusion nor boundary applies. */
  function SortedPriorities(channels: Channels, group: string, model: string, rows: seq<Ability>): seq<int> {
    if rows == [] then []
    else
      var rest := SortedPriorities(channels, group, model, rows[1..]);
      if Joined(channels, rows[0], group, model) then InsertDescending(rows[0].priority, rest) else rest
  }

  ghost predicate StrictlyDown(s: seq<int>) {
    forall i, j :: 0 <= i < j < |s| ==> s[i] > s[j]
  }

  lemma {:induction false} InsertKeepsDown(p: int, sorted: seq<int>)
    requires StrictlyDown(sorted)
    ensures StrictlyDown(InsertDescending(p, sorted))
    ensures forall x :: x in InsertDescending(p, sorted) <==> x == p || x in sorted
  {
    if sorted != [] && sorted[0] > p {
      var rest := sorted[1..];
      var tail := InsertDescending(p, rest);
      InsertKeepsDown(p, rest);
      assert sorted == [sorted[0]] + rest;
      forall i | 0 <= i < |tail| ensures tail[i] < sorted[0] {
        assert tail[i] in tail;
      }
    }
  }

  /** The sorted priorities are exactly those of the joined rows, each once, highest first. */
  lemma {:induction false} PrioritiesOfRows(channels: Channels, group: string, model: string, rows: seq<Ability>)
    ensures var levels := SortedPriorities(channels, group, model, rows); StrictlyDown(levels)
    ensures forall a ::
              a in rows && Joined(channels, a, group, model) ==>
                a.priority in SortedPriorities(channels, group, model, rows)
    ensures forall x :: x in SortedPriorities(channels, group, model, rows)
                    ==> exists a :: a in rows && Joined(channels, a, group, model) && a.priority == x
  {
    if rows != [] {
      PrioritiesOfRows(channels, group, model, rows[1..]);
      if Joined(channels, rows[0], group, model) {
        InsertKeepsDown(rows[0].priority, SortedPriorities(channels, group, model, rows[1..]));
      }
    }
  }

  /** The SQL query at one priority: joined rows of that priority outside the exclusion list. */
  function QueryLevel(channels: Channels, q: Request, priority: int, table: seq<Ability>): seq<Ability> {
    Keep(table, InLevel(channels, q, priority))
  }

  /** The rows of a level inside the boundary. */
  function AllowedOnly(channels: Channels, b: Boundary, rows: seq<Ability>): seq<Ability> {
    Keep(rows, InBoundary(channels, b))
  }

  /** filterRetryProviderChannels: without a boundary the rows pass unread. */
  method FilterRetryProviderChannels(channels: Channels, b: Boundary, rows: seq<Ability>)
    returns (filtered: seq<Ability>)
    requires forall a :: a in rows ==> a.channelId in channels
    ensures filtered == AllowedOnly(channels, b, rows)
  {
    if !HasRetryBoundary(b) {
      KeepAll(rows, InBoundary(channels, b));
      return rows;
    }
    filtered := [];
    for i := 0 to |rows|
      invariant filtered + AllowedOnly(channels, b, rows[i..]) == AllowedOnly(channels, b, rows)
    {
      assert rows[i..][1..] == rows[i + 1..];
      if RetryProviderAllows(b, channels[rows[i].channelId]) {
        filtered := filtered + [rows[i]];
      }
    }
  }

  /** A filtered level holds exactly the candidates of its priority. */
  lemma FilteredLevel(channels: Channels, q: Request, priority: int, table: seq<Ability>)
    ensures AllowedOnly(channels, q.boundary, QueryLevel(channels, q, priority, table))
         == Keep(table, CandidateAt(channels, q, priority))
    ensures forall a :: a in QueryLevel(channels, q, priority, table) ==> a.channelId in channels
  {
    KeepTwice(table, InLevel(channels, q, priority), InBoundary(channels, q.boundary),
              CandidateAt(channels, q, priority));
    KeepMembers(table, InLevel(channels, q, priority));
  }

  function StartLevel(levels: seq<int>, skip: nat): nat
    requires levels != []
  {
    if skip >= |levels| then |levels| - 1 else skip
  }

  /** The rows a selection that skips `skip` priority levels can reach: none above its first level. */
  function Reach(channels: Channels, q: Request, table: seq<Ability>, skip: nat): seq<Ability> {
    var levels := SortedPriorities(channels, q.group, q.model, table);
    if levels == [] then table else Keep(table, NotAbove(levels[StartLevel(levels, skip)]))
  }

  /** What a skip leaves out: the rows above the level it starts from, which is the lowest one when it skips all. */
  lemma ReachMeans(channels: Channels, q: Request, table: seq<Ability>, skip: nat, a: Ability)
    requires SortedPriorities(channels, q.group, q.model, table) != []
    ensures var levels := SortedPriorities(channels, q.group, q.model, table);
            a in Reach(channels, q, table, skip)
            <==> a in table && a.priority <= levels[if skip < |levels| then skip else |levels| - 1]
  {
    var levels := SortedPriorities(channels, q.group, q.model, table);
    KeepMembers(table, NotAbove(levels[StartLevel(levels, skip)]));
  }

  /** Skipping no level reaches the best candidates of the whole table. */
  lemma SkippingNoneReachesAll(channels: Channels, q: Request, table: seq<Ability>)
    ensures BestLevel(channels, q, Reach(channels, q, table, 0)) == BestLevel(channels, q, table)
  {
    var levels := SortedPriorities(channels, q.group, q.model, table);
    PrioritiesOfRows(channels, q.group, q.model, table);
    if levels != [] {
      var below := NotAbove(levels[0]);
      var reach := Keep(table, below);
      KeepMembers(table, below);
      assert forall a :: a in table && Candidate(channels, q, a) ==> below(a);
      KeepTwice(table, below, BestOf(channels, q, reach), BestOf(channels, q, table));
    }
  }

  /** The best candidates are the candidates of one priority, when that priority is theirs. */
  lemma BestIsOnePriority(channels: Channels, q: Request, table: seq<Ability>, priority: int, ceiling: int)
    requires priority <= ceiling
    requires forall a :: a in table && a.priority <= ceiling && Candidate(channels, q, a) ==> a.priority <= priority
    requires exists a :: a in table && Candidate(channels, q, a) && a.priority == priority
    ensures BestLevel(channels, q, Keep(table, NotAbove(ceiling)))
         == Keep(table, CandidateAt(channels, q, priority))
  {
    var below := NotAbove(ceiling);
    var reach := Keep(table, below);
    KeepMembers(table, below);
    var top :| top in table && Candidate(channels, q, top) && top.priority == priority;
    assert top in reach;
    KeepTwice(table, below, BestOf(channels, q, reach), CandidateAt(channels, q, priority));
  }

  // ---------- the textual check on a remembered channel ----------

  predicate ListsName(column: string, name: string) {
    var pieces := Split(column, ',');
    exists i :: 0 <= i < |pieces| && TrimSpace(pieces[i]) == name
  }

  predicate TextAccepts(channels: Channels, group: string, model: string, c: int) {
    && c in channels && channels[c].status == ENABLED
    && ListsName(channels[c].groups, group) && ListsName(channels[c].models, model)
  }

  method ScanForName(column: string, name: string) returns (matched: bool)
    ensures matched <==> ListsName(column, name)
  {
    var pieces := Split(column, ',');
    matched := false;
    for i := 0 to |pieces|
      invariant !matched
      invariant forall k :: 0 <= k < i ==> TrimSpace(pieces[k]) != name
    {
      if TrimSpace(pieces[i]) == name {
        return true;
      }
    }
  }

  /** What the response-id cache remembers for a request. */
  datatype Affinity = Affinity(channel: int, keyIndex: int)

  predicate AffinityHolds(channels: Channels, q: Request, cached: Affinity) {
    && cached.channel !in q.exclude
    && TextAccepts(channels, q.group, q.model, cached.channel)
    && RetryProviderAllows(q.boundary, channels[cached.channel])
  }

  method UseAffinity(channels: Channels, q: Request, cached: Affinity) returns (use: bool)
    ensures use <==> AffinityHolds(channels, q, cached)
  {
    use := false;
    if cached.channel !in q.exclude && cached.channel in channels {
      var channel := channels[cached.channel];
      if channel.status == ENABLED {
        var groupMatched := ScanForName(channel.groups, q.group);
        var modelMatched := ScanForName(channel.models, q.model);
        use := groupMatched && modelMatched && RetryProviderAllows(q.boundary, channel);
      }
    }
  }

  // ---------- selection ----------

  datatype Selected = Selected(channel: int, keyIndex: int) | NoChannel

  function WeightsOf(channels: Channels, rows: seq<Ability>): (w: seq<nat>)
    ensures |w| == |rows|
  {
    if rows == [] then []
    else
      [if rows[0].channelId in channels then channels[rows[0].channelId].weight else 0]
        + WeightsOf(channels, rows[1..])
  }

  lemma TotalPositive(weights: seq<nat>)
    requires weights != []
    ensures Total(weights) >= 1
  {
    assert Total(weights) == Total(weights[..|weights| - 1]) + Effective(weights[|weights| - 1]);
  }

  /** The weighted pick from the best rows, or an error when there are none. */
  ghost predicate WeightedPick(channels: Channels, best: seq<Ability>, roll: nat, r: Selected) {
    if best == [] then r == NoChannel
    else
      var weights := WeightsOf(channels, best);
      && Total(weights) >= 1
      && exists i: nat :: PickedBy(weights, roll % Total(weights) + 1, i) && r == Selected(best[i].channelId, -1)
  }

  method PickFrom(channels: Channels, best: seq<Ability>, roll: nat) returns (r: Selected)
    requires best != []
    ensures WeightedPick(channels, best, roll, r)
  {
    var weights := WeightsOf(channels, best);
    TotalPositive(weights);
    var totalWeight := 0;
    for i := 0 to |weights|
      invariant totalWeight == Total(weights[..i])
    {
      TotalStep(weights, i);
      totalWeight := totalWeight + Effective(weights[i]);
    }
    assert weights[..|weights|] == weights;
    var picked := PickByWeight(weights, roll % totalWeight + 1);
    r := Selected(best[picked.value].channelId, -1);
  }

  lemma {:induction false} WeightOfRow(channels: Channels, rows: seq<Ability>, i: nat)
    requires i < |rows| && rows[i].channelId in channels
    ensures WeightsOf(channels, rows)[i] == channels[rows[i].channelId].weight
  {
    if i > 0 {
      WeightOfRow(channels, rows[1..], i - 1);
    }
  }

  /** No level from `from` up to `upto` holds a candidate. */
  ghost predicate NoneBetween(channels: Channels, q: Request, table: seq<Ability>, levels: seq<int>, from: nat,
                              upto: nat) {
    forall a, k :: a in table && Candidate(channels, q, a) && from <= k < upto && k < |levels|
        ==> a.priority != levels[k]
  }

  lemma EmptyLevel(channels: Channels, q: Request, table: seq<Ability>, priority: int)
    requires AllowedOnly(channels, q.boundary, QueryLevel(channels, q, priority, table)) == []
    ensures forall a :: a in table && Candidate(channels, q, a) ==> a.priority != priority
  {
    FilteredLevel(channels, q, priority, table);
    KeepMembers(table, CandidateAt(channels, q, priority));
  }

  /** What the level scan has found when it stops at `at`: the first level that is not empty, or the end. */
  lemma ScanFindsBest(channels: Channels, q: Request, table: seq<Ability>, levels: seq<int>, skip: nat, at: nat)
    requires levels == SortedPriorities(channels, q.group, q.model, table) != []
    requires StartLevel(levels, skip) <= at <= |levels|
    requires NoneBetween(channels, q, table, levels, StartLevel(levels, skip), at)
    requires at < |levels| ==> AllowedOnly(channels, q.boundary, QueryLevel(channels, q, levels[at], table)) != []
    ensures BestLevel(channels, q, Reach(channels, q, table, skip))
         == if at < |levels| then AllowedOnly(channels, q.boundary, QueryLevel(channels, q, levels[at], table)) else []
  {
    var ceiling := levels[StartLevel(levels, skip)];
    NoneAbove(channels, q, table, levels, skip, at);
    if at < |levels| {
      PrioritiesOfRows(channels, q.group, q.model, table);
      LevelIsBest(channels, q, table, levels[at], ceiling);
    } else {
      NothingBelow(channels, q, table, ceiling);
    }
  }

  lemma LevelIsBest(channels: Channels, q: Request, table: seq<Ability>, priority: int, ceiling: int)
    requires priority <= ceiling
    requires forall a :: a in table && a.priority <= ceiling && Candidate(channels, q, a) ==> a.priority <= priority
    requires AllowedOnly(channels, q.boundary, QueryLevel(channels, q, priority, table)) != []
    ensures BestLevel(channels, q, Keep(table, NotAbove(ceiling)))
         == AllowedOnly(channels, q.boundary, QueryLevel(channels, q, priority, table))
  {
    var level := AllowedOnly(channels, q.boundary, QueryLevel(channels, q, priority, table));
    FilteredLevel(channels, q, priority, table);
    KeepMembers(table, CandidateAt(channels, q, priority));
    assert level[0] in level;
    BestIsOnePriority(channels, q, table, priority, ceiling);
  }

  lemma NothingBelow(channels: Channels, q: Request, table: seq<Ability>, ceiling: int)
    requires forall a :: a in table && a.priority <= ceiling ==> !Candidate(channels, q, a)
    ensures BestLevel(channels, q, Keep(table, NotAbove(ceiling))) == []
  {
    var reach := Keep(table, NotAbove(ceiling));
    KeepMembers(table, NotAbove(ceiling));
    KeepNone(reach, BestOf(channels, q, reach));
  }

  /** No reachable candidate outranks the level where the scan stops. */
  lemma NoneAbove(channels: Channels, q: Request, table: seq<Ability>, levels: seq<int>, skip: nat, at: nat)
    requires levels == SortedPriorities(channels, q.group, q.model, table) != []
    requires StartLevel(levels, skip) <= at <= |levels|
    requires NoneBetween(channels, q, table, levels, StartLevel(levels, skip), at)
    ensures forall a :: a in table && a.priority <= levels[StartLevel(levels, skip)] && Candidate(channels, q, a) ==>
              at < |levels| && a.priority <= levels[at]
  {
    PrioritiesOfRows(channels, q.group, q.model, table);
    forall a | a in table && a.priority <= levels[StartLevel(levels, skip)] && Candidate(channels, q, a)
      ensures at < |levels| && a.priority <= levels[at]
    {
      assert a.priority in levels;
    }
  }

  lemma NoLevelNoCandidate(channels: Channels, q: Request, table: seq<Ability>)
    requires SortedPriorities(channels, q.group, q.model, table) == []
    ensures BestLevel(channels, q, table) == []
  {
    PrioritiesOfRows(channels, q.group, q.model, table);
    KeepNone(table, BestOf(channels, q, table));
  }

  /** CacheGetRandomSatisfiedChannel. `roll` is the random draw; `cached` is what the response-id
      cache holds, None without a response id. The primary query and the fallback loop together
      make one weighted pick from the reference level. */
  method CacheGetRandomSatisfiedChannel(channels: Channels, table: seq<Ability>, q: Request, skip: nat,
                                        cached: Option<Affinity>, roll: nat)
    returns (r: Selected)
    ensures skip == 0 && cached.Some? && AffinityHolds(channels, q, cached.value)
        ==> r == Selected(cached.value.channel, cached.value.keyIndex)
    ensures skip == 0 && !(cached.Some? && AffinityHolds(channels, q, cached.value))
        ==> WeightedPick(channels, BestLevel(channels, q, table), roll, r)
    ensures skip > 0 ==> WeightedPick(channels, BestLevel(channels, q, Reach(channels, q, table, skip)), roll, r)
  {
    if skip == 0 && cached.Some? {
      var use := UseAffinity(channels, q, cached.value);
      if use {
        return Selected(cached.value.channel, cached.value.keyIndex);
      }
    }
    SkippingNoneReachesAll(channels, q, table);
    var levels := SortedPriorities(channels, q.group, q.model, table);
    if levels == [] {
      NoLevelNoCandidate(channels, q, table);
      return NoChannel;
    }
    var index := StartLevel(levels, skip);
    var eligible, at := ScanLevels(channels, table, q, levels, index);
    ScanFindsBest(channels, q, table, levels, skip, at);
    if eligible == [] {
      return NoChannel;
    }
    r := PickFrom(channels, eligible, roll);
  }

  /** The primary query at the chosen level, then the fallback over the levels below it. */
  method ScanLevels(channels: Channels, table: seq<Ability>, q: Request, levels: seq<int>, index: nat)
    returns (eligible: seq<Ability>, ghost at: nat)
    requires index < |levels|
    ensures index <= at <= |levels| && NoneBetween(channels, q, table, levels, index, at)
    ensures eligible == if at < |levels|
            then AllowedOnly(channels, q.boundary, QueryLevel(channels, q, levels[at], table)) else []
    ensures at < |levels| ==> eligible != []
  {
    FilteredLevel(channels, q, levels[index], table);
    eligible := FilterRetryProviderChannels(channels, q.boundary, QueryLevel(channels, q, levels[index], table));
    at := index;
    if eligible == [] {
      EmptyLevel(channels, q, table, levels[index]);
      for idx := index + 1 to |levels|
        invariant eligible == [] && NoneBetween(channels, q, table, levels, index, idx)
      {
        FilteredLevel(channels, q, levels[idx], table);
        eligible := FilterRetryProviderChannels(channels, q.boundary, QueryLevel(channels, q, levels[idx], table));
        at := idx;
        if eligible != [] {
          return;
        }
        EmptyLevel(channels, q, table, levels[idx]);
      }
      at := |levels|;
    }
  }

  // ---------- what a caller may rely on ----------

  ghost predicate EligibleRow(channels: Channels, b: Boundary, group: string, model: string, a: Ability) {
    Joined(channels, a, group, model) && Allowed(channels, b, a)
  }

  /** The channels a request may use, each with the priority of its ability. */
  ghost function Pool(channels: Channels, table: seq<Ability>, b: Boundary, group: string,
                      model: string): map<int, int> {
    map c | c in channels && (exists a :: a in table && a.channelId == c && EligibleRow(channels, b, group, model, a))
      :: var a :| a in table && a.channelId == c && EligibleRow(channels, b, group, model, a); a.priority
  }

  /** A channel of the pool, outside the exclusion list, that no other such channel outranks. */
  predicate BestIn(pool: map<int, int>, exclude: seq<int>, c: int) {
    && c in pool && c !in exclude
    && forall d :: d in pool && d !in exclude ==> pool[d] <= pool[c]
  }

  predicate Exhausted(pool: map<int, int>, exclude: seq<int>) {
    forall d :: d in pool ==> d in exclude
  }

  lemma RowInPool(channels: Channels, table: seq<Ability>, b: Boundary, group: string, model: string, a: Ability)
    requires UniqueKeys(table)
    requires a in table && EligibleRow(channels, b, group, model, a)
    ensures var pool := Pool(channels, table, b, group, model);
            a.channelId in pool && pool[a.channelId] == a.priority
  {
    var pool := Pool(channels, table, b, group, model);
    var c := a.channelId;
    var other :| other in table && other.channelId == c && EligibleRow(channels, b, group, model, other)
        && pool[c] == other.priority;
    var i :| 0 <= i < |table| && table[i] == a;
    var j :| 0 <= j < |table| && table[j] == other;
    assert SameKey(table[i], table[j]) && SameKey(table[j], table[i]);
    assert i == j;
  }

  /** In terms of the pool: the rows of the reference level are those of the best channels outside the
      exclusion list. */
  lemma BestLevelIsBestIn(channels: Channels, table: seq<Ability>, q: Request, a: Ability)
    requires UniqueKeys(table) && a in table && Joined(channels, a, q.group, q.model)
    ensures a in BestLevel(channels, q, table)
       <==> BestIn(Pool(channels, table, q.boundary, q.group, q.model), q.exclude, a.channelId)
  {
    var pool := Pool(channels, table, q.boundary, q.group, q.model);
    KeepMembers(table, BestOf(channels, q, table));
    forall b | b in table && EligibleRow(channels, q.boundary, q.group, q.model, b)
      ensures b.channelId in pool && pool[b.channelId] == b.priority
    {
      RowInPool(channels, table, q.boundary, q.group, q.model, b);
    }
    if BestIn(pool, q.exclude, a.channelId) {
      var b :| b in table && b.channelId == a.channelId && EligibleRow(channels, q.boundary, q.group, q.model, b);
      assert Candidate(channels, q, a);
    }
    if a in BestLevel(channels, q, table) {
      forall d | d in pool && d !in q.exclude ensures pool[d] <= pool[a.channelId] {
        var b :| b in table && b.channelId == d && EligibleRow(channels, q.boundary, q.group, q.model, b);
        assert Candidate(channels, q, b);
      }
    }
  }

  /** Selection with no skip and no response id errs exactly when every channel of the pool is
      excluded, and otherwise returns a best channel of the pool outside the exclusion list. */
  lemma SelectionMeetsSpec(channels: Channels, table: seq<Ability>, q: Request, roll: nat, r: Selected)
    requires UniqueKeys(table)
    requires WeightedPick(channels, BestLevel(channels, q, table), roll, r)
    ensures var pool := Pool(channels, table, q.boundary, q.group, q.model);
            && (r.NoChannel? <==> Exhausted(pool, q.exclude))
            && (r.Selected? ==> BestIn(pool, q.exclude, r.channel) && r.keyIndex == -1)
  {
    var pool := Pool(channels, table, q.boundary, q.group, q.model);
    var best := BestLevel(channels, q, table);
    KeepMembers(table, BestOf(channels, q, table));
    if best != [] {
      var i: nat :| i < |best| && r == Selected(best[i].channelId, -1);
      assert best[i] in best;
      BestLevelIsBestIn(channels, table, q, best[i]);
    }
    if d :| d in pool && d !in q.exclude {
      var top := TopOf(pool, q.exclude, d);
      var a :| a in table && a.channelId == top && EligibleRow(channels, q.boundary, q.group, q.model, a);
      BestLevelIsBestIn(channels, table, q, a);
      assert a in best;
    }
  }

  /** Among the channels outside the exclusion list one has the highest priority. */
  lemma {:induction false} TopOf(pool: map<int, int>, exclude: seq<int>, d: int) returns (top: int)
    requires d in pool && d !in exclude
    ensures BestIn(pool, exclude, top)
    decreases pool.Keys - set x | x in pool && pool[x] <= pool[d]
  {
    if e :| e in pool && e !in exclude && pool[e] > pool[d] {
      assert e in pool.Keys - (set x | x in pool && pool[x] <= pool[d]);
      assert e !in pool.Keys - (set x | x in pool && pool[x] <= pool[e]);
      top := TopOf(pool, exclude, e);
    } else {
      top := d;
    }
  }

  /** Every best channel is chosen by some draw: the selection leaves none of them out. */
  lemma EveryBestCanBePicked(channels: Channels, table: seq<Ability>, q: Request, c: int)
    requires UniqueKeys(table)
    requires BestIn(Pool(channels, table, q.boundary, q.group, q.model), q.exclude, c)
    ensures exists roll: nat :: WeightedPick(channels, BestLevel(channels, q, table), roll, Selected(c, -1))
  {
    var best := BestLevel(channels, q, table);
    var a :| a in table && a.channelId == c && EligibleRow(channels, q.boundary, q.group, q.model, a);
    BestLevelIsBestIn(channels, table, q, a);
    var i: nat :| i < |best| && best[i] == a;
    var roll := DrawFor(WeightsOf(channels, best), i);
    assert WeightedPick(channels, best, roll, Selected(c, -1));
  }
}
