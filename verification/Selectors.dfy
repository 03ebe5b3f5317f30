/** The other two selectors: the plain one (model/ability.go) and the one with a capability filter
    (model/cache.go). On a sound table they make the same weighted pick as the cached selection. */
module Selectors {
  import opened Text
  import opened Gateway
  import opened Sequences
  import opened Selection
  import opened Abilities

  const NO_BOUNDARY := Boundary("", 0)

  // ---------- the plain selector ----------

  predicate Matches(a: Ability, group: string, model: string) {
    a.group == group && a.model == model && a.enabled
  }

  /** The joined rows at MAX(priority): the subquery looks at abilities only, and neither at the status of
      a channel nor at whether there is one. */
  predicate AtTop(channels: Channels, table: seq<Ability>, group: string, model: string, a: Ability) {
    && Matches(a, group, model) && a.channelId in channels
    && forall b :: b in table && Matches(b, group, model) ==> b.priority <= a.priority
  }

  function TopOfTable(channels: Channels, table: seq<Ability>, group: string, model: string): Ability -> bool {
    a => AtTop(channels, table, group, model, a)
  }

  function TopRows(channels: Channels, table: seq<Ability>, group: string, model: string): seq<Ability> {
    Keep(table, TopOfTable(channels, table, group, model))
  }

  method GetRandomSatisfiedChannel(channels: Channels, table: seq<Ability>, group: string, model: string, roll: nat)
    returns (r: Selected)
    ensures WeightedPick(channels, TopRows(channels, table, group, model), roll, r)
  {
    var rows := TopRows(channels, table, group, model);
    KeepMembers(table, TopOfTable(channels, table, group, model));
    ghost var weights := WeightsOf(channels, rows);
    var totalWeight := 0;
    for i := 0 to |rows|
      invariant totalWeight == Total(weights[..i])
    {
      assert rows[i] in rows;
      WeightOfRow(channels, rows, i);
      TotalStep(weights, i);
      var weight := channels[rows[i].channelId].weight;
      if weight <= 0 {
        weight := 1;
      }
      totalWeight := totalWeight + weight;
    }
    assert weights[..|rows|] == weights;
    if totalWeight == 0 || |rows| == 0 {
      NoWeightNoRows(weights);
      return NoChannel;
    }
    var weightThreshold := roll % totalWeight + 1;
    var currentWeight := 0;
    for i := 0 to |rows|
      invariant currentWeight == Total(weights[..i]) < weightThreshold
    {
      assert rows[i] in rows;
      WeightOfRow(channels, rows, i);
      TotalStep(weights, i);
      var weight := channels[rows[i].channelId].weight;
      if weight <= 0 {
        weight := 1;
      }
      currentWeight := currentWeight + weight;
      if currentWeight >= weightThreshold {
        assert PickedBy(weights, weightThreshold, i);
        return Selected(rows[i].channelId, -1);
      }
    }
    assert false;
  }

  lemma NoWeightNoRows(weights: seq<nat>)
    requires Total(weights) == 0 || weights == []
    ensures weights == []
  {
    if weights != [] {
      TotalPositive(weights);
    }
  }

  function Plain(group: string, model: string): Request {
    Request(group, model, NO_BOUNDARY, [])
  }

  /** An enabled row left behind by a channel that is gone, above every channel that could serve. */
  ghost predicate OrphanOnTop(db: Database, group: string, model: string) {
    exists o, a ::
      && o in db.abilities && Matches(o, group, model) && o.channelId !in db.channels
      && a in BestLevel(db.channels, Plain(group, model), db.abilities) && o.priority > a.priority
  }

  lemma PlainCandidates(db: Database, group: string, model: string, a: Ability)
    requires Consistent(db) && a in db.abilities
    ensures Candidate(db.channels, Plain(group, model), a) <==> Matches(a, group, model) && a.channelId in db.channels
  {
    if a.channelId in db.channels && Matches(a, group, model) {
      AbilityIffListed(db, group, model, a.channelId);
    }
  }

  /** On a consistent table the plain selector draws from the same rows as the cached selection without
      exclusions and boundary, unless and only unless an orphan row is on top. */
  lemma PlainSelectorAgreesIff(db: Database, group: string, model: string)
    requires Consistent(db)
    ensures TopRows(db.channels, db.abilities, group, model)
            == BestLevel(db.channels, Plain(group, model), db.abilities)
       <==> !OrphanOnTop(db, group, model)
  {
    var q, table := Plain(group, model), db.abilities;
    var top, best := TopOfTable(db.channels, table, group, model), BestOf(db.channels, q, table);
    KeepMembers(table, top);
    KeepMembers(table, best);
    forall a | a in table
      ensures Candidate(db.channels, q, a) <==> Matches(a, group, model) && a.channelId in db.channels {
      PlainCandidates(db, group, model, a);
    }
    if OrphanOnTop(db, group, model) {
      var o, a :| o in table && Matches(o, group, model) && o.channelId !in db.channels
                  && a in BestLevel(db.channels, q, table) && o.priority > a.priority;
      assert !top(a);
    } else {
      forall a | a in table ensures top(a) == best(a) {
        if best(a) {
          assert a in BestLevel(db.channels, q, table);
        }
      }
      KeepSame(table, top, best);
    }
  }

  predicate IsDisabled(ch: Channel) {
    ch.status == AUTO_DISABLED || ch.status == MANUALLY_DISABLED
  }

  /** DeleteDisabledChannel, which leaves the rows of the deleted channels behind, and after it
      UpdateChannelStatusById with the id of one of them. */
  function DeletedThenEnabled(db: Database, c: int): Database {
    Database(map d | d in db.channels && !IsDisabled(db.channels[d]) :: db.channels[d],
             SetEnabled(db.abilities, {c}, true))
  }

  lemma {:induction false} SetEnabledRows(rows: seq<Ability>, c: int)
    ensures forall o :: o in SetEnabled(rows, {c}, true)
                   <==> exists a :: a in rows && o == if a.channelId == c then a.(enabled := true) else a
  {
    if rows != [] {
      SetEnabledRows(rows[1..], c);
    }
  }

  lemma DeletedThenEnabledIsConsistent(db: Database, c: int)
    requires Consistent(db) && c in db.channels && IsDisabled(db.channels[c])
    ensures Consistent(DeletedThenEnabled(db, c))
  {
    var mid := Database(DeletedThenEnabled(db, c).channels, db.abilities);
    StatusKeepsConsistent(mid, {c}, ENABLED);
    assert WithStatus(mid.channels, {c}, ENABLED) == mid.channels;
  }

  /** The rows of the other channels are as before, and so are the best of them. */
  lemma BestSurvives(db: Database, c: int, group: string, model: string, a: Ability)
    requires Consistent(db) && c in db.channels && IsDisabled(db.channels[c])
    requires a in BestLevel(db.channels, Plain(group, model), db.abilities)
    ensures var after := DeletedThenEnabled(db, c); a in BestLevel(after.channels, Plain(group, model), after.abilities)
  {
    var q, after := Plain(group, model), DeletedThenEnabled(db, c);
    KeepMembers(db.abilities, BestOf(db.channels, q, db.abilities));
    KeepMembers(after.abilities, BestOf(after.channels, q, after.abilities));
    SameCandidates(db, c, group, model, a);
    forall b | b in after.abilities && Candidate(after.channels, q, b) ensures b.priority <= a.priority {
      SameCandidates(db, c, group, model, b);
    }
  }

  lemma SameCandidates(db: Database, c: int, group: string, model: string, b: Ability)
    requires c in db.channels && IsDisabled(db.channels[c])
    ensures (var after := DeletedThenEnabled(db, c);
             b in after.abilities && Candidate(after.channels, Plain(group, model), b))
       <==> b in db.abilities && Candidate(db.channels, Plain(group, model), b)
  {
    SetEnabledRows(db.abilities, c);
  }

  /** From any consistent state with a disabled channel above the enabled ones of a group and model, these two
      calls lead to a consistent state with an orphan on top: the plain selector finds nothing, although the
      cached selection still does. */
  lemma OrphanRises(db: Database, c: int, group: string, model: string, a: Ability)
    requires Consistent(db) && c in db.channels && IsDisabled(db.channels[c])
    requires group in GroupsOf(db.channels[c]) && model in ModelsOf(db.channels[c])
    requires a in BestLevel(db.channels, Plain(group, model), db.abilities) && a.priority < db.channels[c].priority
    ensures var after := DeletedThenEnabled(db, c);
            && Consistent(after) && OrphanOnTop(after, group, model)
            && TopRows(after.channels, after.abilities, group, model) == []
            && BestLevel(after.channels, Plain(group, model), after.abilities) != []
  {
    var ch, after := db.channels[c], DeletedThenEnabled(db, c);
    var row := RowFor(ch, group, model);
    DeletedThenEnabledIsConsistent(db, c);
    BestSurvives(db, c, group, model, a);
    RowsForMembers(ch, ModelsOf(ch), GroupsOf(ch));
    KeepMembers(db.abilities, OfChannel(c));
    assert row in Keep(db.abilities, OfChannel(c));
    SetEnabledRows(db.abilities, c);
    var o := row.(enabled := true);
    assert o in after.abilities && Matches(o, group, model) && o.channelId !in after.channels;
    NothingAtTop(after, group, model, o, a);
  }

  lemma NothingAtTop(db: Database, group: string, model: string, o: Ability, a: Ability)
    requires Consistent(db) && o in db.abilities && Matches(o, group, model)
    requires a in BestLevel(db.channels, Plain(group, model), db.abilities) && o.priority > a.priority
    ensures TopRows(db.channels, db.abilities, group, model) == []
  {
    var q := Plain(group, model);
    KeepMembers(db.abilities, BestOf(db.channels, q, db.abilities));
    forall t | t in db.abilities ensures !AtTop(db.channels, db.abilities, group, model, t) {
      PlainCandidates(db, group, model, t);
    }
    KeepNone(db.abilities, TopOfTable(db.channels, db.abilities, group, model));
  }

  function TwoChannels(low: Channel, high: Channel): Database {
    Database(map[low.id := low, high.id := high], [RowFor(low, "g", "m"), RowFor(high, "g", "m")])
  }

  lemma TwoChannelsAreConsistent(low: Channel, high: Channel)
    requires low.id != high.id
    requires GroupsOf(low) == ["g"] == GroupsOf(high) && ModelsOf(low) == ["m"] == ModelsOf(high)
    ensures Consistent(TwoChannels(low, high))
  {
    var db := TwoChannels(low, high);
    TwoKeys(RowFor(low, "g", "m"), RowFor(high, "g", "m"));
    forall c | c in db.channels
      ensures DistinctNames(db.channels[c]) && Keep(db.abilities, OfChannel(c)) == RowsOf(db.channels[c])
    {
      OneRow(db.channels[c]);
      OwnRows(RowFor(low, "g", "m"), RowFor(high, "g", "m"));
    }
  }

  lemma TwoKeys(a: Ability, o: Ability)
    requires a.channelId != o.channelId
    ensures UniqueKeys([a, o])
  {
  }

  lemma OwnRows(a: Ability, o: Ability)
    requires a.channelId != o.channelId
    ensures Keep([a, o], OfChannel(a.channelId)) == [a] && Keep([a, o], OfChannel(o.channelId)) == [o]
  {
    KeepOfTwo(a, o, OfChannel(a.channelId));
    KeepOfTwo(a, o, OfChannel(o.channelId));
  }

  lemma KeepOfTwo(a: Ability, b: Ability, p: Ability -> bool)
    ensures Keep([a, b], p) == if p(a) && p(b) then [a, b] else if p(a) then [a] else if p(b) then [b] else []
  {
    var rows := [a, b];
    assert rows[1..] == [b];
    KeepOfOne(b, p);
    assert [] + [b] == [b] && [a] + [] == [a] && [a] + [b] == [a, b];
  }

  lemma KeepOfOne(a: Ability, p: Ability -> bool)
    ensures Keep([a], p) == if p(a) then [a] else []
  {
    assert [a][1..] == [];
  }

  lemma LowIsBest(low: Channel, high: Channel)
    requires low.id != high.id && low.status == ENABLED && high.status != ENABLED
    ensures var db := TwoChannels(low, high);
            RowFor(low, "g", "m") in BestLevel(db.channels, Plain("g", "m"), db.abilities)
  {
    var db := TwoChannels(low, high);
    assert BestOf(db.channels, Plain("g", "m"), db.abilities)(RowFor(low, "g", "m"));
    KeepMembers(db.abilities, BestOf(db.channels, Plain("g", "m"), db.abilities));
    assert db.abilities[0] in db.abilities;
  }

  /** Two channels of one group and model, the higher one disabled. */
  lemma OrphanExample()
    ensures var low := Channel(1, ENABLED, "g", "m", 0, 0, "", true, false);
            var high := Channel(2, MANUALLY_DISABLED, "g", "m", 0, 5, "", true, false);
            Consistent(TwoChannels(low, high)) && OrphanOnTop(DeletedThenEnabled(TwoChannels(low, high), 2), "g", "m")
  {
    var low := Channel(1, ENABLED, "g", "m", 0, 0, "", true, false);
    var high := Channel(2, MANUALLY_DISABLED, "g", "m", 0, 5, "", true, false);
    OneName("g");
    OneName("m");
    TwoChannelsAreConsistent(low, high);
    LowIsBest(low, high);
    OrphanRises(TwoChannels(low, high), 2, "g", "m", RowFor(low, "g", "m"));
  }

  lemma OneName(name: string)
    requires Clean(name) && ',' !in name
    ensures Names(name, ',') == [name]
  {
    NamesOfJoin([name], ',');
  }

  lemma OneRow(ch: Channel)
    requires GroupsOf(ch) == ["g"] && ModelsOf(ch) == ["m"]
    ensures RowsOf(ch) == [RowFor(ch, "g", "m")] && DistinctNames(ch)
  {
    var groups, models := GroupsOf(ch), ModelsOf(ch);
    assert groups[..|groups| - 1] == [] && models[..|models| - 1] == [];
    assert RowsForModel(ch, "m", []) == [] && RowsFor(ch, [], groups) == [];
    assert RowsForModel(ch, "m", groups) == [RowFor(ch, "g", "m")];
  }

  /** The three copies of the weight loop agree: from the same rows and the same draw they pick the same channel. */
  lemma CopiesAgree(channels: Channels, rows: seq<Ability>, roll: nat, r: Selected, other: Selected)
    requires WeightedPick(channels, rows, roll, r) && WeightedPick(channels, rows, roll, other)
    ensures r == other
  {
    if rows != [] {
      var weights := WeightsOf(channels, rows);
      var threshold := roll % Total(weights) + 1;
      var i: nat :| PickedBy(weights, threshold, i) && r == Selected(rows[i].channelId, -1);
      var j: nat :| PickedBy(weights, threshold, j) && other == Selected(rows[j].channelId, -1);
      PickIsUnique(weights, threshold, i, j);
    }
  }

  // ---------- the selector with a capability filter ----------

  /** The filter on a channel whose configuration loads; one that does not load is not capable. */
  type Capability = Channel -> bool

  function Capable(channels: Channels, capability: Capability): Ability -> bool {
    (a: Ability) => a.channelId in channels && capability(channels[a.channelId])
  }

  /** The best capable rows that a selection skipping `skip` priority levels can reach. */
  function BestCapable(channels: Channels, q: Request, table: seq<Ability>, capability: Capability,
                       skip: nat): seq<Ability> {
    var levels := SortedPriorities(channels, q.group, q.model, table);
    var capable := Keep(table, Capable(channels, capability));
    if levels == [] then []
    else BestLevel(channels, q, Keep(capable, NotAbove(levels[StartLevel(levels, skip)])))
  }

  /** CacheGetRandomSatisfiedChannelWithCapability. */
  method SelectWithCapability(channels: Channels, table: seq<Ability>, group: string, model: string, exclude: seq<int>,
                              capability: Capability, skip: nat, roll: nat)
    returns (r: Selected)
    ensures WeightedPick(channels, BestCapable(channels, Request(group, model, NO_BOUNDARY, exclude), table, capability,
                                               skip), roll, r)
  {
    var q := Request(group, model, NO_BOUNDARY, exclude);
    var levels := SortedPriorities(channels, group, model, table);
    if |levels| == 0 {
      return NoChannel;
    }
    var index := StartLevel(levels, skip);
    for idx := index to |levels|
      invariant NoneBetween(channels, q, Keep(table, Capable(channels, capability)), levels, index, idx)
    {
      var filtered := Keep(QueryLevel(channels, q, levels[idx], table), Capable(channels, capability));
      CapableLevel(channels, q, levels[idx], table, capability);
      if |filtered| == 0 {
        SkipLevel(channels, q, Keep(table, Capable(channels, capability)), levels, index, idx);
        continue;
      }
      CapableScanFindsBest(channels, q, table, levels, capability, skip, idx);
      KeepMembers(QueryLevel(channels, q, levels[idx], table), Capable(channels, capability));
      r := PickCapable(channels, filtered, roll);
      return;
    }
    CapableScanFindsBest(channels, q, table, levels, capability, skip, |levels|);
    r := NoChannel;
  }

  /** The first loop: the total of the weights, each at least one. */
  method TotalOfCapable(channels: Channels, filtered: seq<Ability>) returns (totalWeight: nat)
    requires filtered != [] && forall a :: a in filtered ==> a.channelId in channels
    ensures totalWeight == Total(WeightsOf(channels, filtered)) > 0
  {
    ghost var weights := WeightsOf(channels, filtered);
    totalWeight := 0;
    for i := 0 to |filtered|
      invariant totalWeight == Total(weights[..i])
    {
      WeightOfRow(channels, filtered, i);
      TotalStep(weights, i);
      var weight := channels[filtered[i].channelId].weight;
      if weight <= 0 {
        weight := 1;
      }
      totalWeight := totalWeight + weight;
    }
    assert weights[..|filtered|] == weights;
    TotalPositive(weights);
  }

  /** The third copy of the weight loop. */
  method PickCapable(channels: Channels, filtered: seq<Ability>, roll: nat) returns (r: Selected)
    requires filtered != [] && forall a :: a in filtered ==> a.channelId in channels
    ensures WeightedPick(channels, filtered, roll, r)
  {
    ghost var weights := WeightsOf(channels, filtered);
    var totalWeight := TotalOfCapable(channels, filtered);
    assert weights[..|filtered|] == weights;
    var weightThreshold := roll % totalWeight + 1;
    var currentWeight := 0;
    for i := 0 to |filtered|
      invariant currentWeight == Total(weights[..i]) < weightThreshold
    {
      WeightOfRow(channels, filtered, i);
      TotalStep(weights, i);
      var weight := channels[filtered[i].channelId].weight;
      if weight <= 0 {
        weight := 1;
      }
      currentWeight := currentWeight + weight;
      if currentWeight >= weightThreshold {
        assert PickedBy(weights, weightThreshold, i);
        return Selected(filtered[i].channelId, -1);
      }
    }
    assert false;
  }

  lemma SkipLevel(channels: Channels, q: Request, sub: seq<Ability>, levels: seq<int>, from: nat, idx: nat)
    requires idx < |levels| && NoneBetween(channels, q, sub, levels, from, idx)
    requires Keep(sub, CandidateAt(channels, q, levels[idx])) == []
    ensures NoneBetween(channels, q, sub, levels, from, idx + 1)
  {
    KeepMembers(sub, CandidateAt(channels, q, levels[idx]));
  }

  /** The capable rows of a level are the capable candidates of its priority. */
  lemma CapableLevel(channels: Channels, q: Request, priority: int, table: seq<Ability>, capability: Capability)
    requires q.boundary == NO_BOUNDARY
    ensures Keep(QueryLevel(channels, q, priority, table), Capable(channels, capability))
         == Keep(Keep(table, Capable(channels, capability)), CandidateAt(channels, q, priority))
  {
    var both: Ability -> bool := a => Candidate(channels, q, a) && a.priority == priority
        && Capable(channels, capability)(a);
    KeepTwice(table, InLevel(channels, q, priority), Capable(channels, capability), both);
    KeepTwice(table, Capable(channels, capability), CandidateAt(channels, q, priority), both);
  }

  /** The scan stops at the best candidates of a table whose candidates all have one of the levels. */
  lemma ScanStops(channels: Channels, q: Request, sub: seq<Ability>, levels: seq<int>, from: nat, at: nat)
    requires StrictlyDown(levels) && from < |levels| && from <= at <= |levels|
    requires forall a :: a in sub && Candidate(channels, q, a) ==> a.priority in levels
    requires NoneBetween(channels, q, sub, levels, from, at)
    requires at < |levels| ==> Keep(sub, CandidateAt(channels, q, levels[at])) != []
    ensures BestLevel(channels, q, Keep(sub, NotAbove(levels[from])))
         == if at < |levels| then Keep(sub, CandidateAt(channels, q, levels[at])) else []
  {
    var ceiling := levels[from];
    forall a | a in sub && a.priority <= ceiling && Candidate(channels, q, a)
      ensures at < |levels| && a.priority <= levels[at]
    {
      var k :| 0 <= k < |levels| && levels[k] == a.priority;
    }
    if at < |levels| {
      KeepMembers(sub, CandidateAt(channels, q, levels[at]));
      var level := Keep(sub, CandidateAt(channels, q, levels[at]));
      assert level[0] in level;
      BestIsOnePriority(channels, q, sub, levels[at], ceiling);
    } else {
      var reach := Keep(sub, NotAbove(ceiling));
      KeepMembers(sub, NotAbove(ceiling));
      KeepNone(reach, BestOf(channels, q, reach));
    }
  }

  lemma CapableScanFindsBest(channels: Channels, q: Request, table: seq<Ability>, levels: seq<int>,
                             capability: Capability, skip: nat, at: nat)
    requires q.boundary == NO_BOUNDARY && levels == SortedPriorities(channels, q.group, q.model, table) != []
    requires StartLevel(levels, skip) <= at <= |levels|
    requires NoneBetween(channels, q, Keep(table, Capable(channels, capability)), levels, StartLevel(levels, skip), at)
    requires at < |levels| ==> Keep(QueryLevel(channels, q, levels[at], table), Capable(channels, capability)) != []
    ensures BestCapable(channels, q, table, capability, skip)
         == if at < |levels| then Keep(QueryLevel(channels, q, levels[at], table), Capable(channels, capability))
             else []
  {
    KeepMembers(table, Capable(channels, capability));
    PrioritiesOfRows(channels, q.group, q.model, table);
    if at < |levels| {
      CapableLevel(channels, q, levels[at], table, capability);
    }
    ScanStops(channels, q, Keep(table, Capable(channels, capability)), levels, StartLevel(levels, skip), at);
  }

  /** The best rows of a table are those of any part of it that holds all candidates. */
  lemma BestOfPart(channels: Channels, q: Request, table: seq<Ability>, p: Ability -> bool)
    requires forall a :: a in table && Candidate(channels, q, a) ==> p(a)
    ensures BestLevel(channels, q, Keep(table, p)) == BestLevel(channels, q, table)
  {
    KeepMembers(table, p);
    KeepTwice(table, p, BestOf(channels, q, Keep(table, p)), BestOf(channels, q, table));
  }

  /** With every channel capable, the filter changes nothing. */
  lemma AllCapableIsPlain(channels: Channels, q: Request, table: seq<Ability>, capability: Capability)
    requires q.boundary == NO_BOUNDARY && forall c :: c in channels ==> capability(channels[c])
    ensures BestCapable(channels, q, table, capability, 0) == BestLevel(channels, q, table)
  {
    var levels := SortedPriorities(channels, q.group, q.model, table);
    if levels == [] {
      NoLevelNoCandidate(channels, q, table);
    } else {
      var capable := Keep(table, Capable(channels, capability));
      PrioritiesOfRows(channels, q.group, q.model, table);
      KeepMembers(table, Capable(channels, capability));
      BestOfPart(channels, q, table, Capable(channels, capability));
      BestOfPart(channels, q, capable, NotAbove(levels[0]));
    }
  }
}
