/** The operations on channels and abilities, and the index rebuilt from them
    (model/ability.go, model/channel.go, model/cache.go). */
module ChannelTables {
  import opened Text
  import opened Sequences
  import opened Gateway
  import opened Selection
  import opened Abilities

  /** Group and model to the channels that serve them (group2model2channels). */
  type Routes = map<(string, string), seq<int>>

  function Lookup(routes: Routes, group: string, model: string): seq<int> {
    if (group, model) in routes then routes[(group, model)] else []
  }

  predicate Serves(ch: Channel, group: string, model: string) {
    ch.status == ENABLED && group in GroupsOf(ch) && model in ModelsOf(ch)
  }

  ghost predicate PrioritiesDown(channels: Channels, ids: seq<int>) {
    && (forall c :: c in ids ==> c in channels)
    && forall i, j :: 0 <= i < j < |ids| ==> channels[ids[i]].priority >= channels[ids[j]].priority
  }

  /** The index lists, for every group and model, exactly the enabled channels that name both, each
      once, by descending priority. */
  ghost predicate RoutesOk(routes: Routes, channels: Channels) {
    forall group, model ::
      var ids := Lookup(routes, group, model);
      && (forall c :: c in ids <==> c in channels && Serves(channels[c], group, model))
      && NoDuplicates(ids)
      && PrioritiesDown(channels, ids)
  }

  // ---------- building the index ----------

  /** One channel is appended to the routes of these groups and models, and to no other. */
  ghost predicate Routed(after: Routes, before: Routes, id: int, groups: seq<string>, models: seq<string>) {
    forall g, m :: Lookup(after, g, m) == Lookup(before, g, m) + if g in groups && m in models then [id] else []
  }

  method AddRoutesOfGroup(routes: Routes, ch: Channel, group: string) returns (r: Routes)
    requires NoDuplicates(ModelsOf(ch))
    ensures Routed(r, routes, ch.id, [group], ModelsOf(ch))
  {
    r := routes;
    var pieces := Split(ch.models, ',');
    for j := 0 to |pieces|
      invariant Routed(r, routes, ch.id, [group], TrimmedPieces(pieces[..j]))
    {
      TrimmedPiecesStep(pieces, j);
      var model := TrimSpace(pieces[j]);
      if model == "" {
        continue;
      }
      FreshInPrefix(TrimmedPieces(pieces[..j]), model, ModelsOf(ch));
      OneRouteMore(routes, r, group, TrimmedPieces(pieces[..j]), model, ch.id);
      r := r[(group, model) := Lookup(r, group, model) + [ch.id]];
    }
    assert pieces[..|pieces|] == pieces;
  }

  lemma OneRouteMore(routes: Routes, r: Routes, group: string, before: seq<string>, model: string, id: int)
    requires Routed(r, routes, id, [group], before) && model !in before
    ensures Routed(r[(group, model) := Lookup(r, group, model) + [id]], routes, id, [group], before + [model])
  {
  }

  lemma OneGroupOfRoutesMore(routes: Routes, r: Routes, next: Routes, id: int, groups: seq<string>, group: string,
                             models: seq<string>)
    requires Routed(r, routes, id, groups, models) && Routed(next, r, id, [group], models) && group !in groups
    ensures Routed(next, routes, id, groups + [group], models)
  {
    forall g, m
      ensures Lookup(next, g, m) == Lookup(routes, g, m) + if g in groups + [group] && m in models then [id] else []
    {
      assert Lookup(next, g, m) == Lookup(r, g, m) + if g in [group] && m in models then [id] else [];
      assert Lookup(r, g, m) == Lookup(routes, g, m) + if g in groups && m in models then [id] else [];
    }
  }

  lemma FreshInPrefix(before: seq<string>, name: string, all: seq<string>)
    requires before + [name] <= all && NoDuplicates(all)
    ensures name !in before
  {
    forall k | 0 <= k < |before| ensures before[k] != name {
      assert all[k] == before[k] && all[|before|] == name;
    }
  }

  method AddRoutes(routes: Routes, ch: Channel) returns (r: Routes)
    requires DistinctNames(ch)
    ensures Routed(r, routes, ch.id, GroupsOf(ch), ModelsOf(ch))
  {
    r := routes;
    var pieces := Split(ch.groups, ',');
    for i := 0 to |pieces|
      invariant Routed(r, routes, ch.id, TrimmedPieces(pieces[..i]), ModelsOf(ch))
    {
      TrimmedPiecesStep(pieces, i);
      var group := TrimSpace(pieces[i]);
      if group == "" {
        continue;
      }
      FreshInPrefix(TrimmedPieces(pieces[..i]), group, GroupsOf(ch));
      ghost var before := r;
      r := AddRoutesOfGroup(r, ch, group);
      OneGroupOfRoutesMore(routes, before, r, ch.id, TrimmedPieces(pieces[..i]), group, ModelsOf(ch));
    }
    assert pieces[..|pieces|] == pieces;
  }

  function InsertDown(channels: Channels, c: int, ids: seq<int>): seq<int>
    requires c in channels && forall d :: d in ids ==> d in channels
  {
    if ids == [] then [c]
    else
      var first := ids[0];
      assert first in ids;
      if channels[c].priority >= channels[first].priority then [c] + ids
      else [first] + InsertDown(channels, c, ids[1..])
  }

  /** sort.Slice with the comparison "higher priority first". */
  function SortDown(channels: Channels, ids: seq<int>): (r: seq<int>)
    requires forall d :: d in ids ==> d in channels
    ensures forall d :: d in r <==> d in ids
  {
    if ids == [] then [] else
      var rest := SortDown(channels, ids[1..]);
      InsertDownMembers(channels, ids[0], rest);
      InsertDown(channels, ids[0], rest)
  }

  lemma {:induction false} InsertDownMembers(channels: Channels, c: int, ids: seq<int>)
    requires c in channels && forall d :: d in ids ==> d in channels
    ensures forall d :: d in InsertDown(channels, c, ids) <==> d == c || d in ids
  {
    if ids != [] {
      assert ids[0] in ids;
      InsertDownMembers(channels, c, ids[1..]);
    }
  }

  lemma {:induction false} InsertDownSorts(channels: Channels, c: int, ids: seq<int>)
    requires c in channels && PrioritiesDown(channels, ids) && NoDuplicates(ids) && c !in ids
    ensures PrioritiesDown(channels, InsertDown(channels, c, ids)) && NoDuplicates(InsertDown(channels, c, ids))
  {
    InsertDownMembers(channels, c, ids);
    if ids != [] && channels[c].priority < channels[ids[0]].priority {
      var first, rest := ids[0], ids[1..];
      assert ids == [first] + rest;
      InsertDownMembers(channels, c, rest);
      InsertDownSorts(channels, c, rest);
      FirstIsHighest(channels, ids);
      FrontStaysDown(channels, first, InsertDown(channels, c, rest));
    }
  }

  lemma FirstIsHighest(channels: Channels, ids: seq<int>)
    requires ids != [] && PrioritiesDown(channels, ids) && NoDuplicates(ids) && forall d :: d in ids ==> d in channels
    ensures forall d :: d in ids[1..] ==> d != ids[0] && channels[ids[0]].priority >= channels[d].priority
  {
    forall d | d in ids[1..] ensures d != ids[0] && channels[ids[0]].priority >= channels[d].priority {
      var i :| 0 <= i < |ids[1..]| && ids[1..][i] == d;
      assert ids[i + 1] == d;
    }
  }

  lemma FrontStaysDown(channels: Channels, first: int, tail: seq<int>)
    requires first in channels && PrioritiesDown(channels, tail) && NoDuplicates(tail)
    requires forall d :: d in tail ==> d in channels && d != first && channels[first].priority >= channels[d].priority
    ensures PrioritiesDown(channels, [first] + tail) && NoDuplicates([first] + tail)
  {
    forall k | 0 <= k < |tail| ensures tail[k] != first && channels[first].priority >= channels[tail[k]].priority {
      assert tail[k] in tail;
    }
  }

  lemma {:induction false} SortDownSorts(channels: Channels, ids: seq<int>)
    requires (forall d :: d in ids ==> d in channels) && NoDuplicates(ids)
    ensures PrioritiesDown(channels, SortDown(channels, ids)) && NoDuplicates(SortDown(channels, ids))
  {
    if ids != [] {
      SortDownSorts(channels, ids[1..]);
      InsertDownSorts(channels, ids[0], SortDown(channels, ids[1..]));
    }
  }

  /** These are the channels taken so far that serve the group and the model, each once. */
  ghost predicate Lists(channels: Channels, taken: set<int>, group: string, model: string, ids: seq<int>) {
    && (forall c :: c in ids <==> c in taken && c in channels && Serves(channels[c], group, model))
    && NoDuplicates(ids)
  }

  /** The lists before sorting. */
  ghost predicate Collected(routes: Routes, channels: Channels, taken: set<int>) {
    forall group, model :: Lists(channels, taken, group, model, Lookup(routes, group, model))
  }

  lemma OneModelMore(ch: Channel, models: seq<string>, model: string, groups: seq<string>)
    ensures RowsFor(ch, models + [model], groups) == RowsFor(ch, models, groups) + RowsForModel(ch, model, groups)
  {
    assert (models + [model])[..|models|] == models;
  }

  lemma OneGroupMore(ch: Channel, model: string, groups: seq<string>, group: string)
    ensures RowsForModel(ch, model, groups + [group]) == RowsForModel(ch, model, groups) + [RowFor(ch, group, model)]
  {
    assert (groups + [group])[..|groups|] == groups;
  }

  /** The loop over models and groups of AddAbilities. */
  method CollectRows(ch: Channel) returns (rows: seq<Ability>)
    ensures rows == RowsOf(ch)
  {
    var models := Split(ch.models, ',');
    rows := [];
    for i := 0 to |models|
      invariant rows == RowsFor(ch, TrimmedPieces(models[..i]), GroupsOf(ch))
    {
      TrimmedPiecesStep(models, i);
      var model := TrimSpace(models[i]);
      if model == "" {
        continue;
      }
      OneModelMore(ch, TrimmedPieces(models[..i]), model, GroupsOf(ch));
      var more := CollectRowsOfModel(ch, model);
      rows := rows + more;
    }
    assert models[..|models|] == models;
  }

  method CollectRowsOfModel(ch: Channel, model: string) returns (rows: seq<Ability>)
    ensures rows == RowsForModel(ch, model, GroupsOf(ch))
  {
    var groups := Split(ch.groups, ',');
    rows := [];
    for j := 0 to |groups|
      invariant rows == RowsForModel(ch, model, TrimmedPieces(groups[..j]))
    {
      TrimmedPiecesStep(groups, j);
      var group := TrimSpace(groups[j]);
      if group == "" {
        continue;
      }
      OneGroupMore(ch, model, TrimmedPieces(groups[..j]), group);
      rows := rows + [RowFor(ch, group, model)];
    }
    assert groups[..|groups|] == groups;
  }

  lemma StatusOfOne(channels: Channels, id: int, status: int)
    ensures WithStatus(channels, {id}, status)
         == if id in channels then channels[id := channels[id].(status := status)] else channels
    ensures id in channels && channels[id].status == status ==> WithStatus(channels, {id}, status) == channels
  {
  }

  /** Where the rows can have been cut off when a batch was refused. */
  function Batches(rows: seq<Ability>): set<int> {
    set n | 0 <= n < |rows| && n % 150 == 0
  }

  ghost predicate OtherChannels(others: seq<Ability>, rows: seq<Ability>) {
    UniqueKeys(others) && forall a, b :: a in others && b in rows ==> a.channelId != b.channelId
  }

  /** The loop over the batches. */
  method InsertInBatches(others: seq<Ability>, rows: seq<Ability>) returns (after: seq<Ability>, ok: bool)
    requires OtherChannels(others, rows)
    ensures ok <==> UniqueKeys(rows)
    ensures ok ==> after == others + rows
    ensures !ok ==> exists n :: n in Batches(rows) && after == others + rows[..n]
  {
    after := others;
    var i := 0;
    while i < |rows|
      invariant 0 <= i && i % 150 == 0
      invariant i <= |rows| ==> after == others + rows[..i] && UniqueKeys(rows[..i])
      invariant i > |rows| ==> after == others + rows && UniqueKeys(rows)
    {
      var end := if i + 150 > |rows| then |rows| else i + 150;
      BatchFits(others, rows, i, end);
      if !UniqueKeys(after + rows[i..end]) {
        assert i in Batches(rows);
        return after, false;
      }
      after := after + rows[i..end];
      i := i + 150;
      assert rows[..|rows|] == rows;
    }
    assert rows[..|rows|] == rows;
    ok := true;
  }

  /** A batch is accepted behind the earlier ones if and only if the rows up to its end do not repeat a key. */
  lemma BatchFits(others: seq<Ability>, rows: seq<Ability>, i: nat, end: nat)
    requires OtherChannels(others, rows) && i <= end <= |rows|
    ensures others + rows[..i] + rows[i..end] == others + rows[..end]
    ensures UniqueKeys(others + rows[..end]) <==> UniqueKeys(rows[..end])
    ensures UniqueKeys(rows) ==> UniqueKeys(rows[..end])
  {
    var front := rows[..end];
    assert rows[..i] + rows[i..end] == front && front + rows[end..] == rows;
    if UniqueKeys(rows) {
      UniquePrefix(front, rows[end..]);
    }
    if UniqueKeys(others + front) {
      UniquePrefix(others, front);
    }
    if UniqueKeys(front) {
      forall a | a in front ensures a in rows {
      }
      UniqueAppend(others, front);
    }
  }

  /** Replacing a channel together with its rows keeps the table consistent. */
  lemma ReplaceKeepsConsistent(db: Database, ch: Channel)
    requires Consistent(db) && DistinctNames(ch)
    ensures Consistent(Database(db.channels[ch.id := ch], Keep(db.abilities, NotOfChannel(ch.id)) + RowsOf(ch)))
  {
    var others := Keep(db.abilities, NotOfChannel(ch.id));
    DeleteKeepsConsistent(db, ch.id);
    InsertKeepsConsistent(Database(db.channels - {ch.id}, others), ch);
    SameReplacement(db.channels, ch);
  }

  lemma SameReplacement(channels: Channels, ch: Channel)
    ensures (channels - {ch.id})[ch.id := ch] == channels[ch.id := ch]
  {
  }

  lemma RemainingRows(db: Database, c: int)
    requires Consistent(db)
    ensures var others := Keep(db.abilities, NotOfChannel(c));
            UniqueKeys(others) && forall a :: a in others ==> a.channelId != c
  {
    UniqueAfterKeep(db.abilities, NotOfChannel(c));
    KeepMembers(db.abilities, NotOfChannel(c));
  }

  // ---------- the tables ----------

  class Tables {
    var channels: Channels
    var abilities: seq<Ability>
    var routes: Routes
    var byId: Channels

    constructor ()
      ensures Valid() && channels == map[] && abilities == []
    {
      channels, abilities, routes, byId := map[], [], map[], map[];
    }

    function Db(): Database
      reads this
    {
      Database(channels, abilities)
    }

    ghost predicate Valid()
      reads this
    {
      Consistent(Db())
    }

    /** AddAbilities: the collected rows are inserted in batches of 150; the database refuses a batch that would
        repeat a key, and the batches before it stay. */
    method AddAbilities(ch: Channel) returns (ok: bool)
      requires UniqueKeys(abilities) && forall a :: a in abilities ==> a.channelId != ch.id
      modifies this`abilities
      ensures ok <==> RowsOf(ch) == [] || DistinctNames(ch)
      ensures ok ==> abilities == old(abilities) + RowsOf(ch)
      ensures !ok ==> exists n :: n in Batches(RowsOf(ch)) && abilities == old(abilities) + RowsOf(ch)[..n]
    {
      var rows := CollectRows(ch);
      RowsFitIff(ch);
      RowsForMembers(ch, ModelsOf(ch), GroupsOf(ch));
      abilities, ok := InsertInBatches(abilities, rows);
    }

    method DeleteAbilities(c: int)
      modifies this`abilities
      ensures abilities == Keep(old(abilities), NotOfChannel(c))
    {
      abilities := Keep(abilities, NotOfChannel(c));
    }

    /** Insert: the id is new, as the database assigns it. When its lists name something twice the channel is
        there with a part of its rows, or with none. */
    method Insert(ch: Channel) returns (ok: bool)
      requires Valid() && ch.id !in channels
      requires forall a :: a in abilities ==> a.channelId != ch.id
      modifies this`channels, this`abilities
      ensures channels == old(channels)[ch.id := ch]
      ensures ok <==> RowsOf(ch) == [] || DistinctNames(ch)
      ensures DistinctNames(ch) ==> Valid()
      ensures ok ==> abilities == old(abilities) + RowsOf(ch)
      ensures !ok ==> exists n :: n in Batches(RowsOf(ch)) && abilities == old(abilities) + RowsOf(ch)[..n]
    {
      if DistinctNames(ch) {
        InsertKeepsConsistent(Db(), ch);
      }
      channels := channels[ch.id := ch];
      ok := AddAbilities(ch);
    }

    /** Update: the row is rewritten, then its abilities are deleted and added again. */
    method Update(ch: Channel) returns (ok: bool)
      requires Valid() && ch.id in channels
      modifies this`channels, this`abilities
      ensures channels == old(channels)[ch.id := ch]
      ensures ok <==> RowsOf(ch) == [] || DistinctNames(ch)
      ensures DistinctNames(ch) ==> Valid()
      ensures var others := Keep(old(abilities), NotOfChannel(ch.id));
              if ok then abilities == others + RowsOf(ch)
              else exists n :: n in Batches(RowsOf(ch)) && abilities == others + RowsOf(ch)[..n]
    {
      RemainingRows(Db(), ch.id);
      if DistinctNames(ch) {
        ReplaceKeepsConsistent(Db(), ch);
      }
      channels := channels[ch.id := ch];
      DeleteAbilities(ch.id);
      ok := AddAbilities(ch);
    }

    method Delete(c: int)
      requires Valid()
      modifies this`channels, this`abilities
      ensures Valid() && channels == old(channels) - {c} && abilities == Keep(old(abilities), NotOfChannel(c))
    {
      DeleteKeepsConsistent(Db(), c);
      channels := channels - {c};
      DeleteAbilities(c);
    }

    /** DeleteDisabledChannel removes channels only: their rows stay behind, all of them disabled. */
    method DeleteDisabledChannel()
      requires Valid()
      modifies this`channels
      ensures Valid()
      ensures channels == map c | c in old(channels)
              && old(channels)[c].status !in {AUTO_DISABLED, MANUALLY_DISABLED} :: old(channels)[c]
    {
      channels := map c | c in channels && channels[c].status !in {AUTO_DISABLED, MANUALLY_DISABLED} :: channels[c];
    }

    /** UpdateChannelStatusById: abilities, then the channel, then the index. */
    method UpdateChannelStatusById(id: int, status: int)
      requires Valid()
      modifies this
      ensures Valid() && channels == WithStatus(old(channels), {id}, status)
      ensures abilities == SetEnabled(old(abilities), {id}, status == ENABLED)
      ensures RoutesOk(routes, channels)
    {
      StatusKeepsConsistent(Db(), {id}, status);
      abilities := SetEnabled(abilities, {id}, status == ENABLED);
      StatusOfOne(channels, id, status);
      if id in channels {
        channels := channels[id := channels[id].(status := status)];
      }
      InitChannelCache();
    }

    method BatchUpdateChannelStatus(ids: set<int>, status: int) returns (ok: bool)
      requires Valid()
      modifies this`channels, this`abilities
      ensures Valid() && ok == (ids != {})
      ensures channels == if ok then WithStatus(old(channels), ids, status) else old(channels)
      ensures abilities == if ok then SetEnabled(old(abilities), ids, status == ENABLED) else old(abilities)
    {
      if ids == {} {
        return false;
      }
      StatusKeepsConsistent(Db(), ids, status);
      abilities := SetEnabled(abilities, ids, status == ENABLED);
      channels := WithStatus(channels, ids, status);
      ok := true;
    }

    /** AutoDisableChannelById: `disabled` is true for one caller only, the one that changed the status. */
    method AutoDisableChannelById(id: int) returns (disabled: bool)
      requires Valid()
      modifies this`channels, this`abilities
      ensures Valid()
      ensures var acts := id in old(channels) && old(channels)[id].autoDisabled && !old(channels)[id].isMultiKey;
              && channels == (if acts then WithStatus(old(channels), {id}, AUTO_DISABLED) else old(channels))
              && abilities == (if acts then SetEnabled(old(abilities), {id}, false) else old(abilities))
              && disabled == (acts && old(channels)[id].status != AUTO_DISABLED)
    {
      disabled := false;
      if id !in channels || !channels[id].autoDisabled || channels[id].isMultiKey {
        return;
      }
      StatusKeepsConsistent(Db(), {id}, AUTO_DISABLED);
      StatusOfOne(channels, id, AUTO_DISABLED);
      abilities := SetEnabled(abilities, {id}, false);
      if channels[id].status != AUTO_DISABLED {
        channels := channels[id := channels[id].(status := AUTO_DISABLED)];
        disabled := true;
      }
    }

    method SyncChannelAbilities(id: int) returns (ok: bool)
      requires Valid()
      modifies this`abilities
      ensures Valid() && ok == (id in channels)
      ensures abilities
              == if ok then SetEnabled(old(abilities), {id}, channels[id].status == ENABLED) else old(abilities)
    {
      if id !in channels {
        return false;
      }
      StatusKeepsConsistent(Db(), {id}, channels[id].status);
      assert WithStatus(channels, {id}, channels[id].status) == channels;
      abilities := SetEnabled(abilities, {id}, channels[id].status == ENABLED);
      ok := true;
    }

    method CheckDataConsistency()
      requires Valid()
      modifies this`abilities
      ensures Valid() && abilities == Resync(old(abilities), channels)
    {
      ResyncKeepsConsistent(Db());
      abilities := Resync(abilities, channels);
    }

    /** InitChannelCache: rebuilt from the enabled channels in whatever order the query returns them. */
    method InitChannelCache()
      requires Valid()
      modifies this`routes, this`byId
      ensures RoutesOk(routes, channels)
      ensures byId == map c | c in channels && channels[c].status == ENABLED :: channels[c]
    {
      var collected := CollectRoutes(channels);
      var sorted := SortRoutes(channels, collected);
      SortedRoutesOk(collected, sorted, channels, EnabledIds(channels));
      routes := sorted;
      byId := map c | c in channels && channels[c].status == ENABLED :: channels[c];
    }
  }

  function EnabledIds(channels: Channels): set<int> {
    set c | c in channels && channels[c].status == ENABLED
  }

  /** The loop over the enabled channels, in whatever order they come. */
  method CollectRoutes(channels: Channels) returns (collected: Routes)
    requires forall c :: c in channels ==> channels[c].id == c && DistinctNames(channels[c])
    ensures Collected(collected, channels, EnabledIds(channels))
  {
    var enabled := EnabledIds(channels);
    collected := map[];
    var rest: set<int> := enabled;
    ghost var taken := {};
    while rest != {}
      invariant rest <= enabled && taken == enabled - rest
      invariant Collected(collected, channels, taken)
      decreases rest
    {
      var c := AnyOf(rest);
      ghost var before := collected;
      collected := AddRoutes(collected, channels[c]);
      CollectOne(before, collected, channels, taken, c);
      rest, taken := rest - {c}, taken + {c};
    }
  }

  /** The loop that sorts each list. */
  method SortRoutes(channels: Channels, collected: Routes) returns (sorted: Routes)
    requires Collected(collected, channels, EnabledIds(channels))
    ensures sorted.Keys == collected.Keys && forall k :: k in sorted ==> SortedFrom(channels, collected[k], sorted[k])
  {
    var keys := collected.Keys;
    sorted := map[];
    while keys != {}
      invariant keys <= collected.Keys && sorted.Keys == collected.Keys - keys
      invariant forall k :: k in sorted ==> SortedFrom(channels, collected[k], sorted[k])
      decreases keys
    {
      var k :| k in keys;
      assert Lists(channels, EnabledIds(channels), k.0, k.1, Lookup(collected, k.0, k.1));
      assert Lookup(collected, k.0, k.1) == collected[k];
      SortDownSorts(channels, collected[k]);
      sorted := sorted[k := SortDown(channels, collected[k])];
      keys := keys - {k};
    }
  }

  ghost predicate SortedFrom(channels: Channels, ids: seq<int>, sorted: seq<int>) {
    && (forall c :: c in sorted <==> c in ids)
    && NoDuplicates(sorted) && PrioritiesDown(channels, sorted)
  }

  lemma CollectOne(before: Routes, after: Routes, channels: Channels, taken: set<int>, c: int)
    requires Collected(before, channels, taken) && c in channels && c !in taken && channels[c].id == c
             && channels[c].status == ENABLED
    requires Routed(after, before, c, GroupsOf(channels[c]), ModelsOf(channels[c]))
    ensures Collected(after, channels, taken + {c})
  {
    forall group, model
      ensures Lists(channels, taken + {c}, group, model, Lookup(after, group, model))
    {
      assert Lists(channels, taken, group, model, Lookup(before, group, model));
      assert Lookup(after, group, model) == Lookup(before, group, model)
          + if group in GroupsOf(channels[c]) && model in ModelsOf(channels[c]) then [c] else [];
      OneMoreListed(channels, taken, group, model, Lookup(before, group, model), c);
    }
  }

  lemma OneMoreListed(channels: Channels, taken: set<int>, group: string, model: string, ids: seq<int>, c: int)
    requires Lists(channels, taken, group, model, ids)
    requires c in channels && c !in taken && channels[c].id == c && channels[c].status == ENABLED
    ensures Lists(channels, taken + {c}, group, model,
                  ids + if group in GroupsOf(channels[c]) && model in ModelsOf(channels[c]) then [c] else [])
  {
    assert c !in ids;
  }

  lemma SortedRoutesOk(collected: Routes, sorted: Routes, channels: Channels, enabled: set<int>)
    requires Collected(collected, channels, enabled)
    requires enabled == set c | c in channels && channels[c].status == ENABLED
    requires sorted.Keys == collected.Keys && forall k :: k in sorted ==> SortedFrom(channels, collected[k], sorted[k])
    ensures RoutesOk(sorted, channels)
  {
    forall group, model
      ensures var ids := Lookup(sorted, group, model);
              && (forall c :: c in ids <==> c in channels && Serves(channels[c], group, model))
              && NoDuplicates(ids) && PrioritiesDown(channels, ids)
    {
      var ids := Lookup(collected, group, model);
      if (group, model) in sorted {
        assert SortedFrom(channels, collected[(group, model)], sorted[(group, model)]);
      }
    }
  }

  /** On consistent tables the SQL join, the rebuilt index and the textual check accept the same
      channels for every group and model that is not blank. */
  lemma ThreeViewsAgree(db: Database, routes: Routes, group: string, model: string, c: int)
    requires Consistent(db) && RoutesOk(routes, db.channels) && group != "" && model != ""
    ensures JoinAccepts(db, group, model, c) <==> TextAccepts(db.channels, group, model, c)
    ensures JoinAccepts(db, group, model, c) <==> c in Lookup(routes, group, model)
  {
    TextAgreesWithJoin(db, group, model, c);
    var ids := Lookup(routes, group, model);
    assert c in ids <==> c in db.channels && Serves(db.channels[c], group, model);
    if c in db.channels {
      AbilityIffListed(db, group, model, c);
    }
  }
}
