/** The abilities table, the in-memory index and the textual check: three views of which channels
    serve a group and a model (model/ability.go, model/channel.go, model/cache.go). */
module Abilities {
  import opened Text
  import opened Sequences
  import opened Gateway
  import opened Selection

  function GroupsOf(ch: Channel): seq<string> {
    Names(ch.groups, ',')
  }

  function ModelsOf(ch: Channel): seq<string> {
    Names(ch.models, ',')
  }

  /** A channel whose lists name nothing twice, so that its rows have distinct keys. */
  ghost predicate DistinctNames(ch: Channel) {
    NoDuplicates(GroupsOf(ch)) && NoDuplicates(ModelsOf(ch))
  }

  // ---------- the rows of one channel ----------

  function RowFor(ch: Channel, group: string, model: string): Ability {
    Ability(group, model, ch.id, ch.status == ENABLED, ch.priority)
  }

  function RowsForModel(ch: Channel, model: string, groups: seq<string>): (rows: seq<Ability>)
    ensures |rows| == |groups|
  {
    if groups == [] then []
    else RowsForModel(ch, model, groups[..|groups| - 1]) + [RowFor(ch, groups[|groups| - 1], model)]
  }

  function RowsFor(ch: Channel, models: seq<string>, groups: seq<string>): seq<Ability> {
    if models == [] then []
    else RowsFor(ch, models[..|models| - 1], groups) + RowsForModel(ch, models[|models| - 1], groups)
  }

  /** One row for each model and group the channel names. */
  function RowsOf(ch: Channel): seq<Ability> {
    RowsFor(ch, ModelsOf(ch), GroupsOf(ch))
  }

  lemma {:induction false} RowsForModelMembers(ch: Channel, model: string, groups: seq<string>)
    ensures forall a :: a in RowsForModel(ch, model, groups) <==> a.group in groups && a == RowFor(ch, a.group, model)
  {
    if groups != [] {
      RowsForModelMembers(ch, model, groups[..|groups| - 1]);
      assert groups == groups[..|groups| - 1] + [groups[|groups| - 1]];
    }
  }

  lemma {:induction false} RowsForMembers(ch: Channel, models: seq<string>, groups: seq<string>)
    ensures forall a :: a in RowsFor(ch, models, groups)
                   <==> a.group in groups && a.model in models && a == RowFor(ch, a.group, a.model)
  {
    if models != [] {
      RowsForMembers(ch, models[..|models| - 1], groups);
      RowsForModelMembers(ch, models[|models| - 1], groups);
      assert models == models[..|models| - 1] + [models[|models| - 1]];
    }
  }

  lemma {:induction false} RowsForModelUnique(ch: Channel, model: string, groups: seq<string>)
    requires NoDuplicates(groups)
    ensures UniqueKeys(RowsForModel(ch, model, groups))
  {
    if groups != [] {
      var before := groups[..|groups| - 1];
      RowsForModelUnique(ch, model, before);
      RowsForModelMembers(ch, model, before);
      var rows := RowsForModel(ch, model, before);
      forall i | 0 <= i < |rows| ensures rows[i].group != groups[|groups| - 1] {
        assert rows[i] in rows;
      }
    }
  }

  lemma {:induction false} RowsForUnique(ch: Channel, models: seq<string>, groups: seq<string>)
    requires NoDuplicates(groups) && NoDuplicates(models)
    ensures UniqueKeys(RowsFor(ch, models, groups))
  {
    if models != [] {
      var before, model := models[..|models| - 1], models[|models| - 1];
      RowsForUnique(ch, before, groups);
      RowsForMembers(ch, before, groups);
      RowsForModelUnique(ch, model, groups);
      RowsForModelMembers(ch, model, groups);
      var head, tail := RowsFor(ch, before, groups), RowsForModel(ch, model, groups);
      forall i, j | 0 <= i < |head| && 0 <= j < |tail| ensures head[i].model != tail[j].model {
        assert head[i] in head && tail[j] in tail;
      }
    }
  }

  /** A key that stands on both sides of a cut is there twice. */
  lemma RepeatedKey(head: seq<Ability>, tail: seq<Ability>, a: Ability)
    requires a in head && a in tail
    ensures !UniqueKeys(head + tail)
  {
    var i :| 0 <= i < |head| && head[i] == a;
    var j :| 0 <= j < |tail| && tail[j] == a;
    var all := head + tail;
    assert SameKey(all[i], all[|head| + j]);
  }

  lemma UniquePrefix(head: seq<Ability>, tail: seq<Ability>)
    requires UniqueKeys(head + tail)
    ensures UniqueKeys(head) && UniqueKeys(tail)
  {
    var all := head + tail;
    forall i, j | 0 <= i < j < |tail| ensures !SameKey(tail[i], tail[j]) {
      assert tail[i] == all[|head| + i] && tail[j] == all[|head| + j];
    }
    forall i, j | 0 <= i < j < |head| ensures !SameKey(head[i], head[j]) {
      assert head[i] == all[i] && head[j] == all[j];
    }
  }

  lemma {:induction false} RepeatedGroup(ch: Channel, model: string, groups: seq<string>)
    requires !NoDuplicates(groups)
    ensures !UniqueKeys(RowsForModel(ch, model, groups))
  {
    var front, last := groups[..|groups| - 1], groups[|groups| - 1];
    var head, row := RowsForModel(ch, model, front), RowFor(ch, last, model);
    if last in front {
      RowsForModelMembers(ch, model, front);
      RepeatedKey(head, [row], row);
    } else {
      RepeatedGroup(ch, model, front);
      if UniqueKeys(head + [row]) {
        UniquePrefix(head, [row]);
      }
    }
  }

  /** The rows of a channel repeat a key as soon as its lists repeat a name, unless there are no rows. */
  lemma {:induction false} RepeatedName(ch: Channel, models: seq<string>, groups: seq<string>)
    requires models != [] && groups != [] && !(NoDuplicates(models) && NoDuplicates(groups))
    ensures !UniqueKeys(RowsFor(ch, models, groups))
  {
    var front, last := models[..|models| - 1], models[|models| - 1];
    var head, tail := RowsFor(ch, front, groups), RowsForModel(ch, last, groups);
    if !NoDuplicates(groups) {
      RepeatedGroup(ch, last, groups);
    } else if last in front {
      var row := RowFor(ch, groups[0], last);
      RowsForMembers(ch, front, groups);
      RowsForModelMembers(ch, last, groups);
      RepeatedKey(head, tail, row);
    } else {
      RepeatedName(ch, front, groups);
    }
    if UniqueKeys(head + tail) {
      UniquePrefix(head, tail);
    }
  }

  lemma {:induction false} NoRows(ch: Channel, models: seq<string>, groups: seq<string>)
    ensures RowsFor(ch, models, groups) == [] <==> models == [] || groups == []
  {
    if models != [] {
      NoRows(ch, models[..|models| - 1], groups);
    }
  }

  /** Exactly when the rows of a channel fit the primary key. */
  lemma RowsFitIff(ch: Channel)
    ensures UniqueKeys(RowsOf(ch)) <==> RowsOf(ch) == [] || DistinctNames(ch)
  {
    var models, groups := ModelsOf(ch), GroupsOf(ch);
    NoRows(ch, models, groups);
    if DistinctNames(ch) {
      RowsForUnique(ch, models, groups);
    } else if models != [] && groups != [] {
      RepeatedName(ch, models, groups);
    }
  }

  // ---------- table operations ----------

  function OfChannel(c: int): Ability -> bool {
    (a: Ability) => a.channelId == c
  }

  function NotOfChannel(c: int): Ability -> bool {
    (a: Ability) => a.channelId != c
  }

  /** UPDATE abilities SET enabled = ... WHERE channel_id IN ids. */
  function SetEnabled(rows: seq<Ability>, ids: set<int>, enabled: bool): seq<Ability> {
    if rows == [] then []
    else
      [if rows[0].channelId in ids then rows[0].(enabled := enabled) else rows[0]]
        + SetEnabled(rows[1..], ids, enabled)
  }

  /** UPDATE abilities JOIN channels SET enabled = (status is enabled). */
  function Resync(rows: seq<Ability>, channels: Channels): seq<Ability> {
    if rows == [] then []
    else
      [if rows[0].channelId in channels then rows[0].(enabled := channels[rows[0].channelId].status == ENABLED)
       else rows[0]]
      + Resync(rows[1..], channels)
  }

  ghost predicate SameKeys(rows: seq<Ability>, rows': seq<Ability>) {
    |rows| == |rows'| && forall i :: 0 <= i < |rows| ==> SameKey(rows[i], rows'[i])
  }

  lemma SetEnabledKeeps(rows: seq<Ability>, ids: set<int>, enabled: bool, c: int)
    ensures SameKeys(rows, SetEnabled(rows, ids, enabled))
    ensures Keep(SetEnabled(rows, ids, enabled), OfChannel(c))
         == if c in ids then SetEnabled(Keep(rows, OfChannel(c)), ids, enabled) else Keep(rows, OfChannel(c))
  {
    SetEnabledKeepsKeys(rows, ids, enabled);
    SetEnabledOfChannel(rows, ids, enabled, c);
  }

  lemma {:induction false} SetEnabledKeepsKeys(rows: seq<Ability>, ids: set<int>, enabled: bool)
    ensures SameKeys(rows, SetEnabled(rows, ids, enabled))
  {
    if rows != [] {
      SetEnabledKeepsKeys(rows[1..], ids, enabled);
      var out := SetEnabled(rows, ids, enabled);
      assert out[1..] == SetEnabled(rows[1..], ids, enabled);
      forall i | 0 <= i < |rows| ensures SameKey(rows[i], out[i]) {
        assert i > 0 ==> rows[i] == rows[1..][i - 1] && out[i] == out[1..][i - 1];
      }
    }
  }

  function SetOne(row: Ability, ids: set<int>, enabled: bool): Ability {
    if row.channelId in ids then row.(enabled := enabled) else row
  }

  lemma SetEnabledFirst(first: Ability, rows: seq<Ability>, ids: set<int>, enabled: bool)
    ensures SetEnabled([first] + rows, ids, enabled) == [SetOne(first, ids, enabled)] + SetEnabled(rows, ids, enabled)
  {
    assert ([first] + rows)[1..] == rows;
  }

  lemma KeepFirst(first: Ability, rows: seq<Ability>, p: Ability -> bool)
    ensures Keep([first] + rows, p) == if p(first) then [first] + Keep(rows, p) else Keep(rows, p)
  {
    assert ([first] + rows)[1..] == rows;
  }

  lemma {:induction false} SetEnabledOfChannel(rows: seq<Ability>, ids: set<int>, enabled: bool, c: int)
    ensures Keep(SetEnabled(rows, ids, enabled), OfChannel(c))
         == if c in ids then SetEnabled(Keep(rows, OfChannel(c)), ids, enabled) else Keep(rows, OfChannel(c))
  {
    if rows != [] {
      var first, rest := rows[0], rows[1..];
      assert rows == [first] + rest;
      SetEnabledOfChannel(rest, ids, enabled, c);
      SetEnabledFirst(first, rest, ids, enabled);
      KeepFirst(first, rest, OfChannel(c));
      KeepFirst(SetOne(first, ids, enabled), SetEnabled(rest, ids, enabled), OfChannel(c));
      SetEnabledFirst(first, Keep(rest, OfChannel(c)), ids, enabled);
    }
  }

  /** Row by row: the flags of the named channels are set, and nothing else changes. */
  lemma {:induction false} SetEnabledMeans(rows: seq<Ability>, ids: set<int>, enabled: bool, i: nat)
    requires i < |rows|
    ensures |SetEnabled(rows, ids, enabled)| == |rows|
    ensures SetEnabled(rows, ids, enabled)[i]
         == rows[i].(enabled := if rows[i].channelId in ids then enabled else rows[i].enabled)
  {
    SetEnabledLength(rows, ids, enabled);
    if i > 0 {
      SetEnabledMeans(rows[1..], ids, enabled, i - 1);
    }
  }

  lemma {:induction false} SetEnabledLength(rows: seq<Ability>, ids: set<int>, enabled: bool)
    ensures |SetEnabled(rows, ids, enabled)| == |rows|
  {
    if rows != [] {
      SetEnabledLength(rows[1..], ids, enabled);
    }
  }

  /** The channels likewise: the named ones have the status, and nothing else changes. */
  lemma WithStatusMeans(channels: Channels, ids: set<int>, status: int)
    ensures WithStatus(channels, ids, status).Keys == channels.Keys
    ensures forall c :: c in channels ==>
              WithStatus(channels, ids, status)[c]
              == channels[c].(status := if c in ids then status else channels[c].status)
  {
  }

  /** The repair row by row: the flag of a channel that exists is that of its status, and nothing else changes. */
  lemma {:induction false} ResyncMeans(rows: seq<Ability>, channels: Channels, i: nat)
    requires i < |rows|
    ensures |Resync(rows, channels)| == |rows|
    ensures Resync(rows, channels)[i]
         == rows[i].(enabled := if rows[i].channelId in channels then channels[rows[i].channelId].status == ENABLED
                                else rows[i].enabled)
  {
    ResyncLength(rows, channels);
    if i > 0 {
      ResyncMeans(rows[1..], channels, i - 1);
    }
  }

  lemma {:induction false} ResyncLength(rows: seq<Ability>, channels: Channels)
    ensures |Resync(rows, channels)| == |rows|
  {
    if rows != [] {
      ResyncLength(rows[1..], channels);
    }
  }

  lemma {:induction false} ResyncKeeps(rows: seq<Ability>, channels: Channels, c: int)
    ensures SameKeys(rows, Resync(rows, channels))
    ensures Keep(Resync(rows, channels), OfChannel(c)) == Resync(Keep(rows, OfChannel(c)), channels)
  {
    if rows != [] {
      ResyncKeeps(rows[1..], channels, c);
      var out := Resync(rows, channels);
      assert out[0].channelId == rows[0].channelId && out[1..] == Resync(rows[1..], channels);
      var kept, tail := Keep(rows, OfChannel(c)), Keep(rows[1..], OfChannel(c));
      if rows[0].channelId == c {
        assert kept == [rows[0]] + tail && kept[0] == rows[0] && kept[1..] == tail;
      } else {
        assert kept == tail && Keep(out, OfChannel(c)) == Keep(out[1..], OfChannel(c));
      }
    }
  }

  lemma {:induction false} SetEnabledAppend(rows: seq<Ability>, more: seq<Ability>, ids: set<int>, enabled: bool)
    ensures SetEnabled(rows + more, ids, enabled) == SetEnabled(rows, ids, enabled) + SetEnabled(more, ids, enabled)
  {
    if rows == [] {
      assert rows + more == more;
    } else {
      var all := rows + more;
      assert all[0] == rows[0] && all[1..] == rows[1..] + more;
      SetEnabledAppend(rows[1..], more, ids, enabled);
    }
  }

  /** Switching the rows of a channel on or off gives the rows of the channel with that status. */
  lemma {:induction false} RestatusRows(ch: Channel, models: seq<string>, groups: seq<string>, ids: set<int>,
                                        status: int)
    requires ch.id in ids
    ensures SetEnabled(RowsFor(ch, models, groups), ids, status == ENABLED)
            == RowsFor(ch.(status := status), models, groups)
  {
    if models != [] {
      var before, model := models[..|models| - 1], models[|models| - 1];
      RestatusRows(ch, before, groups, ids, status);
      RestatusModel(ch, model, groups, ids, status);
      SetEnabledAppend(RowsFor(ch, before, groups), RowsForModel(ch, model, groups), ids, status == ENABLED);
    }
  }

  lemma {:induction false} RestatusModel(ch: Channel, model: string, groups: seq<string>, ids: set<int>, status: int)
    requires ch.id in ids
    ensures SetEnabled(RowsForModel(ch, model, groups), ids, status == ENABLED)
            == RowsForModel(ch.(status := status), model, groups)
  {
    if groups != [] {
      var before, group := groups[..|groups| - 1], groups[|groups| - 1];
      RestatusModel(ch, model, before, ids, status);
      SetEnabledAppend(RowsForModel(ch, model, before), [RowFor(ch, group, model)], ids, status == ENABLED);
      assert SetEnabled([RowFor(ch, group, model)][1..], ids, status == ENABLED) == [];
    }
  }

  lemma {:induction false} ResyncIsSetEnabled(rows: seq<Ability>, channels: Channels, c: int)
    requires c in channels && forall a :: a in rows ==> a.channelId == c
    ensures Resync(rows, channels) == SetEnabled(rows, {c}, channels[c].status == ENABLED)
  {
    if rows != [] {
      assert rows[0] in rows;
      ResyncIsSetEnabled(rows[1..], channels, c);
    }
  }

  // ---------- consistency ----------

  /** Every channel of the table has exactly the rows its lists, status and priority call for. Rows of
      channels that were deleted in bulk may linger. */
  ghost predicate Consistent(db: Database) {
    && WellFormed(db)
    && forall c :: c in db.channels ==>
         DistinctNames(db.channels[c]) && Keep(db.abilities, OfChannel(c)) == RowsOf(db.channels[c])
  }

  lemma UniqueAfterRewrite(rows: seq<Ability>, rows': seq<Ability>)
    requires UniqueKeys(rows) && SameKeys(rows, rows')
    ensures UniqueKeys(rows')
  {
    forall i, j | 0 <= i < j < |rows'| ensures !SameKey(rows'[i], rows'[j]) {
      assert SameKey(rows[i], rows'[i]) && SameKey(rows[j], rows'[j]) && !SameKey(rows[i], rows[j]);
    }
  }

  lemma {:induction false} UniqueAfterKeep(rows: seq<Ability>, p: Ability -> bool)
    requires UniqueKeys(rows)
    ensures UniqueKeys(Keep(rows, p))
  {
    if rows != [] {
      UniqueAfterKeep(rows[1..], p);
      KeepMembers(rows[1..], p);
      var kept := Keep(rows[1..], p);
      forall j | 0 <= j < |kept| ensures !SameKey(rows[0], kept[j]) {
        assert kept[j] in kept;
        var k :| 0 <= k < |rows[1..]| && rows[1..][k] == kept[j];
        assert rows[k + 1] == kept[j];
      }
    }
  }

  lemma UniqueAppend(rows: seq<Ability>, more: seq<Ability>)
    requires UniqueKeys(rows) && UniqueKeys(more)
    requires forall a, b :: a in rows && b in more ==> a.channelId != b.channelId
    ensures UniqueKeys(rows + more)
  {
    var all := rows + more;
    forall i, j | 0 <= i < j < |all| ensures !SameKey(all[i], all[j]) {
      if i < |rows| <= j {
        assert all[i] in rows && all[j] in more;
      }
    }
  }

  /** Inserting a new channel and its rows keeps the table consistent. */
  lemma InsertKeepsConsistent(db: Database, ch: Channel)
    requires Consistent(db) && DistinctNames(ch) && ch.id !in db.channels
    requires forall a :: a in db.abilities ==> a.channelId != ch.id
    ensures Consistent(Database(db.channels[ch.id := ch], db.abilities + RowsOf(ch)))
  {
    var after := Database(db.channels[ch.id := ch], db.abilities + RowsOf(ch));
    NewRowsFit(ch);
    UniqueAppend(db.abilities, RowsOf(ch));
    forall c | c in after.channels
      ensures DistinctNames(after.channels[c]) && Keep(after.abilities, OfChannel(c)) == RowsOf(after.channels[c])
    {
      KeepOfAppended(db.abilities, RowsOf(ch), ch.id, c);
    }
  }

  lemma NewRowsFit(ch: Channel)
    requires DistinctNames(ch)
    ensures UniqueKeys(RowsOf(ch)) && forall a :: a in RowsOf(ch) ==> a.channelId == ch.id
  {
    RowsForMembers(ch, ModelsOf(ch), GroupsOf(ch));
    RowsForUnique(ch, ModelsOf(ch), GroupsOf(ch));
  }

  lemma KeepOfAppended(others: seq<Ability>, rows: seq<Ability>, id: int, c: int)
    requires (forall a :: a in others ==> a.channelId != id) && (forall a :: a in rows ==> a.channelId == id)
    ensures Keep(others + rows, OfChannel(c)) == if c == id then rows else Keep(others, OfChannel(c))
  {
    KeepAppend(others, rows, OfChannel(c));
    if c == id {
      KeepNone(others, OfChannel(c));
      KeepAll(rows, OfChannel(c));
    } else {
      KeepNone(rows, OfChannel(c));
    }
  }

  /** Deleting a channel with its rows keeps the rest consistent. */
  lemma DeleteKeepsConsistent(db: Database, c: int)
    requires Consistent(db)
    ensures Consistent(Database(db.channels - {c}, Keep(db.abilities, NotOfChannel(c))))
    ensures forall a :: a in Keep(db.abilities, NotOfChannel(c)) ==> a.channelId != c
  {
    UniqueAfterKeep(db.abilities, NotOfChannel(c));
    KeepMembers(db.abilities, NotOfChannel(c));
    forall d | d in db.channels && d != c
      ensures Keep(Keep(db.abilities, NotOfChannel(c)), OfChannel(d)) == Keep(db.abilities, OfChannel(d))
    {
      KeepTwice(db.abilities, NotOfChannel(c), OfChannel(d), OfChannel(d));
    }
  }

  /** The status of the listed channels that exist. */
  function WithStatus(channels: Channels, ids: set<int>, status: int): Channels {
    map c | c in channels :: if c in ids then channels[c].(status := status) else channels[c]
  }

  /** Changing rows and channels to one status together keeps the table consistent. */
  lemma StatusKeepsConsistent(db: Database, ids: set<int>, status: int)
    requires Consistent(db)
    ensures Consistent(Database(WithStatus(db.channels, ids, status), SetEnabled(db.abilities, ids, status == ENABLED)))
  {
    SetEnabledKeeps(db.abilities, ids, status == ENABLED, 0);
    UniqueAfterRewrite(db.abilities, SetEnabled(db.abilities, ids, status == ENABLED));
    forall c | c in db.channels
      ensures Keep(SetEnabled(db.abilities, ids, status == ENABLED), OfChannel(c))
              == RowsOf(WithStatus(db.channels, ids, status)[c])
    {
      var ch := db.channels[c];
      SetEnabledKeeps(db.abilities, ids, status == ENABLED, c);
      if c in ids {
        RestatusRows(ch, ModelsOf(ch), GroupsOf(ch), ids, status);
      }
    }
  }

  /** On a consistent table the repair rewrites nothing that a channel still owns. */
  lemma ResyncKeepsConsistent(db: Database)
    requires Consistent(db)
    ensures Consistent(db.(abilities := Resync(db.abilities, db.channels)))
  {
    ResyncKeeps(db.abilities, db.channels, 0);
    UniqueAfterRewrite(db.abilities, Resync(db.abilities, db.channels));
    forall c | c in db.channels
      ensures Keep(Resync(db.abilities, db.channels), OfChannel(c)) == RowsOf(db.channels[c])
    {
      var ch := db.channels[c];
      ResyncKeeps(db.abilities, db.channels, c);
      RowsForMembers(ch, ModelsOf(ch), GroupsOf(ch));
      ResyncIsSetEnabled(RowsOf(ch), db.channels, c);
      RestatusRows(ch, ModelsOf(ch), GroupsOf(ch), {c}, ch.status);
      assert ch.(status := ch.status) == ch;
    }
  }

  // ---------- the views agree ----------

  ghost predicate JoinAccepts(db: Database, group: string, model: string, c: int) {
    exists a :: a in db.abilities && a.channelId == c && Joined(db.channels, a, group, model)
  }

  /** An enabled ability of a channel of the table exists exactly when the channel is enabled and
      lists the group and the model, and it carries the channel's priority. */
  lemma AbilityIffListed(db: Database, group: string, model: string, c: int)
    requires Consistent(db) && c in db.channels
    ensures JoinAccepts(db, group, model, c)
       <==> db.channels[c].status == ENABLED && group in GroupsOf(db.channels[c]) && model in ModelsOf(db.channels[c])
    ensures (exists a :: a in db.abilities && a.channelId == c && a.group == group && a.model == model && a.enabled)
       <==> db.channels[c].status == ENABLED && group in GroupsOf(db.channels[c]) && model in ModelsOf(db.channels[c])
    ensures forall a :: a in db.abilities && a.channelId == c ==> a.priority == db.channels[c].priority
  {
    var ch := db.channels[c];
    KeepMembers(db.abilities, OfChannel(c));
    RowsForMembers(ch, ModelsOf(ch), GroupsOf(ch));
    if ch.status == ENABLED && group in GroupsOf(ch) && model in ModelsOf(ch) {
      var a := RowFor(ch, group, model);
      assert a in Keep(db.abilities, OfChannel(c));
    }
  }

  /** The textual check accepts what the join accepts, for every group and model that is not blank;
      a blank name it may accept although no ability row can carry it. */
  lemma TextAgreesWithJoin(db: Database, group: string, model: string, c: int)
    requires Consistent(db)
    ensures JoinAccepts(db, group, model, c)
            <==> TextAccepts(db.channels, group, model, c) && group != "" && model != ""
  {
    if c in db.channels {
      AbilityIffListed(db, group, model, c);
      TrimmedPiecesMember(Split(db.channels[c].groups, ','), group);
      TrimmedPiecesMember(Split(db.channels[c].models, ','), model);
    }
  }

  /** The remembered channel is used exactly when an ordinary selection could have chosen it: it is in the pool of the
      request and not excluded. So the affinity of a response id never widens what a request may use. */
  lemma AffinityIsEligibleIff(db: Database, q: Request, cached: Affinity)
    requires Consistent(db) && q.group != "" && q.model != ""
    ensures AffinityHolds(db.channels, q, cached)
       <==> cached.channel in Pool(db.channels, db.abilities, q.boundary, q.group, q.model)
            && cached.channel !in q.exclude
  {
    TextAgreesWithJoin(db, q.group, q.model, cached.channel);
  }

  /** A trailing comma in the group list makes the textual check accept the blank group. */
  lemma BlankGroupIsAcceptedByTextOnly()
    ensures var channels := map[1 := Channel(1, ENABLED, "a,", "m", 0, 0, "", true, false)];
            TextAccepts(channels, "", "m", 1) && "" !in GroupsOf(channels[1])
  {
    var channels := map[1 := Channel(1, ENABLED, "a,", "m", 0, 0, "", true, false)];
    SplitFront("a", "", ',');
    assert "a" + [','] + "" == "a,";
    assert TrimSpace("") == "" && TrimSpace(["a", ""][1]) == "";
    SplitFront("m", "", ',');
    TrimSpaceClean("m");
    assert TrimSpace(["m"][0]) == "m";
    TrimmedPiecesMember(Split("a,", ','), "");
  }
}
