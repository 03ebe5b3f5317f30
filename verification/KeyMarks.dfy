/** Which keys are auto-disabled after any interleaving of reports and syncs: the reports of a channel as a
    machine over two sets (model/channel.go HandleKeyError, model/cache.go InitChannelCache). */
module KeyMarks {
  import opened Text
  import opened KeyAdmin
  import opened KeyErrors
  import G = Gateway

  /** The auto-disabled keys of the row and of the cache, None when the channel is not cached. */
  datatype Marks = Marks(row: set<int>, cache: Option<set<int>>)

  function OffKeys(row: Row): set<int> {
    set k | k in row.info.keyStatusList && row.info.keyStatusList[k] == G.AUTO_DISABLED
  }

  function MarksOf(s: State): Marks {
    Marks(OffKeys(s.row), if s.cached.Some? then Some(OffKeys(s.cached.value)) else None)
  }

  /** What the next report reads. */
  function Read(m: Marks): set<int> {
    if m.cache.Some? then m.cache.value else m.row
  }

  /** A publication sets the cache to what the published row holds, or drops it. */
  function Reset(m: Marks, published: Option<Row>): Marks {
    match published
    case None => m
    case Some(row) => m.(cache := if row.status == G.ENABLED then Some(OffKeys(row)) else None)
  }

  predicate TakesEffect(c: Setup, m: Marks, r: Report) {
    c.autoDisabled && r.keyIndex !in Read(m)
  }

  /** What an event does to the two sets. A report adds its key to what it read first; the result replaces the
      cache, if there is one by then, and the row, if it is saved. */
  function MarksAfter(c: Setup, reports: seq<Report>, m: Marks, e: Event): Marks
    requires e.Reported? ==> e.thread < |reports|
  {
    match e
    case Refreshed(row) => Reset(m, Some(row))
    case Reported(t, early, late) =>
      if !TakesEffect(c, m, reports[t]) then m
      else
        var marked := Read(m) + {reports[t].keyIndex};
        var before := Reset(m, early);
        var written := before.(cache := if before.cache.Some? then Some(marked) else None);
        var after := Reset(written, late);
        if reports[t].saved then after.(row := marked) else after
  }

  ghost function MarksOver(c: Setup, reports: seq<Report>, m: Marks, log: seq<Event>): Marks
    requires Known(reports, log)
  {
    if log == [] then m
    else
      assert log[|log| - 1] in log;
      MarksAfter(c, reports, MarksOver(c, reports, m, log[..|log| - 1]), log[|log| - 1])
  }

  // ---------- the protocol refines the two sets ----------

  lemma MarkedAddsKey(c: Setup, copied: Row, r: Report)
    ensures OffKeys(Marked(c, copied, r)) == OffKeys(copied) + {r.keyIndex}
    ensures Skips(c, copied, r) <==> !c.autoDisabled || r.keyIndex in OffKeys(copied)
  {
  }

  lemma PublishedMarks(s: State, row: Option<Row>)
    ensures MarksOf(MaybePublished(s, row)) == Reset(MarksOf(s), row)
  {
  }

  lemma WrittenMarks(c: Setup, s: State, copied: Row, r: Report)
    ensures var marked := OffKeys(Marked(c, copied, r));
            MarksOf(AfterMark(c, s, copied, r))
            == MarksOf(s).(cache := if s.cached.Some? then Some(marked) else None)
  {
  }

  lemma SavedMarks(c: Setup, s: State, copied: Row, r: Report)
    ensures MarksOf(AfterSave(c, s, copied, r))
         == if r.saved then MarksOf(s).(row := OffKeys(Marked(c, copied, r))) else MarksOf(s)
  {
  }

  lemma ReadIsFresh(s: State)
    ensures Read(MarksOf(s)) == OffKeys(Fresh(s))
  {
  }

  lemma EffectMarks(c: Setup, reports: seq<Report>, s: State, e: Event)
    requires e.Reported? ==> e.thread < |reports|
    ensures MarksOf(Effect(c, reports, s, e)) == MarksAfter(c, reports, MarksOf(s), e)
  {
    match e
    case Refreshed(row) => PublishedMarks(s, Some(row));
    case Reported(t, early, late) =>
      var r, copied := reports[t], Fresh(s);
      var s1 := MaybePublished(s, early);
      var s2 := AfterMark(c, s1, copied, r);
      ReadIsFresh(s);
      MarkedAddsKey(c, copied, r);
      PublishedMarks(s, early);
      WrittenMarks(c, s1, copied, r);
      PublishedMarks(s2, late);
      SavedMarks(c, MaybePublished(s2, late), copied, r);
  }

  lemma {:induction false} ReplayMarks(c: Setup, reports: seq<Report>, s: State, log: seq<Event>)
    requires Known(reports, log)
    ensures MarksOf(Replay(c, reports, s, log)) == MarksOver(c, reports, MarksOf(s), log)
  {
    if log != [] {
      assert log[|log| - 1] in log;
      ReplayMarks(c, reports, s, log[..|log| - 1]);
      EffectMarks(c, reports, Replay(c, reports, s, log[..|log| - 1]), log[|log| - 1]);
    }
  }

  /** Whenever the lock is free, in any run, with any publications and any saves: row and cache hold the keys that
      the two sets give. */
  lemma RunMarks(c: Setup, reports: seq<Report>, s: State, actions: seq<Action>, states: seq<Machine>, i: nat)
    requires Run(c, reports, s, actions, states) && i < |states| && states[i].lock == None
    ensures Known(reports, states[i].log)
    ensures MarksOf(states[i].s) == MarksOver(c, reports, MarksOf(s), states[i].log)
  {
    RunIsSerial(c, reports, s, actions, states, i);
    ReplayMarks(c, reports, s, states[i].log);
  }

  // ---------- what the row holds in the end ----------

  /** What the report at place n of the log read. */
  ghost function ReadAt(c: Setup, reports: seq<Report>, m: Marks, log: seq<Event>, n: nat): set<int>
    requires Known(reports, log) && n <= |log|
  {
    Read(MarksOver(c, reports, m, log[..n]))
  }

  /** The report at place n took effect and was saved. */
  ghost predicate Stores(c: Setup, reports: seq<Report>, m: Marks, log: seq<Event>, n: nat)
    requires Known(reports, log) && n < |log|
  {
    && log[n].Reported?
    && (assert log[n] in log;
        reports[log[n].thread].saved && TakesEffect(c, MarksOver(c, reports, m, log[..n]), reports[log[n].thread]))
  }

  ghost predicate LastStored(c: Setup, reports: seq<Report>, m: Marks, log: seq<Event>, n: nat)
    requires Known(reports, log)
  {
    n < |log| && Stores(c, reports, m, log, n) && forall j :: n < j < |log| ==> !Stores(c, reports, m, log, j)
  }

  function KeyOf(reports: seq<Report>, e: Event): int
    requires e.Reported? && e.thread < |reports|
  {
    reports[e.thread].keyIndex
  }

  lemma StoresInFront(c: Setup, reports: seq<Report>, m: Marks, log: seq<Event>, n: nat)
    requires Known(reports, log) && n < |log| - 1
    ensures Stores(c, reports, m, log, n) <==> Stores(c, reports, m, log[..|log| - 1], n)
    ensures log[..|log| - 1][..n] == log[..n]
  {
  }

  /** The row is that of the last stored report: what it read, and its key. Without one it is the initial row. */
  lemma {:induction false} RowIsLastStored(c: Setup, reports: seq<Report>, m: Marks, log: seq<Event>)
    returns (last: Option<nat>)
    requires Known(reports, log)
    ensures match last
            case None =>
              && MarksOver(c, reports, m, log).row == m.row
              && forall n :: 0 <= n < |log| ==> !Stores(c, reports, m, log, n)
            case Some(n) =>
              && LastStored(c, reports, m, log, n)
              && MarksOver(c, reports, m, log).row == ReadAt(c, reports, m, log, n) + {KeyOf(reports, log[n])}
  {
    last := None;
    if log != [] {
      var n := |log| - 1;
      assert log[n] in log;
      if Stores(c, reports, m, log, n) {
        last := Some(n);
      } else {
        last := RowIsLastStored(c, reports, m, log[..n]);
        forall j | 0 <= j < n ensures Stores(c, reports, m, log, j) <==> Stores(c, reports, m, log[..n], j) {
          StoresInFront(c, reports, m, log, j);
        }
        if last.Some? {
          StoresInFront(c, reports, m, log, last.value);
        }
      }
    }
  }

  /** Over runs, with any publications anywhere and any saves: once reported and stored, a key is missing from the
      row in the end if and only if the last report to be stored is a later one of another key that did not read it. */
  lemma RunLosesKeyIff(c: Setup, reports: seq<Report>, s: State, actions: seq<Action>, states: seq<Machine>, i: nat,
                       n: nat)
    requires Run(c, reports, s, actions, states) && i < |states| && states[i].lock == None
    requires Known(reports, states[i].log) && n < |states[i].log|
    requires Stores(c, reports, MarksOf(s), states[i].log, n)
    ensures KeyOf(reports, states[i].log[n]) !in OffKeys(states[i].s.row)
       <==> exists last ::
              && n < last && LastStored(c, reports, MarksOf(s), states[i].log, last)
              && KeyOf(reports, states[i].log[last]) != KeyOf(reports, states[i].log[n])
              && KeyOf(reports, states[i].log[n]) !in ReadAt(c, reports, MarksOf(s), states[i].log, last)
  {
    RunMarks(c, reports, s, actions, states, i);
    var last := RowIsLastStored(c, reports, MarksOf(s), states[i].log);
  }

  // ---------- only a stale row loses a key ----------

  /** The row that the event publishes last: between the writes of a report, or apart from reports. */
  function PublishedBy(e: Event): Option<Row> {
    if e.Refreshed? then Some(e.row) else e.late
  }

  /** It is cached and does not hold the key. */
  predicate Stale(published: Option<Row>, k: int) {
    published.Some? && published.value.status == G.ENABLED && k !in OffKeys(published.value)
  }

  /** A key that row and next read both hold stays in both until a stale row is published. */
  lemma {:induction false} HeldUntilStale(c: Setup, reports: seq<Report>, m: Marks, log: seq<Event>, n: nat, k: int)
    requires Known(reports, log) && n <= |log|
    requires k in MarksOver(c, reports, m, log[..n]).row && k in ReadAt(c, reports, m, log, n)
    requires forall j :: n <= j < |log| ==> !Stale(PublishedBy(log[j]), k)
    ensures k in MarksOver(c, reports, m, log).row && k in Read(MarksOver(c, reports, m, log))
  {
    if n == |log| {
      assert log[..n] == log;
    } else {
      var front := log[..|log| - 1];
      assert front[..n] == log[..n];
      HeldUntilStale(c, reports, m, front, n, k);
      assert log[|log| - 1] in log;
    }
  }

  /** Over runs: a stored report whose key is missing in the end was followed by the publication of a row without
      the key, between its own writes or later. */
  lemma LossNeedsStaleRow(c: Setup, reports: seq<Report>, s: State, actions: seq<Action>, states: seq<Machine>, i: nat,
                          n: nat)
    requires Run(c, reports, s, actions, states) && i < |states| && states[i].lock == None
    requires Known(reports, states[i].log) && n < |states[i].log|
    requires Stores(c, reports, MarksOf(s), states[i].log, n)
    requires KeyOf(reports, states[i].log[n]) !in OffKeys(states[i].s.row)
    ensures exists j ::
              n <= j < |states[i].log| && Stale(PublishedBy(states[i].log[j]), KeyOf(reports, states[i].log[n]))
  {
    var log, k := states[i].log, KeyOf(reports, states[i].log[n]);
    RunMarks(c, reports, s, actions, states, i);
    if forall j :: n <= j < |log| ==> !Stale(PublishedBy(log[j]), k) {
      StoredIsHeld(c, reports, MarksOf(s), log, n);
      HeldUntilStale(c, reports, MarksOf(s), log, n + 1, k);
    }
  }

  lemma StoredIsHeld(c: Setup, reports: seq<Report>, m: Marks, log: seq<Event>, n: nat)
    requires Known(reports, log) && n < |log| && Stores(c, reports, m, log, n)
    requires !Stale(PublishedBy(log[n]), KeyOf(reports, log[n]))
    ensures KeyOf(reports, log[n]) in MarksOver(c, reports, m, log[..n + 1]).row
    ensures KeyOf(reports, log[n]) in ReadAt(c, reports, m, log, n + 1)
  {
    assert log[..n + 1][..n] == log[..n] && log[..n + 1][n] == log[n];
    assert log[n] in log;
  }
}
