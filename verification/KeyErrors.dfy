/** Concurrent error reports against the keys of one channel: a per-channel lock over a cached copy and a
    database row (model/channel.go HandleKeyError, model/cache.go). */
module KeyErrors {
  import opened Text
  import opened Sequences
  import opened KeyText
  import opened KeyAdmin
  import G = Gateway

  /** What no report changes: the type of the channel, its JSON decoder and its auto_disabled switch. */
  datatype Setup = Setup(vertex: bool, decode: Decoder, autoDisabled: bool)

  /** `cached` is None when the memory cache is off or misses; `listed` says that the channel is in the
      cached routes, `abilitiesOn` that its abilities are enabled. Notices are kept for counting. */
  datatype State = State(
    cached: Option<Row>, row: Row, listed: bool, abilitiesOn: bool, keyNotices: seq<int>, channelNotices: nat)

  /** A report; `saved` says whether its database transaction commits. */
  datatype Report = Report(keyIndex: int, note: DisableNote, saved: bool)

  function KeysOf(c: Setup, row: Row): seq<string> {
    ParseKeys(c.vertex, c.decode, row.key)
  }

  /** CacheGetChannelCopy. */
  function Fresh(s: State): Row {
    if s.cached.Some? then s.cached.value else s.row
  }

  function MetadataAt(info: KeyInfo, i: int): KeyMetadata {
    if i in info.keyMetadata then info.keyMetadata[i] else FreshMetadata("")
  }

  function MarkedInfo(info: KeyInfo, r: Report): KeyInfo {
    info.(keyStatusList := info.keyStatusList[r.keyIndex := G.AUTO_DISABLED],
          keyMetadata := info.keyMetadata[r.keyIndex := MetadataAt(info, r.keyIndex).(disabled := Some(r.note))])
  }

  ghost predicate NoneEnabled(c: Setup, row: Row) {
    forall i :: 0 <= i < |KeysOf(c, row)| ==> KeyStatus(row.info, i) != G.ENABLED
  }

  /** The copy with the key and its channel marked. */
  ghost function Marked(c: Setup, copied: Row, r: Report): Row {
    var row := copied.(info := MarkedInfo(copied.info, r));
    if row.info.isMultiKey && NoneEnabled(c, row) then row.(status := G.AUTO_DISABLED) else row
  }

  function NowDisabled(copied: Row, marked: Row): bool {
    copied.status != G.AUTO_DISABLED && marked.status == G.AUTO_DISABLED
  }

  predicate Skips(c: Setup, copied: Row, r: Report) {
    !c.autoDisabled || KeyStatus(copied.info, r.keyIndex) == G.AUTO_DISABLED
  }

  /** CacheUpdateChannelMultiKeyInfo: the key information is replaced; the status only ever becomes
      auto-disabled, which also takes the channel off the routes. */
  function CacheWritten(s: State, info: KeyInfo, status: int): State {
    if s.cached.None? then s
    else if status == G.AUTO_DISABLED && s.cached.value.status != G.AUTO_DISABLED
    then s.(cached := Some(s.cached.value.(info := info, status := G.AUTO_DISABLED)), listed := false)
    else s.(cached := Some(s.cached.value.(info := info)))
  }

  /** The first half of a report: marking the copy, the cache write and the notices. */
  ghost function AfterMark(c: Setup, s: State, copied: Row, r: Report): State {
    var marked := Marked(c, copied, r);
    var news := NowDisabled(copied, marked);
    CacheWritten(s, marked.info, if news then marked.status else G.ENABLED)
    .(keyNotices := s.keyNotices + [r.keyIndex],
      channelNotices := s.channelNotices + if news && KeysOf(c, copied) != [] then 1 else 0)
  }

  /** The second half: the transaction. */
  ghost function AfterSave(c: Setup, s: State, copied: Row, r: Report): State {
    var marked := Marked(c, copied, r);
    if !r.saved then s
    else if NowDisabled(copied, marked)
    then s.(row := s.row.(info := marked.info, status := G.AUTO_DISABLED), abilitiesOn := false)
    else s.(row := s.row.(info := marked.info))
  }

  /** InitChannelCache publishing the row it has read: cached and routed if its status is enabled. */
  function Published(s: State, row: Row): State {
    if row.status == G.ENABLED then s.(cached := Some(row), listed := true) else s.(cached := None, listed := false)
  }

  function MaybePublished(s: State, row: Option<Row>): State {
    if row.Some? then Published(s, row.value) else s
  }

  /** A whole report; `early` and `late` are the rows last published between its copy and its cache write,
      and between its cache write and its transaction. */
  ghost function Disturbed(c: Setup, s: State, r: Report, early: Option<Row>, late: Option<Row>): State {
    var copied := Fresh(s);
    if Skips(c, copied, r) then s
    else AfterSave(c, MaybePublished(AfterMark(c, MaybePublished(s, early), copied, r), late), copied, r)
  }

  /** A whole report that no publication falls into. */
  ghost function Handled(c: Setup, s: State, r: Report): State {
    Disturbed(c, s, r, None, None)
  }

  /** The part of a report that works on the copy; `told` when the channel falls and has keys. */
  method MarkCopy(c: Setup, copy: Row, r: Report) returns (marked: Row, told: bool)
    ensures marked == Marked(c, copy, r)
    ensures told == (NowDisabled(copy, marked) && KeysOf(c, copy) != [])
  {
    var channel := new KeyChannel(c.vertex, c.decode, copy);
    var statuses := channel.info.keyStatusList[r.keyIndex := G.AUTO_DISABLED];
    var metadata :=
      if r.keyIndex in channel.info.keyMetadata then channel.info.keyMetadata[r.keyIndex] else FreshMetadata("");
    metadata := metadata.(disabled := Some(r.note));
    channel.info := channel.info.(keyStatusList := statuses,
                                  keyMetadata := channel.info.keyMetadata[r.keyIndex := metadata]);
    told := channel.CheckAndUpdateChannelStatus();
    assert AllDisabled(channel.Slots()) <==> NoneEnabled(c, copy.(info := channel.info));
    marked := Row(channel.key, channel.status, channel.info);
  }

  class Channel {
    const setup: Setup
    var cached: Option<Row>
    var row: Row
    var listed: bool
    var abilitiesOn: bool
    var keyNotices: seq<int>
    var channelNotices: nat

    constructor (setup: Setup, s: State)
      ensures this.setup == setup && Now() == s
    {
      this.setup := setup;
      cached, row, listed, abilitiesOn := s.cached, s.row, s.listed, s.abilitiesOn;
      keyNotices, channelNotices := s.keyNotices, s.channelNotices;
    }

    function Now(): State
      reads this
    {
      State(cached, row, listed, abilitiesOn, keyNotices, channelNotices)
    }

    /** HandleKeyError of a caller whose own copy says `isMultiKey`. An error exactly when the save fails. */
    method HandleKeyError(isMultiKey: bool, r: Report) returns (ok: bool)
      modifies this
      ensures Now() == if isMultiKey then Handled(setup, old(Now()), r) else old(Now())
      ensures ok <==> !isMultiKey || Skips(setup, old(Fresh(Now())), r) || r.saved
    {
      if !isMultiKey {
        return true;
      }
      var copy := if cached.Some? then cached.value else row;
      if !setup.autoDisabled || KeyStatus(copy.info, r.keyIndex) == G.AUTO_DISABLED {
        return true;
      }
      var marked, told := MarkCopy(setup, copy, r);
      var channelNowDisabled := copy.status != G.AUTO_DISABLED && marked.status == G.AUTO_DISABLED;
      var newCacheStatus := if channelNowDisabled then marked.status else G.ENABLED;
      if cached.Some? {
        var was := cached.value.status;
        cached := Some(cached.value.(info := marked.info));
        if newCacheStatus == G.AUTO_DISABLED && was != G.AUTO_DISABLED {
          cached := Some(cached.value.(status := newCacheStatus));
          listed := false;
        }
      }
      if told {
        channelNotices := channelNotices + 1;
      }
      keyNotices := keyNotices + [r.keyIndex];
      assert Now() == AfterMark(setup, old(Now()), copy, r);
      if !r.saved {
        return false;
      }
      if channelNowDisabled {
        abilitiesOn := false;
      }
      row := row.(info := marked.info);
      if channelNowDisabled {
        row := row.(status := G.AUTO_DISABLED);
      }
      ok := true;
    }
  }

  // ---------- threads and the lock ----------

  /** Where a report stands: before the lock, holding it, after its read, after its cache write, done. */
  datatype Phase =
    | Waiting
    | Locked
    | Copied(copied: Row, early: Option<Row>)
    | Written(copied: Row, early: Option<Row>, late: Option<Row>)
    | Done

  /** A finished report, or a publication that fell into none. */
  datatype Event = Reported(thread: nat, early: Option<Row>, late: Option<Row>) | Refreshed(row: Row)

  /** One report per thread, the state they share, the lock, the rows that cache syncs have read so far, and
      the events so far in order. */
  datatype Machine = Machine(s: State, lock: Option<nat>, phases: seq<Phase>, loads: seq<Row>, log: seq<Event>)

  /** A cache sync reads the row and publishes it later, at any time: it never takes the lock of a channel. */
  datatype Action = Acquire(t: nat) | Copy(t: nat) | Write(t: nat) | Save(t: nat) | Load | Publish(i: nat)

  ghost function Started(s: State, reports: seq<Report>): Machine {
    Machine(s, None, seq(|reports|, i => Waiting), [], [])
  }

  predicate Enabled(m: Machine, a: Action) {
    match a
    case Acquire(t) => t < |m.phases| && m.phases[t] == Waiting && m.lock == None
    case Copy(t) => t < |m.phases| && m.phases[t] == Locked
    case Write(t) => t < |m.phases| && m.phases[t].Copied?
    case Save(t) => t < |m.phases| && m.phases[t].Written?
    case Load => true
    case Publish(i) => i < |m.loads| && (m.lock.Some? ==> m.lock.value < |m.phases|)
  }

  /** The phase of a report that a publication falls into. */
  function Overtaken(p: Phase, row: Row): Phase {
    match p
    case Copied(copied, early) => Copied(copied, Some(row))
    case Written(copied, early, late) => Written(copied, early, Some(row))
    case _ => p
  }

  function AfterPublish(m: Machine, row: Row): Machine
    requires m.lock.Some? ==> m.lock.value < |m.phases|
  {
    var published := m.(s := Published(m.s, row));
    if m.lock.Some? && !m.phases[m.lock.value].Locked?
    then published.(phases := m.phases[m.lock.value := Overtaken(m.phases[m.lock.value], row)])
    else published.(log := m.log + [Refreshed(row)])
  }

  /** One atomic action. */
  ghost function Next(c: Setup, reports: seq<Report>, m: Machine, a: Action): Machine
    requires |m.phases| == |reports| && Enabled(m, a)
  {
    match a
    case Acquire(t) => m.(lock := Some(t), phases := m.phases[t := Locked])
    case Copy(t) =>
      if Skips(c, Fresh(m.s), reports[t]) then Finished(m, t, None, None)
      else m.(phases := m.phases[t := Copied(Fresh(m.s), None)])
    case Write(t) =>
      var Copied(copied, early) := m.phases[t];
      m.(s := AfterMark(c, m.s, copied, reports[t]), phases := m.phases[t := Written(copied, early, None)])
    case Save(t) =>
      var Written(copied, early, late) := m.phases[t];
      Finished(m.(s := AfterSave(c, m.s, copied, reports[t])), t, early, late)
    case Load => m.(loads := m.loads + [m.s.row])
    case Publish(i) => AfterPublish(m, m.loads[i])
  }

  ghost function Finished(m: Machine, t: nat, early: Option<Row>, late: Option<Row>): Machine
    requires t < |m.phases|
  {
    m.(lock := None, phases := m.phases[t := Done], log := m.log + [Reported(t, early, late)])
  }

  /** The machine states of a run, from the start on. */
  ghost predicate Run(c: Setup, reports: seq<Report>, s: State, actions: seq<Action>, states: seq<Machine>) {
    && |states| == |actions| + 1
    && states[0] == Started(s, reports)
    && forall i :: 0 <= i < |actions| ==> Moves(c, reports, states[i], actions[i], states[i + 1])
  }

  ghost predicate Moves(c: Setup, reports: seq<Report>, m: Machine, a: Action, next: Machine) {
    |m.phases| == |reports| && Enabled(m, a) && next == Next(c, reports, m, a)
  }

  ghost predicate Known(reports: seq<Report>, log: seq<Event>) {
    forall e :: e in log && e.Reported? ==> e.thread < |reports|
  }

  /** What one event does. */
  ghost function Effect(c: Setup, reports: seq<Report>, s: State, e: Event): State
    requires e.Reported? ==> e.thread < |reports|
  {
    match e
    case Reported(t, early, late) => Disturbed(c, s, reports[t], early, late)
    case Refreshed(row) => Published(s, row)
  }

  /** The events replayed one at a time. */
  ghost function Replay(c: Setup, reports: seq<Report>, s: State, log: seq<Event>): State
    requires Known(reports, log)
  {
    if log == [] then s
    else
      assert log[|log| - 1] in log;
      Effect(c, reports, Replay(c, reports, s, log[..|log| - 1]), log[|log| - 1])
  }

  predicate Holds(p: Phase) {
    p.Locked? || p.Copied? || p.Written?
  }

  /** Only the holder of the lock is under way, and the log names exactly the finished reports, once each. */
  ghost predicate Ordered(reports: seq<Report>, m: Machine) {
    && |m.phases| == |reports|
    && (forall t :: 0 <= t < |m.phases| && Holds(m.phases[t]) ==> m.lock == Some(t))
    && (m.lock.Some? ==> m.lock.value < |m.phases| && Holds(m.phases[m.lock.value]))
    && Known(reports, m.log)
    && (forall t: nat :: t < |reports| ==> (m.phases[t] == Done <==> Tells(m.log, t)))
    && (forall i, j ::
          0 <= i < j < |m.log| && m.log[i].Reported? && m.log[j].Reported? ==>
            m.log[i].thread != m.log[j].thread)
  }

  ghost predicate Tells(log: seq<Event>, t: nat) {
    exists i :: 0 <= i < |log| && log[i].Reported? && log[i].thread == t
  }

  /** The shared state is what replaying the log gives, plus what the holder and publications under it did. */
  ghost predicate Explained(c: Setup, reports: seq<Report>, s: State, m: Machine)
    requires Ordered(reports, m)
  {
    var replayed := Replay(c, reports, s, m.log);
    match m.lock
    case None => m.s == replayed
    case Some(t) =>
      match m.phases[t]
      case Copied(copied, early) =>
        copied == Fresh(replayed) && !Skips(c, copied, reports[t]) && m.s == MaybePublished(replayed, early)
      case Written(copied, early, late) =>
        && copied == Fresh(replayed) && !Skips(c, copied, reports[t])
        && m.s == MaybePublished(AfterMark(c, MaybePublished(replayed, early), copied, reports[t]), late)
      case _ => m.s == replayed
  }

  ghost predicate Serial(c: Setup, reports: seq<Report>, s: State, m: Machine) {
    Ordered(reports, m) && Explained(c, reports, s, m)
  }

  lemma TellsMore(log: seq<Event>, e: Event, t: nat)
    ensures Tells(log + [e], t) <==> Tells(log, t) || (e.Reported? && e.thread == t)
  {
    if Tells(log, t) {
      var i :| 0 <= i < |log| && log[i].Reported? && log[i].thread == t;
      assert (log + [e])[i] == log[i];
    }
    assert (log + [e])[|log|] == e;
  }

  /** A log that grows by one event, for the phases that go with it. */
  lemma LogGrows(reports: seq<Report>, m: Machine, e: Event, phases: seq<Phase>)
    requires Ordered(reports, m)
    requires e.Reported? ==> e.thread < |reports| && m.phases[e.thread] != Done && phases == m.phases[e.thread := Done]
    requires e.Refreshed? ==> phases == m.phases
    ensures Known(reports, m.log + [e])
    ensures forall t: nat :: t < |reports| ==> (phases[t] == Done <==> Tells(m.log + [e], t))
    ensures forall i, j :: 0 <= i < j < |m.log + [e]| && (m.log + [e])[i].Reported? && (m.log + [e])[j].Reported?
                       ==> (m.log + [e])[i].thread != (m.log + [e])[j].thread
  {
    var log := m.log + [e];
    forall t: nat | t < |reports| ensures phases[t] == Done <==> Tells(log, t) {
      TellsMore(m.log, e, t);
    }
    forall i | 0 <= i < |m.log| && m.log[i].Reported? && e.Reported? ensures m.log[i].thread != e.thread {
      assert m.log[i] in m.log;
      assert Tells(m.log, m.log[i].thread);
    }
  }

  lemma StepIsOrdered(c: Setup, reports: seq<Report>, m: Machine, a: Action)
    requires Ordered(reports, m) && Enabled(m, a)
    ensures Ordered(reports, Next(c, reports, m, a))
  {
    var next := Next(c, reports, m, a);
    if next.log != m.log {
      var e := next.log[|m.log|];
      assert next.log == m.log + [e];
      LogGrows(reports, m, e, next.phases);
    } else {
      assert forall t :: 0 <= t < |m.phases| ==> (next.phases[t] == Done <==> m.phases[t] == Done);
    }
  }

  /** A sync that publishes while no report is between its read and its save is an event of its own. */
  lemma PublishApart(c: Setup, reports: seq<Report>, s: State, m: Machine, row: Row)
    requires Serial(c, reports, s, m) && (m.lock.Some? ==> m.phases[m.lock.value].Locked?)
    requires Ordered(reports, AfterPublish(m, row))
    ensures Explained(c, reports, s, AfterPublish(m, row))
  {
    var next := AfterPublish(m, row);
    assert next.log[..|next.log| - 1] == m.log;
  }

  lemma PublishIsExplained(c: Setup, reports: seq<Report>, s: State, m: Machine, i: nat)
    requires Serial(c, reports, s, m) && Enabled(m, Publish(i)) && Ordered(reports, AfterPublish(m, m.loads[i]))
    ensures Explained(c, reports, s, AfterPublish(m, m.loads[i]))
  {
    if m.lock == None || m.phases[m.lock.value].Locked? {
      PublishApart(c, reports, s, m, m.loads[i]);
    } else {
      assert AfterPublish(m, m.loads[i]).log == m.log;
    }
  }

  /** The holder of the lock is done: its whole report is the next event. */
  lemma FinishIsExplained(c: Setup, reports: seq<Report>, s: State, m: Machine, t: nat, early: Option<Row>,
                          late: Option<Row>)
    requires Ordered(reports, m) && t < |reports| && Ordered(reports, Finished(m, t, early, late))
    requires m.s == Disturbed(c, Replay(c, reports, s, m.log), reports[t], early, late)
    ensures Explained(c, reports, s, Finished(m, t, early, late))
  {
    var next := Finished(m, t, early, late);
    assert next.log[..|next.log| - 1] == m.log;
  }

  lemma StepIsExplained(c: Setup, reports: seq<Report>, s: State, m: Machine, a: Action)
    requires Serial(c, reports, s, m) && Enabled(m, a) && Ordered(reports, Next(c, reports, m, a))
    ensures Explained(c, reports, s, Next(c, reports, m, a))
  {
    match a
    case Publish(i) => PublishIsExplained(c, reports, s, m, i);
    case Save(t) =>
      var Written(copied, early, late) := m.phases[t];
      FinishIsExplained(c, reports, s, m.(s := AfterSave(c, m.s, copied, reports[t])), t, early, late);
    case Copy(t) =>
      if Skips(c, Fresh(m.s), reports[t]) {
        FinishIsExplained(c, reports, s, m, t, None, None);
      }
    case _ =>
  }

  /** Every interleaving is serialisable: the lock order explains the shared state, whichever saves fail and
      whenever syncs read and publish. */
  lemma {:induction false} RunIsSerial(c: Setup, reports: seq<Report>, s: State, actions: seq<Action>,
                                       states: seq<Machine>, i: nat)
    requires Run(c, reports, s, actions, states) && i < |states|
    ensures Serial(c, reports, s, states[i])
  {
    if i > 0 {
      RunIsSerial(c, reports, s, actions, states, i - 1);
      StepIsOrdered(c, reports, states[i - 1], actions[i - 1]);
      StepIsExplained(c, reports, s, states[i - 1], actions[i - 1]);
    }
  }

  // ---------- what the reports add up to ----------

  predicate Agreed(s: State) {
    s.cached.Some? ==> s.cached.value == s.row
  }

  /** A multi-key channel whose cache, row and routes tell the same story. */
  predicate Sound(c: Setup, s: State) {
    && c.autoDisabled && s.row.info.isMultiKey && KeysOf(c, s.row) != [] && Agreed(s)
    && (s.listed <==> s.cached.Some? && s.row.status == G.ENABLED)
  }

  /** One notice was added for each told key. */
  predicate NoticesOf(before: seq<int>, told: set<int>, notices: seq<int>) {
    before <= notices && |notices| == |before| + |told| && Elements(notices[|before|..]) == told
  }

  /** The key of a report, unless it was auto-disabled from the start. */
  function News(s0: State, k: int): set<int> {
    if KeyStatus(s0.row.info, k) == G.AUTO_DISABLED then {} else {k}
  }

  /** Marking these keys leaves none enabled. */
  ghost predicate Down(c: Setup, s0: State, told: set<int>) {
    told != {} && forall i :: 0 <= i < |KeysOf(c, s0.row)| ==> i in told || KeyStatus(s0.row.info, i) != G.ENABLED
  }

  /** What a log adds up to: the keys reported for the first time, those of them that reached the row, and
      whether the report that brought the channel down was saved. */
  datatype Tally = Tally(told: set<int>, stored: set<int>, fallSaved: bool)

  ghost function Counted(c: Setup, s0: State, y: Tally, r: Report): Tally {
    if News(s0, r.keyIndex) <= y.told then y
    else
      var told := y.told + News(s0, r.keyIndex);
      Tally(told, if r.saved then told else y.stored,
            if !Down(c, s0, y.told) && Down(c, s0, told) then r.saved else y.fallSaved)
  }

  ghost function TallyOf(c: Setup, reports: seq<Report>, s0: State, log: seq<Event>): Tally
    requires Known(reports, log)
  {
    if log == [] then Tally({}, {}, false)
    else
      var last := log[|log| - 1];
      var y := TallyOf(c, reports, s0, log[..|log| - 1]);
      assert last in log;
      if last.Reported? then Counted(c, s0, y, reports[last.thread]) else y
  }

  /** The row with exactly these keys auto-disabled on top of the initial ones. */
  ghost predicate HasMarks(s0: State, row: Row, marks: set<int>) {
    && row.key == s0.row.key && row.info.isMultiKey
    && forall k :: KeyStatus(row.info, k) == if k in marks then G.AUTO_DISABLED else KeyStatus(s0.row.info, k)
  }

  /** What the next report will read holds every key reported so far, each told once, and is down exactly
      when it was or no key is left, told of once; the row holds what was saved. */
  ghost predicate Outcome(c: Setup, s0: State, y: Tally, s: State) {
    && HasMarks(s0, Fresh(s), y.told)
    && Fresh(s).status == (if Down(c, s0, y.told) then G.AUTO_DISABLED else s0.row.status)
    && NoticesOf(s0.keyNotices, y.told, s.keyNotices)
    && s.channelNotices
         == s0.channelNotices + (if s0.row.status != G.AUTO_DISABLED && Down(c, s0, y.told) then 1 else 0)
    && (s.listed <==> s.cached.Some? && s.cached.value.status == G.ENABLED)
    && OutcomeOfRow(c, s0, y, s)
  }

  ghost predicate OutcomeOfRow(c: Setup, s0: State, y: Tally, s: State) {
    && y.stored <= y.told && (forall k :: k in y.told ==> KeyStatus(s0.row.info, k) != G.AUTO_DISABLED)
    && HasMarks(s0, s.row, y.stored)
    && (s.row.info == Fresh(s).info <==> y.stored == y.told)
    && (y.fallSaved ==> Down(c, s0, y.told))
    && s.row.status == (if y.fallSaved then G.AUTO_DISABLED else s0.row.status)
    && s.abilitiesOn == (s0.abilitiesOn && !(y.fallSaved && s0.row.status != G.AUTO_DISABLED))
  }

  lemma MarkedStatus(c: Setup, row: Row, r: Report)
    requires row.info.isMultiKey
    ensures var marked := Marked(c, row, r);
            && (NoneEnabled(c, row) ==> NoneEnabled(c, marked))
            && marked.status == (if NoneEnabled(c, marked) then G.AUTO_DISABLED else row.status)
            && marked.key == row.key && marked.info.isMultiKey
            && forall k :: KeyStatus(marked.info, k)
                 == if k == r.keyIndex then G.AUTO_DISABLED else KeyStatus(row.info, k)
  {
    var marked := Marked(c, row, r);
    forall i | 0 <= i < |KeysOf(c, row)| && NoneEnabled(c, row) ensures KeyStatus(marked.info, i) != G.ENABLED {
      assert KeyStatus(row.info, i) != G.ENABLED;
    }
  }

  lemma NoticesGrow(before: seq<int>, told: set<int>, notices: seq<int>, k: int)
    requires NoticesOf(before, told, notices) && k !in told
    ensures NoticesOf(before, told + {k}, notices + [k])
  {
    var n := |before|;
    ElementsOneMore(notices[n..], k);
    assert (notices + [k])[n..] == notices[n..] + [k];
  }

  /** What an undisturbed report that does not skip makes of cache and row. */
  lemma HandledIsMarked(c: Setup, s: State, r: Report)
    requires !Skips(c, Fresh(s), r) && (s.listed ==> s.cached.Some?)
    ensures var marked := Marked(c, Fresh(s), r);
            var news := NowDisabled(Fresh(s), marked);
            var row := s.row.(info := marked.info, status := if news then G.AUTO_DISABLED else s.row.status);
            Handled(c, s, r) == State(if s.cached.Some? then Some(marked) else None, if r.saved then row else s.row,
                                      s.listed && !news, s.abilitiesOn && !(r.saved && news),
                                      s.keyNotices + [r.keyIndex],
                                      s.channelNotices + if news && KeysOf(c, Fresh(s)) != [] then 1 else 0)
  {
  }

  /** The marked copy of a channel with these marks has one more. */
  lemma MarkedHasMarks(c: Setup, s0: State, told: set<int>, copied: Row, r: Report)
    requires HasMarks(s0, copied, told) && News(s0, r.keyIndex) == {r.keyIndex}
    requires copied.status == if Down(c, s0, told) then G.AUTO_DISABLED else s0.row.status
    ensures var marked := Marked(c, copied, r);
            && HasMarks(s0, marked, told + {r.keyIndex})
            && marked.status == (if Down(c, s0, told + {r.keyIndex}) then G.AUTO_DISABLED else s0.row.status)
            && (Down(c, s0, told) ==> Down(c, s0, told + {r.keyIndex}))
  {
    MarkedStatus(c, copied, r);
    var marked := Marked(c, copied, r);
    assert NoneEnabled(c, marked) <==> Down(c, s0, told + {r.keyIndex}) by {
      forall i | 0 <= i < |KeysOf(c, s0.row)|
        ensures KeyStatus(marked.info, i) != G.ENABLED
                <==> i in told + {r.keyIndex} || KeyStatus(s0.row.info, i) != G.ENABLED
      {
      }
    }
  }

  lemma SameInfoSameMarks(s0: State, a: Row, b: Row, marks: set<int>, more: set<int>)
    requires HasMarks(s0, a, marks) && HasMarks(s0, b, more) && a.info == b.info
    requires forall k :: k in marks + more ==> KeyStatus(s0.row.info, k) != G.AUTO_DISABLED
    ensures marks == more
  {
    forall k ensures k in marks <==> k in more {
      assert KeyStatus(a.info, k) == KeyStatus(b.info, k);
    }
  }

  lemma HandledKeepsOutcome(c: Setup, s0: State, y: Tally, s: State, r: Report)
    requires Sound(c, s0) && Outcome(c, s0, y, s)
    requires Skips(c, Fresh(s), r) || r.saved || s.cached.Some?
    ensures Outcome(c, s0, Counted(c, s0, y, r), Handled(c, s, r))
  {
    if !Skips(c, Fresh(s), r) {
      MarkedHasMarks(c, s0, y.told, Fresh(s), r);
      NoticesGrow(s0.keyNotices, y.told, s.keyNotices, r.keyIndex);
      HandledIsMarked(c, s, r);
      assert Counted(c, s0, y, r).told == y.told + {r.keyIndex};
      RowKeepsOutcome(c, s0, y, s, r);
    }
  }

  lemma RowKeepsOutcome(c: Setup, s0: State, y: Tally, s: State, r: Report)
    requires Sound(c, s0) && Outcome(c, s0, y, s)
    requires !Skips(c, Fresh(s), r) && (r.saved || s.cached.Some?)
    ensures OutcomeOfRow(c, s0, Counted(c, s0, y, r), Handled(c, s, r))
  {
    var next := Handled(c, s, r);
    MarkedHasMarks(c, s0, y.told, Fresh(s), r);
    HandledIsMarked(c, s, r);
    if !r.saved && next.row.info == Fresh(next).info {
      SameInfoSameMarks(s0, next.row, Fresh(next), y.stored, y.told + {r.keyIndex});
    }
  }

  /** Publishing the current row while the cache agrees with it changes nothing that counts. */
  lemma PublishKeepsOutcome(c: Setup, s0: State, y: Tally, s: State)
    requires Outcome(c, s0, y, s) && Agreed(s)
    ensures Outcome(c, s0, y, Published(s, s.row)) && Agreed(Published(s, s.row))
    ensures Fresh(Published(s, s.row)) == Fresh(s)
  {
  }

  /** An event at which nothing can be lost: a publication of the current row while the cache agrees with it
      and no report stands between its writes; a report that is saved, or whose marks the cache holds. */
  ghost predicate OrderlyEvent(c: Setup, reports: seq<Report>, before: State, e: Event)
    requires e.Reported? ==> e.thread < |reports|
  {
    match e
    case Refreshed(row) => Agreed(before) && row == before.row
    case Reported(t, early, late) =>
      && late == None && (early.Some? ==> Agreed(before) && early.value == before.row)
      && (Skips(c, Fresh(before), reports[t]) || reports[t].saved || MaybePublished(before, early).cached.Some?)
  }

  ghost predicate Orderly(c: Setup, reports: seq<Report>, s0: State, log: seq<Event>)
    requires Known(reports, log)
  {
    log != [] ==>
      && Orderly(c, reports, s0, log[..|log| - 1])
      && (assert log[|log| - 1] in log;
          OrderlyEvent(c, reports, Replay(c, reports, s0, log[..|log| - 1]), log[|log| - 1]))
  }

  lemma EventKeepsOutcome(c: Setup, reports: seq<Report>, s0: State, y: Tally, s: State, e: Event)
    requires e.Reported? ==> e.thread < |reports|
    requires Sound(c, s0) && Outcome(c, s0, y, s) && OrderlyEvent(c, reports, s, e)
    ensures Outcome(c, s0, if e.Reported? then Counted(c, s0, y, reports[e.thread]) else y, Effect(c, reports, s, e))
  {
    match e
    case Refreshed(row) => PublishKeepsOutcome(c, s0, y, s);
    case Reported(t, early, late) =>
      var s1 := MaybePublished(s, early);
      if early.Some? {
        PublishKeepsOutcome(c, s0, y, s);
      }
      if Skips(c, Fresh(s), reports[t]) {
        HandledKeepsOutcome(c, s0, y, s, reports[t]);
      } else {
        HandledKeepsOutcome(c, s0, y, s1, reports[t]);
      }
  }

  lemma {:induction false} ReplayOutcome(c: Setup, reports: seq<Report>, s0: State, log: seq<Event>)
    requires Sound(c, s0) && Known(reports, log) && Orderly(c, reports, s0, log)
    ensures Outcome(c, s0, TallyOf(c, reports, s0, log), Replay(c, reports, s0, log))
  {
    if log == [] {
      assert Elements(s0.keyNotices[|s0.keyNotices|..]) == {};
    } else {
      var front, last := log[..|log| - 1], log[|log| - 1];
      assert last in log;
      ReplayOutcome(c, reports, s0, front);
      EventKeepsOutcome(c, reports, s0, TallyOf(c, reports, s0, front), Replay(c, reports, s0, front), last);
    }
  }

  /** The keys of the finished reports that were not auto-disabled from the start. */
  ghost function ToldBy(reports: seq<Report>, s0: State, phases: seq<Phase>): set<int> {
    set t | 0 <= t < |reports| && t < |phases| && phases[t] == Done
        && KeyStatus(s0.row.info, reports[t].keyIndex) != G.AUTO_DISABLED
      :: reports[t].keyIndex
  }

  ghost predicate NewsIn(reports: seq<Report>, s0: State, log: seq<Event>, k: int) {
    && KeyStatus(s0.row.info, k) != G.AUTO_DISABLED
    && exists i :: 0 <= i < |log| && log[i].Reported? && log[i].thread < |reports|
         && reports[log[i].thread].keyIndex == k
  }

  lemma {:induction false} TallyTells(c: Setup, reports: seq<Report>, s0: State, log: seq<Event>, k: int)
    requires Known(reports, log)
    ensures k in TallyOf(c, reports, s0, log).told <==> NewsIn(reports, s0, log, k)
  {
    if log != [] {
      var front, last := log[..|log| - 1], log[|log| - 1];
      TallyTells(c, reports, s0, front, k);
      assert last in log;
      if NewsIn(reports, s0, front, k) {
        var i :| 0 <= i < |front| && front[i].Reported? && front[i].thread < |reports|
            && reports[front[i].thread].keyIndex == k;
        assert log[i] == front[i];
      }
    }
  }

  lemma TallyTellsOfTheDone(c: Setup, reports: seq<Report>, s0: State, m: Machine)
    requires Ordered(reports, m)
    ensures TallyOf(c, reports, s0, m.log).told == ToldBy(reports, s0, m.phases)
  {
    forall k ensures k in TallyOf(c, reports, s0, m.log).told <==> k in ToldBy(reports, s0, m.phases) {
      TallyTells(c, reports, s0, m.log, k);
      if NewsIn(reports, s0, m.log, k) {
        var i :| 0 <= i < |m.log| && m.log[i].Reported? && m.log[i].thread < |reports|
            && reports[m.log[i].thread].keyIndex == k;
        assert Tells(m.log, m.log[i].thread);
      }
      if k in ToldBy(reports, s0, m.phases) {
        var t :| 0 <= t < |reports| && m.phases[t] == Done && reports[t].keyIndex == k;
        assert Tells(m.log, t);
      }
    }
  }

  // ---------- runs in which nothing can be lost ----------

  /** The step cannot lose anything: a publication is of the current row, at a time when cache and row agree
      and no report stands between its writes; a report that will not be saved finds the channel cached. */
  predicate Gentle(reports: seq<Report>, m: Machine, a: Action) {
    match a
    case Publish(i) => i < |m.loads| && m.loads[i] == m.s.row && Agreed(m.s) && BetweenWrites(m) == None
    case Write(t) => t < |reports| ==> reports[t].saved || m.s.cached.Some?
    case _ => true
  }

  /** The report that stands between its cache write and its save. */
  function BetweenWrites(m: Machine): Option<nat> {
    if m.lock.Some? && m.lock.value < |m.phases| && m.phases[m.lock.value].Written? then m.lock else None
  }

  /** What is gentle about the report under way. */
  ghost predicate HolderGentle(c: Setup, reports: seq<Report>, s0: State, m: Machine)
    requires Ordered(reports, m)
  {
    m.lock.Some? ==>
      var replayed := Replay(c, reports, s0, m.log);
      match m.phases[m.lock.value]
      case Copied(_, early) => early.Some? ==> Agreed(replayed) && early.value == replayed.row
      case Written(_, early, late) =>
        && late == None && (early.Some? ==> Agreed(replayed) && early.value == replayed.row)
        && (reports[m.lock.value].saved || MaybePublished(replayed, early).cached.Some?)
      case _ => true
  }

  lemma OrderlyGrows(c: Setup, reports: seq<Report>, s0: State, log: seq<Event>, e: Event)
    requires Known(reports, log) && Known(reports, log + [e]) && Orderly(c, reports, s0, log)
    requires e.Reported? ==> e.thread < |reports|
    requires OrderlyEvent(c, reports, Replay(c, reports, s0, log), e)
    ensures Orderly(c, reports, s0, log + [e])
  {
    assert (log + [e])[..|log|] == log && (log + [e])[|log|] == e;
  }

  lemma GentlePublish(c: Setup, reports: seq<Report>, s0: State, m: Machine, row: Row)
    requires Serial(c, reports, s0, m) && Orderly(c, reports, s0, m.log) && HolderGentle(c, reports, s0, m)
    requires Ordered(reports, AfterPublish(m, row))
    requires Agreed(m.s) && row == m.s.row && BetweenWrites(m) == None
    ensures Orderly(c, reports, s0, AfterPublish(m, row).log) && HolderGentle(c, reports, s0, AfterPublish(m, row))
  {
    if m.lock == None || m.phases[m.lock.value].Locked? {
      OrderlyGrows(c, reports, s0, m.log, Refreshed(row));
    }
  }

  lemma GentleFinish(c: Setup, reports: seq<Report>, s0: State, m: Machine, t: nat, early: Option<Row>, next: Machine)
    requires Ordered(reports, m) && Orderly(c, reports, s0, m.log) && t < |reports| && Ordered(reports, next)
    requires OrderlyEvent(c, reports, Replay(c, reports, s0, m.log), Reported(t, early, None))
    requires next.log == m.log + [Reported(t, early, None)] && next.lock == None
    ensures Orderly(c, reports, s0, next.log) && HolderGentle(c, reports, s0, next)
  {
    OrderlyGrows(c, reports, s0, m.log, Reported(t, early, None));
  }

  lemma GentleStep(c: Setup, reports: seq<Report>, s0: State, m: Machine, a: Action)
    requires Serial(c, reports, s0, m) && Orderly(c, reports, s0, m.log) && HolderGentle(c, reports, s0, m)
    requires Enabled(m, a) && Gentle(reports, m, a) && Ordered(reports, Next(c, reports, m, a))
    ensures var next := Next(c, reports, m, a);
            Orderly(c, reports, s0, next.log) && HolderGentle(c, reports, s0, next)
  {
    var next := Next(c, reports, m, a);
    match a
    case Publish(i) => GentlePublish(c, reports, s0, m, m.loads[i]);
    case Save(t) => GentleFinish(c, reports, s0, m, t, m.phases[t].early, next);
    case Copy(t) =>
      if Skips(c, Fresh(m.s), reports[t]) {
        GentleFinish(c, reports, s0, m, t, None, next);
      }
    case _ =>
  }

  predicate GentleUpTo(reports: seq<Report>, actions: seq<Action>, states: seq<Machine>, i: nat)
    requires i <= |actions| && i < |states|
  {
    forall j :: 0 <= j < i ==> Gentle(reports, states[j], actions[j])
  }

  lemma {:induction false} GentleRunIsOrderly(c: Setup, reports: seq<Report>, s0: State,
                                              actions: seq<Action>, states: seq<Machine>, i: nat)
    requires Run(c, reports, s0, actions, states) && i < |states| && GentleUpTo(reports, actions, states, i)
    ensures Serial(c, reports, s0, states[i])
    ensures Orderly(c, reports, s0, states[i].log) && HolderGentle(c, reports, s0, states[i])
  {
    RunIsSerial(c, reports, s0, actions, states, i);
    if i > 0 {
      GentleRunIsOrderly(c, reports, s0, actions, states, i - 1);
      GentleStep(c, reports, s0, states[i - 1], actions[i - 1]);
    }
  }

  /** Whenever the lock is free in a gentle run, in which any save may fail: what the next report reads has
      exactly the reported keys auto-disabled on top of the initial ones, each told once, the channel told
      once if it fell; the row holds the same exactly when the last first report of a key was saved, and it
      is down exactly when it was or the report that brought the channel down was saved. */
  lemma ReportsAddUp(c: Setup, reports: seq<Report>, s0: State, actions: seq<Action>, states: seq<Machine>, i: nat)
    requires Sound(c, s0) && Run(c, reports, s0, actions, states) && i < |states| && states[i].lock == None
    requires GentleUpTo(reports, actions, states, i)
    ensures Ordered(reports, states[i])
    ensures Outcome(c, s0, TallyOf(c, reports, s0, states[i].log), states[i].s)
    ensures TallyOf(c, reports, s0, states[i].log).told == ToldBy(reports, s0, states[i].phases)
  {
    GentleRunIsOrderly(c, reports, s0, actions, states, i);
    ReplayOutcome(c, reports, s0, states[i].log);
    TallyTellsOfTheDone(c, reports, s0, states[i]);
  }

  /** A run without publications on a cached channel is gentle, whichever saves fail. */
  lemma {:induction false} UnsyncedRunIsGentle(c: Setup, reports: seq<Report>, s0: State,
                                               actions: seq<Action>, states: seq<Machine>, i: nat)
    requires Run(c, reports, s0, actions, states) && i < |states| && s0.cached.Some?
    requires forall j :: 0 <= j < i ==> !actions[j].Publish?
    ensures GentleUpTo(reports, actions, states, i) && states[i].s.cached.Some?
  {
    if i > 0 {
      UnsyncedRunIsGentle(c, reports, s0, actions, states, i - 1);
    }
  }

  /** All reports are saved, and a sync publishes only what it has just read, not between the writes of a report. */
  predicate Punctual(m: Machine, a: Action) {
    a.Publish? ==> a.i < |m.loads| && m.loads[a.i] == m.s.row && BetweenWrites(m) == None
  }

  lemma {:induction false} SavedLogIsStored(c: Setup, reports: seq<Report>, s0: State, log: seq<Event>)
    requires Known(reports, log) && forall t :: 0 <= t < |reports| ==> reports[t].saved
    ensures var y := TallyOf(c, reports, s0, log); y.stored == y.told && (Down(c, s0, y.told) ==> y.fallSaved)
  {
    if log != [] {
      SavedLogIsStored(c, reports, s0, log[..|log| - 1]);
      assert log[|log| - 1] in log;
    }
  }

  lemma StoredIsAgreed(c: Setup, s0: State, y: Tally, s: State)
    requires Outcome(c, s0, y, s) && y.stored == y.told && (Down(c, s0, y.told) ==> y.fallSaved)
    ensures Agreed(s)
  {
  }

  /** When every save succeeds and every sync is punctual the run is gentle: cache and row agree before every
      publication. */
  lemma {:induction false} PunctualRunIsGentle(c: Setup, reports: seq<Report>, s0: State,
                                               actions: seq<Action>, states: seq<Machine>, i: nat)
    requires Sound(c, s0) && Run(c, reports, s0, actions, states) && i < |states|
    requires forall t :: 0 <= t < |reports| ==> reports[t].saved
    requires forall j :: 0 <= j < i ==> Punctual(states[j], actions[j])
    ensures GentleUpTo(reports, actions, states, i)
  {
    if i > 0 {
      PunctualRunIsGentle(c, reports, s0, actions, states, i - 1);
      GentleRunIsOrderly(c, reports, s0, actions, states, i - 1);
      var m := states[i - 1];
      var y := TallyOf(c, reports, s0, m.log);
      ReplayOutcome(c, reports, s0, m.log);
      SavedLogIsStored(c, reports, s0, m.log);
      StoredIsAgreed(c, s0, y, Replay(c, reports, s0, m.log));
      assert Punctual(m, actions[i - 1]);
    }
  }

  /** In such a run cache and row agree whenever the lock is free, and a channel that was auto-disabled exactly
      when it had no enabled key still is. */
  lemma PunctualReportsAgree(c: Setup, reports: seq<Report>, s0: State, actions: seq<Action>, states: seq<Machine>,
                             i: nat)
    requires Sound(c, s0) && Run(c, reports, s0, actions, states) && i < |states| && states[i].lock == None
    requires forall t :: 0 <= t < |reports| ==> reports[t].saved
    requires forall j :: 0 <= j < i ==> Punctual(states[j], actions[j])
    ensures Agreed(states[i].s)
    ensures (s0.row.status == G.AUTO_DISABLED <==> NoneEnabled(c, s0.row))
        ==> (states[i].s.row.status == G.AUTO_DISABLED <==> NoneEnabled(c, states[i].s.row))
  {
    PunctualRunIsGentle(c, reports, s0, actions, states, i);
    ReportsAddUp(c, reports, s0, actions, states, i);
    SavedLogIsStored(c, reports, s0, states[i].log);
    StoredIsAgreed(c, s0, TallyOf(c, reports, s0, states[i].log), states[i].s);
  }

  // ---------- where it breaks ----------

  /** Undisturbed reports, one after the other. */
  ghost function HandledAll(c: Setup, s: State, reports: seq<Report>): State {
    if reports == [] then s else Handled(c, HandledAll(c, s, reports[..|reports| - 1]), reports[|reports| - 1])
  }

  /** A report leaves row and cache with the same status exactly when it skips, saves, or is not the one
      that brings the channel down. */
  lemma StatusesAgreeIff(c: Setup, s: State, r: Report)
    requires s.cached.Some? && s.cached.value == s.row
    ensures Handled(c, s, r).cached.value.status == Handled(c, s, r).row.status
       <==> Skips(c, s.row, r) || r.saved || !NowDisabled(s.row, Marked(c, s.row, r))
  {
  }

  /** Once the cached channel has fallen without its row, no later report takes the row or its abilities
      down, saved or not. */
  lemma {:induction false} FallenCacheIsNeverRepaired(c: Setup, s: State, reports: seq<Report>)
    requires s.cached.Some? && s.cached.value.status == G.AUTO_DISABLED
    ensures var after := HandledAll(c, s, reports);
            && after.cached.Some? && after.cached.value.status == G.AUTO_DISABLED
            && after.row.status == s.row.status && after.abilitiesOn == s.abilitiesOn
            && after.channelNotices == s.channelNotices
  {
    if reports != [] {
      FallenCacheIsNeverRepaired(c, s, reports[..|reports| - 1]);
    }
  }

  predicate IsOff(row: Row, k: int) {
    KeyStatus(row.info, k) == G.AUTO_DISABLED
  }

  predicate Reports(reports: seq<Report>, k: int) {
    exists i :: 0 <= i < |reports| && reports[i].keyIndex == k
  }

  /** No report of the list takes effect on a channel that is read as `stale`. */
  predicate AllSkip(stale: Row, reports: seq<Report>) {
    forall i :: 0 <= i < |reports| ==> IsOff(stale, reports[i].keyIndex)
  }

  lemma ReportsMore(reports: seq<Report>, k: int)
    requires reports != []
    ensures Reports(reports, k) <==> Reports(reports[..|reports| - 1], k) || reports[|reports| - 1].keyIndex == k
  {
    var front := reports[..|reports| - 1];
    if Reports(front, k) {
      var i :| 0 <= i < |front| && front[i].keyIndex == k;
      assert reports[i].keyIndex == k;
    }
  }

  lemma HandledMarks(c: Setup, s: State, r: Report, k: int)
    requires c.autoDisabled
    ensures IsOff(Fresh(Handled(c, s, r)), k)
            <==> IsOff(Fresh(s), k) || (k == r.keyIndex && (r.saved || s.cached.Some?))
    ensures !Skips(c, Fresh(s), r) && r.saved ==> Handled(c, s, r).row.info == Fresh(Handled(c, s, r)).info
    ensures Skips(c, Fresh(s), r) || !r.saved ==> Handled(c, s, r).row == s.row
    ensures Handled(c, s, r).cached.Some? == s.cached.Some?
  {
  }

  /** A key that is off in the row and in what the next report reads stays off in both. */
  lemma {:induction false} KnownKeyStays(c: Setup, s: State, reports: seq<Report>, k: int)
    requires c.autoDisabled && IsOff(Fresh(s), k) && IsOff(s.row, k)
    ensures IsOff(Fresh(HandledAll(c, s, reports)), k) && IsOff(HandledAll(c, s, reports).row, k)
  {
    if reports != [] {
      KnownKeyStays(c, s, reports[..|reports| - 1], k);
      HandledMarks(c, HandledAll(c, s, reports[..|reports| - 1]), reports[|reports| - 1], k);
    }
  }

  /** Saved reports on a cache that is behind the row: the first that takes effect replaces what the row held. */
  lemma {:induction false} StaleCacheReplacesRow(c: Setup, s: State, reports: seq<Report>, k: int)
    requires c.autoDisabled && s.cached.Some? && forall i :: 0 <= i < |reports| ==> reports[i].saved
    ensures var after := HandledAll(c, s, reports);
            && after.cached.Some?
            && (IsOff(Fresh(after), k) <==> IsOff(s.cached.value, k) || Reports(reports, k))
            && (if AllSkip(s.cached.value, reports) then after.row == s.row else after.row.info == Fresh(after).info)
  {
    if reports != [] {
      var front, last := reports[..|reports| - 1], reports[|reports| - 1];
      StaleCacheReplacesRow(c, s, front, k);
      StaleCacheReplacesRow(c, s, front, last.keyIndex);
      ReportsMore(reports, k);
      HandledMarks(c, HandledAll(c, s, front), last, k);
      if AllSkip(s.cached.value, front) && Reports(front, last.keyIndex) {
        var i :| 0 <= i < |front| && front[i].keyIndex == last.keyIndex;
        assert IsOff(s.cached.value, last.keyIndex);
      }
    }
  }

  /** Whether a row that was read before a report was saved, published after its cache write, makes the later
      reports forget it: only if the row has the channel enabled, some later report takes effect on what was
      published, and none reports the key again. */
  predicate Forgets(late: Option<Row>, rest: seq<Report>, k: int) {
    late.Some? && late.value.status == G.ENABLED && !AllSkip(late.value, rest) && !Reports(rest, k)
  }

  /** A saved report that takes effect is lost from the row, after any saved reports that follow, if and only
      if a sync put such a row between its writes. */
  lemma LostIff(c: Setup, s: State, r: Report, early: Option<Row>, late: Option<Row>, rest: seq<Report>)
    requires c.autoDisabled && !Skips(c, Fresh(s), r) && r.saved
    requires forall i :: 0 <= i < |rest| ==> rest[i].saved
    requires late.Some? ==> !IsOff(late.value, r.keyIndex)
    ensures IsOff(HandledAll(c, Disturbed(c, s, r, early, late), rest).row, r.keyIndex)
            <==> !Forgets(late, rest, r.keyIndex)
  {
    var after := Disturbed(c, s, r, early, late);
    assert IsOff(after.row, r.keyIndex);
    if late.Some? && late.value.status == G.ENABLED {
      assert after.cached == late;
      StaleCacheReplacesRow(c, after, rest, r.keyIndex);
    } else {
      assert IsOff(Fresh(after), r.keyIndex);
      KnownKeyStays(c, after, rest, r.keyIndex);
    }
  }

  /** It makes no difference whether such a row is published before the report is saved or right after. */
  lemma LatePublicationIsInside(c: Setup, s: State, r: Report, early: Option<Row>, row: Row)
    requires !Skips(c, Fresh(s), r)
    ensures Published(Disturbed(c, s, r, early, None), row) == Disturbed(c, s, r, early, Some(row))
  {
  }

  /** The reports of a log whose events are all undisturbed reports. */
  ghost predicate Undisturbed(reports: seq<Report>, log: seq<Event>, rest: seq<Report>) {
    && |log| == |rest|
    && forall i :: 0 <= i < |log| ==>
         log[i].Reported? && log[i].thread < |reports| && log[i].early == None == log[i].late
             && rest[i] == reports[log[i].thread]
  }

  lemma {:induction false} ReplayOfRest(c: Setup, reports: seq<Report>, s0: State, front: seq<Event>, log: seq<Event>,
                                        rest: seq<Report>)
    requires Known(reports, front) && Undisturbed(reports, log, rest)
    ensures Known(reports, front + log)
    ensures Replay(c, reports, s0, front + log) == HandledAll(c, Replay(c, reports, s0, front), rest)
  {
    if log == [] {
      assert front + log == front;
    } else {
      var n := |log| - 1;
      ReplayOfRest(c, reports, s0, front, log[..n], rest[..n]);
      assert (front + log)[..|front + log| - 1] == front + log[..n];
      assert (front + log)[|front + log| - 1] == log[n];
      assert front + log == (front + log[..n]) + [log[n]];
    }
  }

  /** Over runs: a saved first report of a key, followed by saved reports that no publication falls into, is
      lost from the row if and only if a sync put a row from before its save between its writes, and the
      later reports forget it. */
  lemma RunLosesIff(c: Setup, reports: seq<Report>, s0: State, actions: seq<Action>, states: seq<Machine>, i: nat,
                    front: seq<Event>, t: nat, early: Option<Row>, late: Option<Row>,
                    log: seq<Event>, rest: seq<Report>)
    requires c.autoDisabled && Run(c, reports, s0, actions, states) && i < |states| && states[i].lock == None
    requires states[i].log == front + [Reported(t, early, late)] + log && t < |reports| && reports[t].saved
    requires Undisturbed(reports, log, rest) && forall j :: 0 <= j < |rest| ==> rest[j].saved
    requires Known(reports, front) && !Skips(c, Fresh(Replay(c, reports, s0, front)), reports[t])
    requires late.Some? ==> !IsOff(late.value, reports[t].keyIndex)
    ensures IsOff(states[i].s.row, reports[t].keyIndex) <==> !Forgets(late, rest, reports[t].keyIndex)
  {
    var e := Reported(t, early, late);
    var before := Replay(c, reports, s0, front);
    RunIsSerial(c, reports, s0, actions, states, i);
    assert Known(reports, front + [e]);
    assert (front + [e])[..|front + [e]| - 1] == front;
    assert Replay(c, reports, s0, front + [e]) == Disturbed(c, before, reports[t], early, late);
    ReplayOfRest(c, reports, s0, front + [e], log, rest);
    LostIff(c, before, reports[t], early, late, rest);
  }

  lemma RunMore(c: Setup, reports: seq<Report>, s: State, actions: seq<Action>, states: seq<Machine>, a: Action,
                next: Machine)
    requires Run(c, reports, s, actions, states) && Moves(c, reports, states[|actions|], a, next)
    ensures Run(c, reports, s, actions + [a], states + [next])
  {
  }

  /** Such a run exists from every enabled channel, for any two of its enabled keys: a sync falls between the
      writes of the first report, and the run ends with the first key enabled again in the row. */
  lemma SyncInsideAReportLosesIt(c: Setup, s: State, first: Report, second: Report)
    returns (actions: seq<Action>, states: seq<Machine>)
    requires c.autoDisabled && Agreed(s) && s.row.status == G.ENABLED && first.saved && second.saved
    requires first.keyIndex != second.keyIndex
    requires KeyStatus(s.row.info, first.keyIndex) == G.ENABLED == KeyStatus(s.row.info, second.keyIndex)
    ensures Run(c, [first, second], s, actions, states) && states[|actions|].lock == None
    ensures KeyStatus(states[|actions|].s.row.info, first.keyIndex) == G.ENABLED
    ensures KeyStatus(states[|actions|].s.row.info, second.keyIndex) == G.AUTO_DISABLED
  {
    actions, states := RunOfFirst(c, s, [first, second]);
    actions, states := RunOfSecond(c, s, [first, second], actions, states);
  }

  lemma RunOfFirst(c: Setup, s: State, reports: seq<Report>) returns (actions: seq<Action>, states: seq<Machine>)
    requires |reports| == 2 && !Skips(c, Fresh(s), reports[0]) && s.row.status == G.ENABLED
    ensures Run(c, reports, s, actions, states)
    ensures var m := states[|actions|]; m.lock == None && m.phases == [Done, Waiting] && m.s.cached == Some(s.row)
  {
    var m1, m2, m3, m4, m5, m6 := LosingFirst(c, s, reports);
    actions, states := [], [Started(s, reports)];
    RunMore(c, reports, s, actions, states, Acquire(0), m1);
    actions, states := actions + [Acquire(0)], states + [m1];
    RunMore(c, reports, s, actions, states, Copy(0), m2);
    actions, states := actions + [Copy(0)], states + [m2];
    RunMore(c, reports, s, actions, states, Write(0), m3);
    actions, states := actions + [Write(0)], states + [m3];
    RunMore(c, reports, s, actions, states, Load, m4);
    actions, states := actions + [Load], states + [m4];
    RunMore(c, reports, s, actions, states, Publish(0), m5);
    actions, states := actions + [Publish(0)], states + [m5];
    RunMore(c, reports, s, actions, states, Save(0), m6);
    actions, states := actions + [Save(0)], states + [m6];
  }

  lemma RunOfSecond(c: Setup, s: State, reports: seq<Report>, start: seq<Action>, begun: seq<Machine>)
    returns (actions: seq<Action>, states: seq<Machine>)
    requires Run(c, reports, s, start, begun)
    requires var m := begun[|start|]; m.lock == None && m.phases == [Done, Waiting] && m.s.cached == Some(s.row)
    requires |reports| == 2 && !Skips(c, s.row, reports[1]) && reports[1].saved
             && reports[0].keyIndex != reports[1].keyIndex
    ensures Run(c, reports, s, actions, states)
    ensures states[|actions|].lock == None && states[|actions|].s.row.info == MarkedInfo(s.row.info, reports[1])
  {
    actions, states := start, begun;
    var m7, m8, m9, m10 := LosingSecond(c, s, reports, states[|actions|]);
    RunMore(c, reports, s, actions, states, Acquire(1), m7);
    actions, states := actions + [Acquire(1)], states + [m7];
    RunMore(c, reports, s, actions, states, Copy(1), m8);
    actions, states := actions + [Copy(1)], states + [m8];
    RunMore(c, reports, s, actions, states, Write(1), m9);
    actions, states := actions + [Write(1)], states + [m9];
    RunMore(c, reports, s, actions, states, Save(1), m10);
    actions, states := actions + [Save(1)], states + [m10];
  }

  lemma LosingFirst(c: Setup, s: State, reports: seq<Report>)
    returns (m1: Machine, m2: Machine, m3: Machine, m4: Machine, m5: Machine, m6: Machine)
    requires |reports| == 2 && !Skips(c, Fresh(s), reports[0]) && s.row.status == G.ENABLED
    ensures Moves(c, reports, Started(s, reports), Acquire(0), m1) && Moves(c, reports, m1, Copy(0), m2)
    ensures Moves(c, reports, m2, Write(0), m3) && Moves(c, reports, m3, Load, m4)
    ensures Moves(c, reports, m4, Publish(0), m5) && Moves(c, reports, m5, Save(0), m6)
    ensures m6.lock == None && m6.phases == [Done, Waiting] && m6.s.cached == Some(s.row)
  {
    var m0 := Started(s, reports);
    m1 := m0.(lock := Some(0), phases := [Locked, Waiting]);
    assert m1 == Next(c, reports, m0, Acquire(0));
    m2 := m1.(phases := [Copied(Fresh(s), None), Waiting]);
    assert m2 == Next(c, reports, m1, Copy(0));
    m3 := m2.(s := AfterMark(c, s, Fresh(s), reports[0]), phases := [Written(Fresh(s), None, None), Waiting]);
    assert m3 == Next(c, reports, m2, Write(0));
    m4 := m3.(loads := [s.row]);
    assert m4 == Next(c, reports, m3, Load);
    m5 := m4.(s := Published(m3.s, s.row), phases := [Written(Fresh(s), None, Some(s.row)), Waiting]);
    assert m5 == Next(c, reports, m4, Publish(0));
    m6 := Next(c, reports, m5, Save(0));
    assert m6.phases == [Done, Waiting];
  }

  lemma LosingSecond(c: Setup, s: State, reports: seq<Report>, m6: Machine)
    returns (m7: Machine, m8: Machine, m9: Machine, m10: Machine)
    requires |reports| == 2 && m6.lock == None && m6.phases == [Done, Waiting] && m6.s.cached == Some(s.row)
    requires !Skips(c, s.row, reports[1]) && reports[1].saved && reports[0].keyIndex != reports[1].keyIndex
    ensures Moves(c, reports, m6, Acquire(1), m7) && Moves(c, reports, m7, Copy(1), m8)
    ensures Moves(c, reports, m8, Write(1), m9) && Moves(c, reports, m9, Save(1), m10)
    ensures m10.lock == None && m10.s.row.info == MarkedInfo(s.row.info, reports[1])
  {
    m7 := m6.(lock := Some(1), phases := [Done, Locked]);
    assert m7 == Next(c, reports, m6, Acquire(1));
    m8 := m7.(phases := [Done, Copied(s.row, None)]);
    assert m8 == Next(c, reports, m7, Copy(1));
    m9 := m8.(s := AfterMark(c, m8.s, s.row, reports[1]), phases := [Done, Written(s.row, None, None)]);
    assert m9 == Next(c, reports, m8, Write(1));
    m10 := Next(c, reports, m9, Save(1));
  }
}
