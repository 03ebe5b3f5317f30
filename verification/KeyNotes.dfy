/** What error reports write about a key: the note of the error, and nothing else of its metadata
    (model/channel.go HandleKeyError). */
module KeyNotes {
  import opened Text
  import opened KeyAdmin
  import opened KeyErrors
  import G = Gateway

  /** The metadata of a key that was disabled with this note: import batch, usage, last use and remark are as they
      were, or empty if there was no metadata. */
  predicate OnlyNoted(was: Option<KeyMetadata>, now: Option<KeyMetadata>, note: DisableNote) {
    && now.Some? && now.value.disabled == Some(note)
    && match was
       case None =>
         now.value.importBatch == "" && now.value.usage == 0 && now.value.lastUsed == 0 && now.value.note == ""
       case Some(before) =>
         && now.value.importBatch == before.importBatch && now.value.usage == before.usage
         && now.value.lastUsed == before.lastUsed && now.value.note == before.note
  }

  /** The key information with one key auto-disabled and noted: all that it says of other keys or of the channel is
      as it was. */
  ghost predicate Noted(before: KeyInfo, after: KeyInfo, k: int, note: DisableNote) {
    && after == before.(keyStatusList := after.keyStatusList, keyMetadata := after.keyMetadata)
    && (forall j :: KeyStatus(after, j) == if j == k then G.AUTO_DISABLED else KeyStatus(before, j))
    && (forall j :: j != k ==> Metadata(after, j) == Metadata(before, j))
    && OnlyNoted(Metadata(before, k), Metadata(after, k), note)
  }

  lemma MarkedIsNoted(info: KeyInfo, r: Report)
    ensures Noted(info, MarkedInfo(info, r), r.keyIndex, r.note)
  {
  }

  /** One report. If the key that was read is auto-disabled already nothing changes; otherwise the cache, if there is
      one, and the row, if it is saved, get what was read with this key noted. */
  lemma ReportNotes(c: Setup, s: State, r: Report)
    requires c.autoDisabled
    ensures var read, after := Fresh(s).info, Handled(c, s, r);
            if KeyStatus(read, r.keyIndex) == G.AUTO_DISABLED then after == s
            else
              && (if r.saved then Noted(read, after.row.info, r.keyIndex, r.note) else after.row == s.row)
              && (if s.cached.Some? then after.cached.Some? && Noted(read, after.cached.value.info, r.keyIndex, r.note)
                  else after.cached == None)
  {
    MarkedIsNoted(Fresh(s).info, r);
  }

  // ---------- over runs ----------

  /** What an orderly event makes of the key information that is read next. */
  lemma EventNotes(c: Setup, reports: seq<Report>, s: State, e: Event)
    requires c.autoDisabled && (e.Reported? ==> e.thread < |reports|) && OrderlyEvent(c, reports, s, e)
    ensures var before, after := Fresh(s).info, Fresh(Effect(c, reports, s, e)).info;
            if e.Refreshed? || KeyStatus(before, reports[e.thread].keyIndex) == G.AUTO_DISABLED then after == before
            else Noted(before, after, reports[e.thread].keyIndex, reports[e.thread].note)
  {
    if e.Reported? {
      MarkedIsNoted(Fresh(s).info, reports[e.thread]);
    }
  }

  predicate IsReportOf(reports: seq<Report>, e: Event, k: int) {
    e.Reported? && e.thread < |reports| && reports[e.thread].keyIndex == k
  }

  /** The first report of the key stands at place n. */
  predicate FirstOf(reports: seq<Report>, log: seq<Event>, k: int, n: int) {
    0 <= n < |log| && IsReportOf(reports, log[n], k) && forall j :: 0 <= j < n ==> !IsReportOf(reports, log[j], k)
  }

  /** A key that was not auto-disabled from the start and has been reported is auto-disabled, and its metadata is the
      initial one with the note of its first report; every other key is as at the start. */
  ghost predicate NotesAddUp(reports: seq<Report>, info0: KeyInfo, log: seq<Event>, info: KeyInfo) {
    && info == info0.(keyStatusList := info.keyStatusList, keyMetadata := info.keyMetadata)
    && forall k :: NoteAddsUp(reports, info0, log, info, k)
  }

  ghost predicate NoteAddsUp(reports: seq<Report>, info0: KeyInfo, log: seq<Event>, info: KeyInfo, k: int) {
    if KeyStatus(info0, k) != G.AUTO_DISABLED && exists n :: FirstOf(reports, log, k, n) then
      && KeyStatus(info, k) == G.AUTO_DISABLED
      && forall n :: FirstOf(reports, log, k, n) ==>
           OnlyNoted(Metadata(info0, k), Metadata(info, k), reports[log[n].thread].note)
    else KeyStatus(info, k) == KeyStatus(info0, k) && Metadata(info, k) == Metadata(info0, k)
  }

  lemma FirstIsOne(reports: seq<Report>, log: seq<Event>, k: int, n: int, m: int)
    requires FirstOf(reports, log, k, n) && FirstOf(reports, log, k, m)
    ensures n == m
  {
  }

  /** One more event: the first report of a key stays, or the new event is it. */
  lemma FirstOfMore(reports: seq<Report>, log: seq<Event>, e: Event, k: int, n: int)
    ensures FirstOf(reports, log + [e], k, n)
       <==> if n < |log| then FirstOf(reports, log, k, n)
            else n == |log| && IsReportOf(reports, e, k) && !exists m :: FirstOf(reports, log, k, m)
  {
    var more := log + [e];
    assert forall j :: 0 <= j < |log| ==> more[j] == log[j];
    if n == |log| && !exists m :: FirstOf(reports, log, k, m) {
      NoFirstNoName(reports, log, k);
    }
  }

  lemma {:induction false} NoFirstNoName(reports: seq<Report>, log: seq<Event>, k: int)
    requires !exists m :: FirstOf(reports, log, k, m)
    ensures forall j :: 0 <= j < |log| ==> !IsReportOf(reports, log[j], k)
  {
    if j :| 0 <= j < |log| && IsReportOf(reports, log[j], k) {
      var n := 0;
      while !IsReportOf(reports, log[n], k)
        invariant 0 <= n <= j && forall i :: 0 <= i < n ==> !IsReportOf(reports, log[i], k)
        decreases j - n
      {
        n := n + 1;
      }
      assert FirstOf(reports, log, k, n);
    }
  }

  lemma OneMoreNote(reports: seq<Report>, info0: KeyInfo, log: seq<Event>, e: Event, before: KeyInfo, after: KeyInfo,
                    k: int)
    requires e.Reported? ==> e.thread < |reports|
    requires NoteAddsUp(reports, info0, log, before, k)
    requires if e.Refreshed? || KeyStatus(before, reports[e.thread].keyIndex) == G.AUTO_DISABLED then after == before
             else Noted(before, after, reports[e.thread].keyIndex, reports[e.thread].note)
    ensures NoteAddsUp(reports, info0, log + [e], after, k)
  {
    var more := log + [e];
    forall n
      ensures FirstOf(reports, more, k, n)
         <==> if n < |log| then FirstOf(reports, log, k, n)
              else n == |log| && IsReportOf(reports, e, k) && !exists m :: FirstOf(reports, log, k, m)
    {
      FirstOfMore(reports, log, e, k, n);
    }
    if n :| FirstOf(reports, log, k, n) {
      assert FirstOf(reports, more, k, n) && more[n] == log[n];
      forall m | FirstOf(reports, more, k, m) ensures m == n {
        FirstIsOne(reports, more, k, m, n);
      }
    } else if IsReportOf(reports, e, k) {
      assert FirstOf(reports, more, k, |log|);
      forall m | FirstOf(reports, more, k, m) ensures m == |log| {
        FirstIsOne(reports, more, k, m, |log|);
      }
      assert more[|log|] == e;
    }
  }

  lemma {:induction false} ReplayNotes(c: Setup, reports: seq<Report>, s0: State, log: seq<Event>)
    requires Sound(c, s0) && Known(reports, log) && Orderly(c, reports, s0, log)
    ensures NotesAddUp(reports, s0.row.info, log, Fresh(Replay(c, reports, s0, log)).info)
  {
    if log != [] {
      var front, last := log[..|log| - 1], log[|log| - 1];
      assert last in log && log == front + [last];
      ReplayNotes(c, reports, s0, front);
      var before := Replay(c, reports, s0, front);
      EventNotes(c, reports, before, last);
      forall k ensures NoteAddsUp(reports, s0.row.info, log, Fresh(Effect(c, reports, before, last)).info, k) {
        OneMoreNote(reports, s0.row.info, front, last, Fresh(before).info,
                    Fresh(Effect(c, reports, before, last)).info, k);
      }
    }
  }

  /** Whenever the lock is free in a run in which nothing can be lost: what the next report reads has the initial
      metadata outside the reported keys, and at a reported one only the note of the report that told it. */
  lemma NotesOfRunAddUp(c: Setup, reports: seq<Report>, s0: State, actions: seq<Action>, states: seq<Machine>, i: nat)
    requires Sound(c, s0) && Run(c, reports, s0, actions, states) && i < |states| && states[i].lock == None
    requires GentleUpTo(reports, actions, states, i)
    ensures NotesAddUp(reports, s0.row.info, states[i].log, Fresh(states[i].s).info)
  {
    GentleRunIsOrderly(c, reports, s0, actions, states, i);
    ReplayNotes(c, reports, s0, states[i].log);
  }
}
