/** The hand-off between the logs of one request and the sample of its attempts: logs wait until the outcome
    is known, are enriched under the lock and written outside it (model/metrics_v2_capture.go). */
module MetricsCapture {
  import opened Text
  import opened Metrics

  const MAX_ATTEMPTS := 64
  const MAX_PENDING := 4

  /** `attempts` is None for a sample marked incomplete. */
  datatype Sample = Sample(model: string, source: string, attempts: Option<seq<Attempt>>)

  /** A log as handed in. */
  datatype Entry = Entry(
    id: int, channelId: int, modelName: string, consume: bool, isStream: bool, firstWordLatency: real,
    promptTokens: int, completionTokens: int)

  /** A log with its monitoring fields. */
  datatype Log = Log(entry: Entry, sample: Option<Sample>)

  /** The value of a MetricsCapture. */
  datatype Capture = Capture(model: string, attempts: seq<Attempt>, pending: seq<Log>, finished: bool, claimed: bool,
                             overflow: bool)

  /** What a log knows better than the relay: usage, and the time to the first token of a stream. */
  function WithUsage(a: Attempt, log: Entry): Attempt {
    if !log.consume then a
    else
      var b := a.(prompt := log.promptTokens, completion := log.completionTokens, usageKnown := true);
      var ttft := log.firstWordLatency - a.offset;
      if log.isStream && ttft > 0.0 && ttft <= a.duration then b.(ttft := ttft) else b
  }

  predicate Claims(c: Capture, log: Log) {
    && !c.claimed && c.attempts != []
    && (log.entry.channelId == c.attempts[|c.attempts| - 1].channel || c.overflow)
  }

  /** The log as enrich leaves it; `fits` says whether the payload stays within its size limit. */
  function Enriched(c: Capture, log: Log, fits: bool): Log {
    if !Claims(c, log) then log
    else
      var n := |c.attempts|;
      var payload :=
        if c.overflow || !fits then None
        else Some(c.attempts[n - 1 := WithUsage(c.attempts[n - 1], log.entry)]);
      var name := if c.model == "" then log.entry.modelName else c.model;
      log.(sample := Some(Sample(name, c.attempts[n - 1].source, payload)))
  }

  function AfterEnrich(c: Capture, log: Log): Capture {
    c.(claimed := c.claimed || Claims(c, log))
  }

  function EnrichedAll(c: Capture, logs: seq<Log>, fits: int -> bool): seq<Log> {
    if logs == [] then []
    else
      var front, last := logs[..|logs| - 1], logs[|logs| - 1];
      EnrichedAll(c, front, fits) + [Enriched(AfterAll(c, front), last, fits(last.entry.id))]
  }

  function AfterAll(c: Capture, logs: seq<Log>): Capture {
    if logs == [] then c else AfterEnrich(AfterAll(c, logs[..|logs| - 1]), logs[|logs| - 1])
  }

  class MetricsCapture {
    const model: string
    var attempts: seq<Attempt>
    var pending: seq<Log>
    var finished: bool
    var claimed: bool
    var overflow: bool

    constructor (model: string)
      ensures Value() == Capture(model, [], [], false, false, false)
    {
      this.model := model;
      attempts, pending, finished, claimed, overflow := [], [], false, false, false;
    }

    function Value(): Capture
      reads this
    {
      Capture(model, attempts, pending, finished, claimed, overflow)
    }

    method RecordAttempt(a: Attempt)
      modifies this
      ensures Value() == AfterAttempt(old(Value()), a)
    {
      if |attempts| >= MAX_ATTEMPTS {
        overflow := true;
        return;
      }
      attempts := attempts + [a];
    }

    method Enrich(log: Log, fits: bool) returns (out: Log)
      modifies this`claimed
      ensures out == Enriched(old(Value()), log, fits) && Value() == AfterEnrich(old(Value()), log)
    {
      if claimed || |attempts| == 0 {
        return log;
      }
      var last := attempts[|attempts| - 1];
      if log.entry.channelId != last.channel && !overflow {
        return log;
      }
      claimed := true;
      var name := if model == "" then log.entry.modelName else model;
      out := log.(sample := Some(Sample(name, last.source, None)));
      if overflow {
        return;
      }
      var a := last;
      if log.entry.consume {
        a := a.(prompt := log.entry.promptTokens, completion := log.entry.completionTokens, usageKnown := true);
        if log.entry.isStream && log.entry.firstWordLatency > a.offset {
          var ttft := log.entry.firstWordLatency - a.offset;
          if ttft <= a.duration {
            a := a.(ttft := ttft);
          }
        }
      }
      assert a == WithUsage(last, log.entry);
      if !fits {
        return;
      }
      out := log.(sample := Some(Sample(name, last.source, Some(attempts[|attempts| - 1 := a]))));
    }

    /** The locked part of writeMetricsLog: the log to write now, if any. */
    method Submit(log: Log, fits: bool) returns (out: Option<Log>)
      modifies this
      ensures Value() == AfterSubmit(old(Value()), log)
      ensures out == if Waits(old(Value())) then None else Some(Enriched(AfterSubmitFlag(old(Value())), log, fits))
    {
      if !finished && |pending| < MAX_PENDING {
        pending := pending + [log];
        return None;
      }
      if !finished {
        overflow := true;
      }
      var enriched := Enrich(log, fits);
      out := Some(enriched);
    }

    /** The locked part of finish: the logs to write, in order. */
    method Finish(fits: int -> bool) returns (out: seq<Log>)
      modifies this
      ensures Value() == AfterFinish(old(Value()))
      ensures out == EnrichedAll(old(Value()).(finished := true, pending := []), old(pending), fits)
    {
      finished := true;
      var logs := pending;
      pending := [];
      out := [];
      ghost var c := Value();
      for i := 0 to |logs|
        invariant Value() == AfterAll(c, logs[..i]) && out == EnrichedAll(c, logs[..i], fits)
      {
        assert logs[..i + 1][..i] == logs[..i] && logs[..i + 1][i] == logs[i];
        var enriched := Enrich(logs[i], fits(logs[i].entry.id));
        out := out + [enriched];
      }
      assert logs[..|logs|] == logs;
    }
  }

  function AfterAttempt(c: Capture, a: Attempt): Capture {
    if |c.attempts| >= MAX_ATTEMPTS then c.(overflow := true) else c.(attempts := c.attempts + [a])
  }

  predicate Waits(c: Capture) {
    !c.finished && |c.pending| < MAX_PENDING
  }

  function AfterSubmitFlag(c: Capture): Capture {
    c.(overflow := c.overflow || !c.finished)
  }

  function AfterSubmit(c: Capture, log: Log): Capture {
    if Waits(c) then c.(pending := c.pending + [log]) else AfterEnrich(AfterSubmitFlag(c), log)
  }

  function AfterFinish(c: Capture): Capture {
    AfterAll(c.(finished := true, pending := []), c.pending)
  }

  // ---------- interleavings ----------

  /** What the sample was claimed from: the model of the request, the attempts kept, every attempt made so far, and
      the overflow flag. */
  datatype Claim = Claim(model: string, kept: seq<Attempt>, attempts: seq<Attempt>, overflow: bool)

  /** The capture, the logs that have left the lock and await their write, those written, and a record of
      everything handed in. */
  datatype Machine = Machine(
    c: Capture, leaving: seq<Log>, written: seq<Log>, submitted: seq<Log>, made: seq<Attempt>, claim: Option<Claim>)

  datatype Action = Attempted(a: Attempt) | Submitted(log: Log, fits: bool) | Finished(fit: int -> bool) | Wrote(i: nat)

  function Start(model: string): Machine {
    Machine(Capture(model, [], [], false, false, false), [], [], [], [], None)
  }

  function ClaimOf(m: Machine, claimed: bool, overflow: bool): Option<Claim> {
    if claimed && m.claim == None then Some(Claim(m.c.model, m.c.attempts, m.made, overflow)) else m.claim
  }

  /** Any thread may take the next action; writes happen outside the lock, in any order. */
  ghost predicate Step(m: Machine, a: Action, next: Machine) {
    match a
    case Attempted(attempt) => next == m.(c := AfterAttempt(m.c, attempt), made := m.made + [attempt])
    case Submitted(log, fits) =>
      && log.sample == None
      && var flagged := AfterSubmitFlag(m.c);
         next == m.(c := AfterSubmit(m.c, log), submitted := m.submitted + [log],
                    leaving := if Waits(m.c) then m.leaving else m.leaving + [Enriched(flagged, log, fits)],
                    claim := ClaimOf(m, AfterSubmit(m.c, log).claimed, flagged.overflow))
    case Finished(fit) =>
      next == m.(c := AfterFinish(m.c),
                 leaving := m.leaving + EnrichedAll(m.c.(finished := true, pending := []), m.c.pending, fit),
                 claim := ClaimOf(m, AfterFinish(m.c).claimed, m.c.overflow))
    case Wrote(i) =>
      && i < |m.leaving|
      && next == m.(leaving := m.leaving[..i] + m.leaving[i + 1..], written := m.written + [m.leaving[i]])
  }

  ghost predicate Run(model: string, actions: seq<Action>, states: seq<Machine>) {
    && |states| == |actions| + 1 && states[0] == Start(model)
    && forall i :: 0 <= i < |actions| ==> Step(states[i], actions[i], states[i + 1])
  }

  /** How often the entry is among the logs. */
  function Copies(logs: seq<Log>, e: Entry): nat {
    if logs == [] then 0 else Copies(logs[..|logs| - 1], e) + if logs[|logs| - 1].entry == e then 1 else 0
  }

  function Samples(logs: seq<Log>): nat {
    if logs == [] then 0 else Samples(logs[..|logs| - 1]) + if logs[|logs| - 1].sample.Some? then 1 else 0
  }

  lemma OneMore(logs: seq<Log>, log: Log, e: Entry)
    ensures Copies(logs + [log], e) == Copies(logs, e) + if log.entry == e then 1 else 0
    ensures Samples(logs + [log]) == Samples(logs) + if log.sample.Some? then 1 else 0
  {
    assert (logs + [log])[..|logs|] == logs;
  }

  lemma {:induction false} BothAppend(a: seq<Log>, b: seq<Log>, e: Entry)
    ensures Copies(a + b, e) == Copies(a, e) + Copies(b, e)
    ensures Samples(a + b) == Samples(a) + Samples(b)
  {
    if b == [] {
      assert a + b == a;
    } else {
      var front, last := b[..|b| - 1], b[|b| - 1];
      BothAppend(a, front, e);
      OneMore(a + front, last, e);
      assert a + b == (a + front) + [last];
    }
  }

  lemma OneBetween(front: seq<Log>, log: Log, rest: seq<Log>, e: Entry)
    ensures Copies(front + [log] + rest, e) == Copies(front + rest, e) + if log.entry == e then 1 else 0
    ensures Samples(front + [log] + rest) == Samples(front + rest) + if log.sample.Some? then 1 else 0
  {
    BothAppend(front + [log], rest, e);
    OneMore(front, log, e);
    BothAppend(front, rest, e);
  }

  lemma TakeOut(logs: seq<Log>, i: nat, e: Entry)
    requires i < |logs|
    ensures Copies(logs, e) == Copies(logs[..i] + logs[i + 1..], e) + if logs[i].entry == e then 1 else 0
    ensures Samples(logs) == Samples(logs[..i] + logs[i + 1..]) + if logs[i].sample.Some? then 1 else 0
  {
    assert logs == logs[..i] + [logs[i]] + logs[i + 1..];
    OneBetween(logs[..i], logs[i], logs[i + 1..], e);
  }

  /** The attempt as the log completes it: a log of consumption knows the tokens, and of a stream the time to the
      first token, counted from the start of the attempt and only if it lies within it. Nothing else changes. */
  predicate CompletedBy(a: Attempt, b: Attempt, log: Entry) {
    if !log.consume then b == a
    else
      && b == a.(prompt := b.prompt, completion := b.completion, usageKnown := b.usageKnown, ttft := b.ttft)
      && b.prompt == log.promptTokens && b.completion == log.completionTokens && b.usageKnown
      && b.ttft == if log.isStream && a.offset < log.firstWordLatency <= a.offset + a.duration
                   then log.firstWordLatency - a.offset else a.ttft
  }

  /** All attempts as they were made, but for what the log completes in the last one. */
  predicate SameAttempts(a: seq<Attempt>, b: seq<Attempt>, log: Entry) {
    |a| == |b| > 0 && a[..|a| - 1] == b[..|b| - 1] && CompletedBy(b[|b| - 1], a[|a| - 1], log)
  }

  /** A sample belongs to a log of the channel tried last, or to any after an overflow. It names the model of the
      request, or else of the log, and the source tried last; it is complete only if it was claimed before any
      overflow, and then it holds every attempt made. */
  predicate Honest(log: Log, claim: Option<Claim>) {
    log.sample.Some? ==>
      && claim.Some? && claim.value.kept != []
      && var last := claim.value.kept[|claim.value.kept| - 1];
         && (log.entry.channelId == last.channel || claim.value.overflow)
         && log.sample.value.source == last.source
         && log.sample.value.model == (if claim.value.model != "" then claim.value.model else log.entry.modelName)
         && (claim.value.overflow ==> log.sample.value.attempts == None)
         && (log.sample.value.attempts.Some? ==>
               SameAttempts(log.sample.value.attempts.value, claim.value.attempts, log.entry))
  }

  ghost predicate AllHonest(logs: seq<Log>, claim: Option<Claim>) {
    forall i :: 0 <= i < |logs| ==> Honest(logs[i], claim)
  }

  /** Every log handed in is waiting, leaving or written, once. */
  ghost predicate Conserved(m: Machine, e: Entry) {
    && Copies(m.c.pending, e) + Copies(m.leaving, e) + Copies(m.written, e) == Copies(m.submitted, e)
    && (m.c.finished ==> m.c.pending == [])
  }

  /** One sample is out exactly when one was claimed. */
  ghost predicate Single(m: Machine) {
    && Samples(m.c.pending) == 0
    && Samples(m.leaving) + Samples(m.written) == (if m.c.claimed then 1 else 0)
  }

  ghost predicate Truthful(m: Machine) {
    && (m.c.claimed <==> m.claim.Some?)
    && (!m.c.overflow ==> m.c.attempts == m.made)
    && AllHonest(m.leaving, m.claim) && AllHonest(m.written, m.claim)
  }

  ghost predicate Inv(m: Machine, e: Entry) {
    Conserved(m, e) && Single(m) && Truthful(m)
  }

  lemma EnrichIsHonest(m: Machine, c: Capture, log: Log, fits: bool, claimed: bool)
    requires log.sample == None && (!c.overflow ==> c.attempts == m.made)
    requires c.model == m.c.model && c.attempts == m.c.attempts
    requires m.claim.Some? ==> c.claimed
    requires Claims(c, log) ==> claimed
    ensures Honest(Enriched(c, log, fits), ClaimOf(m, claimed, c.overflow))
  {
  }

  lemma EnrichKeeps(c: Capture, log: Log, fits: bool)
    requires log.sample == None
    ensures Enriched(c, log, fits).entry == log.entry
    ensures Enriched(c, log, fits).sample.Some? <==> Claims(c, log)
  {
  }

  lemma {:induction false} SamplesNone(logs: seq<Log>)
    requires Samples(logs) == 0
    ensures forall i :: 0 <= i < |logs| ==> logs[i].sample == None
  {
    if logs != [] {
      SamplesNone(logs[..|logs| - 1]);
    }
  }

  lemma {:induction false} AfterAllClaims(c: Capture, logs: seq<Log>)
    ensures AfterAll(c, logs) == c.(claimed := AfterAll(c, logs).claimed) && (c.claimed ==> AfterAll(c, logs).claimed)
  {
    if logs != [] {
      AfterAllClaims(c, logs[..|logs| - 1]);
    }
  }

  /** Enriching a batch changes nothing but samples, and gives one only when none was given before. */
  lemma {:induction false} EnrichAllKeeps(c: Capture, logs: seq<Log>, fits: int -> bool, e: Entry)
    requires Samples(logs) == 0
    ensures Copies(EnrichedAll(c, logs, fits), e) == Copies(logs, e)
    ensures Samples(EnrichedAll(c, logs, fits)) == if AfterAll(c, logs).claimed && !c.claimed then 1 else 0
  {
    if logs != [] {
      var front, last := logs[..|logs| - 1], logs[|logs| - 1];
      EnrichAllKeeps(c, front, fits, e);
      AfterAllClaims(c, front);
      EnrichKeeps(AfterAll(c, front), last, fits(last.entry.id));
      OneMore(EnrichedAll(c, front, fits), Enriched(AfterAll(c, front), last, fits(last.entry.id)), e);
    }
  }

  lemma {:induction false} EnrichAllIsHonest(m: Machine, c: Capture, logs: seq<Log>, fits: int -> bool, claimed: bool)
    requires Samples(logs) == 0 && (!c.overflow ==> c.attempts == m.made)
    requires c.model == m.c.model && c.attempts == m.c.attempts
    requires m.claim.Some? ==> c.claimed
    requires AfterAll(c, logs).claimed ==> claimed
    ensures AllHonest(EnrichedAll(c, logs, fits), ClaimOf(m, claimed, c.overflow))
  {
    if logs != [] {
      var front, last := logs[..|logs| - 1], logs[|logs| - 1];
      EnrichAllIsHonest(m, c, front, fits, claimed);
      SamplesNone(logs);
      AfterAllClaims(c, front);
      EnrichIsHonest(m, AfterAll(c, front), last, fits(last.entry.id), claimed);
    }
  }

  lemma HonestAppend(a: seq<Log>, b: seq<Log>, claim: Option<Claim>)
    requires AllHonest(a, claim) && AllHonest(b, claim)
    ensures AllHonest(a + b, claim)
  {
  }

  /** A claim once made stays, and logs honest about it stay so. */
  lemma HonestStays(m: Machine, logs: seq<Log>, claimed: bool, overflow: bool)
    requires AllHonest(logs, m.claim)
    ensures AllHonest(logs, ClaimOf(m, claimed, overflow))
  {
  }

  lemma WaitKeepsInv(m: Machine, log: Log, fits: bool, next: Machine, e: Entry)
    requires Inv(m, e) && Step(m, Submitted(log, fits), next) && Waits(m.c)
    ensures Inv(next, e)
  {
    OneMore(m.submitted, log, e);
    OneMore(m.c.pending, log, e);
  }

  /** The logs that have left the lock are honest after one more is enriched. */
  lemma SubmitKeepsHonesty(m: Machine, log: Log, fits: bool)
    requires Truthful(m) && log.sample == None
    ensures var c := AfterSubmitFlag(m.c);
            var claim := ClaimOf(m, AfterEnrich(c, log).claimed, c.overflow);
            AllHonest(m.leaving + [Enriched(c, log, fits)], claim) && AllHonest(m.written, claim)
  {
    var c := AfterSubmitFlag(m.c);
    var claimed := AfterEnrich(c, log).claimed;
    EnrichIsHonest(m, c, log, fits, claimed);
    HonestStays(m, m.leaving, claimed, c.overflow);
    HonestStays(m, m.written, claimed, c.overflow);
    HonestAppend(m.leaving, [Enriched(c, log, fits)], ClaimOf(m, claimed, c.overflow));
  }

  lemma SubmitKeepsInv(m: Machine, log: Log, fits: bool, next: Machine, e: Entry)
    requires Inv(m, e) && Step(m, Submitted(log, fits), next) && !Waits(m.c)
    ensures Inv(next, e)
  {
    var c := AfterSubmitFlag(m.c);
    OneMore(m.submitted, log, e);
    EnrichKeeps(c, log, fits);
    OneMore(m.leaving, Enriched(c, log, fits), e);
    SubmitKeepsHonesty(m, log, fits);
  }

  lemma FinishKeepsInv(m: Machine, fit: int -> bool, next: Machine, e: Entry)
    requires Inv(m, e) && Step(m, Finished(fit), next)
    ensures Inv(next, e)
  {
    var c := m.c.(finished := true, pending := []);
    var out := EnrichedAll(c, m.c.pending, fit);
    AfterAllClaims(c, m.c.pending);
    EnrichAllKeeps(c, m.c.pending, fit, e);
    BothAppend(m.leaving, out, e);
    EnrichAllIsHonest(m, c, m.c.pending, fit, next.c.claimed);
    HonestStays(m, m.leaving, next.c.claimed, c.overflow);
    HonestStays(m, m.written, next.c.claimed, c.overflow);
    HonestAppend(m.leaving, out, next.claim);
  }

  lemma WriteKeepsInv(m: Machine, i: nat, next: Machine, e: Entry)
    requires Inv(m, e) && Step(m, Wrote(i), next)
    ensures Inv(next, e)
  {
    TakeOut(m.leaving, i, e);
    OneMore(m.written, m.leaving[i], e);
    HonestAppend(m.written, [m.leaving[i]], m.claim);
    HonestAppend(m.leaving[..i], m.leaving[i + 1..], m.claim);
  }

  lemma {:induction false} RunKeepsInv(model: string, actions: seq<Action>, states: seq<Machine>, i: nat, e: Entry)
    requires Run(model, actions, states) && i < |states|
    ensures Inv(states[i], e)
  {
    if i > 0 {
      RunKeepsInv(model, actions, states, i - 1, e);
      var m, next := states[i - 1], states[i];
      match actions[i - 1]
      case Attempted(a) =>
      case Submitted(log, fits) =>
        if Waits(m.c) {
          WaitKeepsInv(m, log, fits, next, e);
        } else {
          SubmitKeepsInv(m, log, fits, next, e);
        }
      case Finished(fit) => FinishKeepsInv(m, fit, next, e);
      case Wrote(k) => WriteKeepsInv(m, k, next, e);
    }
  }

  /** The first 64 attempts are kept, and any more set overflow. */
  predicate KeptFirst(c: Capture, made: seq<Attempt>) {
    if |made| <= 64 then c.attempts == made else c.overflow && c.attempts == made[..64]
  }

  /** Until the request is finished its first four logs wait, in order, and any more set overflow; overflow is set
      for no other reason than too many attempts or logs. */
  predicate WaitingFirst(m: Machine) {
    && (!m.c.finished ==>
          if |m.submitted| <= 4 then m.c.pending == m.submitted else m.c.overflow && m.c.pending == m.submitted[..4])
    && (m.c.overflow ==> |m.made| > 64 || |m.submitted| > 4)
  }

  lemma StepKeepsFirst(m: Machine, a: Action, next: Machine)
    requires Step(m, a, next) && KeptFirst(m.c, m.made) && WaitingFirst(m)
    ensures KeptFirst(next.c, next.made) && WaitingFirst(next)
  {
    if a.Finished? {
      AfterAllClaims(m.c.(finished := true, pending := []), m.c.pending);
    }
  }

  /** In every interleaving the first attempts are kept and the first logs wait, and overflow means that there were
      more. */
  lemma {:induction false} RunKeepsFirst(model: string, actions: seq<Action>, states: seq<Machine>, i: nat)
    requires Run(model, actions, states) && i < |states|
    ensures KeptFirst(states[i].c, states[i].made) && WaitingFirst(states[i])
  {
    if i > 0 {
      RunKeepsFirst(model, actions, states, i - 1);
      StepKeepsFirst(states[i - 1], actions[i - 1], states[i]);
    }
  }

  /** Once finish has run and the writes under way are done, what was written is what was handed in, each
      log once and unchanged but for its sample; one log at most carries a sample, and it is honest. */
  lemma EachLogIsWrittenOnce(model: string, actions: seq<Action>, states: seq<Machine>, i: nat, e: Entry)
    requires Run(model, actions, states) && i < |states| && states[i].c.finished && states[i].leaving == []
    ensures Copies(states[i].written, e) == Copies(states[i].submitted, e)
    ensures Samples(states[i].written) <= 1
    ensures AllHonest(states[i].written, states[i].claim)
  {
    RunKeepsInv(model, actions, states, i, e);
  }

  /** Before that no log is written twice, or with a second sample. */
  lemma NoLogIsWrittenTwice(model: string, actions: seq<Action>, states: seq<Machine>, i: nat, e: Entry)
    requires Run(model, actions, states) && i < |states|
    ensures Copies(states[i].written, e) <= Copies(states[i].submitted, e)
    ensures Samples(states[i].written) <= 1
  {
    RunKeepsInv(model, actions, states, i, e);
  }

  /** The claim is never taken back or made over. */
  lemma {:induction false} ClaimIsFinal(model: string, actions: seq<Action>, states: seq<Machine>, i: nat, j: nat)
    requires Run(model, actions, states) && i <= j < |states| && states[i].claim.Some?
    ensures states[j].claim == states[i].claim
  {
    if i < j {
      ClaimIsFinal(model, actions, states, i, j - 1);
    }
  }

  /** A request whose capture overflowed before the claim never yields a complete sample. */
  lemma OverflowIsNeverHidden(model: string, actions: seq<Action>, states: seq<Machine>, i: nat, j: nat, k: nat)
    requires Run(model, actions, states) && i <= j < |states|
    requires states[i].c.overflow && states[i].claim == None
    requires k < |states[j].written| && states[j].written[k].sample.Some?
    ensures states[j].written[k].sample.value.attempts == None
  {
    RunKeepsInv(model, actions, states, j, states[j].written[k].entry);
    OverflowStays(model, actions, states, i, j);
    assert Honest(states[j].written[k], states[j].claim);
  }

  lemma {:induction false} OverflowStays(model: string, actions: seq<Action>, states: seq<Machine>, i: nat, j: nat)
    requires Run(model, actions, states) && i <= j < |states|
    requires states[i].c.overflow && states[i].claim == None
    ensures states[j].c.overflow && (states[j].claim.Some? ==> states[j].claim.value.overflow)
  {
    if i < j {
      OverflowStays(model, actions, states, i, j - 1);
      OverflowStep(states[j - 1], actions[j - 1], states[j]);
    }
  }

  lemma OverflowStep(m: Machine, a: Action, next: Machine)
    requires Step(m, a, next) && m.c.overflow && (m.claim.Some? ==> m.claim.value.overflow)
    ensures next.c.overflow && (next.claim.Some? ==> next.claim.value.overflow)
  {
    if a.Finished? {
      AfterAllClaims(m.c.(finished := true, pending := []), m.c.pending);
    }
  }
}
