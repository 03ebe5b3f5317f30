/** Latency sums with a histogram over fixed bounds, and percentiles read from it (model/metrics_v2.go). */
module Metrics {
  import opened Text

  /** The upper bounds of all buckets but the last, in seconds. */
  const BOUNDS: seq<real> :=
    [0.05, 0.1, 0.2, 0.5, 1.0, 2.0, 3.0, 5.0, 10.0, 15.0, 30.0, 45.0, 60.0, 90.0, 120.0, 180.0, 300.0, 600.0, 900.0,
     1800.0]

  /** What is used of the bounds: everything below holds of any positive ascending ones. */
  ghost predicate Ascending(bounds: seq<real>) {
    && (forall i :: 0 <= i < |bounds| ==> bounds[i] > 0.0)
    && forall i, j :: 0 <= i < j < |bounds| ==> bounds[i] < bounds[j]
  }

  lemma BoundsAscend()
    ensures Ascending(BOUNDS)
  {
    forall i, j | 0 <= i < j < |BOUNDS| ensures BOUNDS[i] < BOUNDS[j] {
      StepsAscend(i, j);
    }
  }

  lemma {:induction false} StepsAscend(i: nat, j: nat)
    requires i < j < |BOUNDS|
    ensures BOUNDS[i] < BOUNDS[j]
    decreases j
  {
    if i + 1 < j {
      StepsAscend(i, j - 1);
    }
  }

  /** An attempt as decoded from its log, so with finite numbers. */
  datatype Attempt = Attempt(
    source: string, channel: int, outcome: string, duration: real, offset: real, ttft: real,
    prompt: int, completion: int, usageKnown: bool)

  /** The scalar fields of a metricsSums. */
  datatype Counts = Counts(
    attempts: int, success: int, errors: int, cancelled: int, finalRequests: int,
    duration: real, durationCount: int, speed: real, speedCount: int, ttft: real, ttftCount: int,
    prompt: int, completion: int, usageCount: int)

  /** The value of a metricsSums, as passed and stored. */
  datatype Sums = Sums(counts: Counts, histogram: seq<int>)

  const NOTHING := Counts(0, 0, 0, 0, 0, 0.0, 0, 0.0, 0, 0.0, 0, 0, 0, 0)

  function Zero(buckets: nat): Sums {
    Sums(NOTHING, seq(buckets, i => 0))
  }

  /** d taken `sign` times on top of c. */
  function AddedCounts(c: Counts, d: Counts, sign: int): Counts {
    Counts(c.attempts + sign * d.attempts, c.success + sign * d.success, c.errors + sign * d.errors,
           c.cancelled + sign * d.cancelled, c.finalRequests + sign * d.finalRequests,
           c.duration + sign as real * d.duration, c.durationCount + sign * d.durationCount,
           c.speed + sign as real * d.speed, c.speedCount + sign * d.speedCount,
           c.ttft + sign as real * d.ttft, c.ttftCount + sign * d.ttftCount,
           c.prompt + sign * d.prompt, c.completion + sign * d.completion, c.usageCount + sign * d.usageCount)
  }

  function Added(s: Sums, other: Sums, sign: int): Sums
    requires |s.histogram| == |other.histogram|
  {
    Sums(AddedCounts(s.counts, other.counts, sign), AddedHistogram(s.histogram, other.histogram, sign))
  }

  function AddedHistogram(h: seq<int>, other: seq<int>, sign: int): (r: seq<int>)
    requires |h| == |other|
    ensures |r| == |h|
    ensures forall i :: 0 <= i < |h| ==> r[i] == h[i] + sign * other[i]
  {
    seq(|h|, i requires 0 <= i < |h| => h[i] + sign * other[i])
  }

  // ---------- buckets ----------

  /** The first bucket from i on whose upper bound exceeds d; the last bucket has none. */
  function BucketFrom(bounds: seq<real>, d: real, i: nat): (b: nat)
    requires i <= |bounds|
    ensures i <= b <= |bounds|
    ensures b < |bounds| ==> d < bounds[b]
    ensures forall j :: i <= j < b ==> d >= bounds[j]
    decreases |bounds| - i
  {
    if i < |bounds| && d >= bounds[i] then BucketFrom(bounds, d, i + 1) else i
  }

  function BucketOf(bounds: seq<real>, d: real): (b: nat)
    ensures b <= |bounds|
  {
    BucketFrom(bounds, d, 0)
  }

  function Lower(bounds: seq<real>, b: nat): real
    requires b <= |bounds|
  {
    if b > 0 then bounds[b - 1] else 0.0
  }

  /** The bucket of a positive duration brackets it, and buckets follow the order of durations. */
  lemma BucketBrackets(bounds: seq<real>, d: real, e: real)
    requires Ascending(bounds) && 0.0 < d
    ensures Lower(bounds, BucketOf(bounds, d)) <= d
    ensures BucketOf(bounds, d) < |bounds| ==> d < bounds[BucketOf(bounds, d)]
    ensures d <= e ==> BucketOf(bounds, d) <= BucketOf(bounds, e)
  {
  }

  // ---------- the recorder ----------

  predicate Timed(a: Attempt) {
    a.outcome == "success" && a.duration > 0.0
  }

  function One(b: bool): int {
    if b then 1 else 0
  }

  function Hit(histogram: seq<int>, i: int): seq<int>
    requires 0 <= i < |histogram|
  {
    histogram[i := histogram[i] + 1]
  }

  /** One more attempt. */
  function Recorded(bounds: seq<real>, s: Sums, a: Attempt, final: bool): Sums
    requires |s.histogram| == |bounds| + 1
  {
    Sums(Counted(s.counts, a, final), if Timed(a) then Hit(s.histogram, BucketOf(bounds, a.duration)) else s.histogram)
  }

  function Counted(c: Counts, a: Attempt, final: bool): Counts {
    var answered := a.outcome == "success" && a.ttft > 0.0 && a.ttft <= a.duration;
    var fast := Timed(a) && a.usageKnown && a.completion > 0;
    Counts(c.attempts + 1,
           c.success + One(a.outcome == "success"),
           c.errors + One(a.outcome != "success" && a.outcome != "cancelled"),
           c.cancelled + One(a.outcome == "cancelled"),
           c.finalRequests + One(final),
           if Timed(a) then c.duration + a.duration else c.duration,
           c.durationCount + One(Timed(a)),
           if fast then c.speed + a.completion as real / a.duration else c.speed,
           c.speedCount + One(fast),
           if answered then c.ttft + a.ttft else c.ttft,
           c.ttftCount + One(answered),
           if a.usageKnown then c.prompt + a.prompt else c.prompt,
           if a.usageKnown then c.completion + a.completion else c.completion,
           c.usageCount + One(a.usageKnown))
  }

  class MetricsSums {
    const bounds: seq<real>
    var counts: Counts
    const histogram: array<int>

    ghost predicate Valid() {
      histogram.Length == |bounds| + 1
    }

    function Value(): Sums
      reads this, histogram
    {
      Sums(counts, histogram[..])
    }

    constructor (bounds: seq<real>)
      ensures Valid() && this.bounds == bounds && fresh(histogram) && Value() == Zero(|bounds| + 1)
    {
      this.bounds := bounds;
      counts := NOTHING;
      histogram := new int[|bounds| + 1](i => 0);
      new;
      assert histogram[..] == Zero(|bounds| + 1).histogram;
    }

    method Add(other: Sums, sign: int)
      requires Valid() && |other.histogram| == histogram.Length
      modifies this, histogram
      ensures Value() == Added(old(Value()), other, sign)
    {
      counts := AddedCounts(counts, other.counts, sign);
      AddHistogram(other.histogram, sign);
    }

    method AddHistogram(other: seq<int>, sign: int)
      requires |other| == histogram.Length
      modifies histogram
      ensures histogram[..] == AddedHistogram(old(histogram[..]), other, sign)
    {
      ghost var sum := AddedHistogram(histogram[..], other, sign);
      for i := 0 to histogram.Length
        invariant forall j :: 0 <= j < i ==> histogram[j] == sum[j]
        invariant forall j :: i <= j < histogram.Length ==> histogram[j] == old(histogram[j])
      {
        histogram[i] := histogram[i] + sign * other[i];
      }
    }

    /** Every field moves as the attempt says; a positive duration of a success goes to its bucket. */
    method Record(a: Attempt, final: bool)
      requires Valid()
      modifies this, histogram
      ensures Value() == Recorded(bounds, old(Value()), a, final)
    {
      var c := counts.(attempts := counts.attempts + 1);
      if final {
        c := c.(finalRequests := c.finalRequests + 1);
      }
      match a.outcome {
        case "success" => c := c.(success := c.success + 1);
        case "cancelled" => c := c.(cancelled := c.cancelled + 1);
        case _ => c := c.(errors := c.errors + 1);
      }
      if a.usageKnown {
        c := c.(prompt := c.prompt + a.prompt, completion := c.completion + a.completion,
                usageCount := c.usageCount + 1);
      }
      if a.outcome != "success" {
        counts := c;
        return;
      }
      if a.duration > 0.0 {
        c := c.(duration := c.duration + a.duration, durationCount := c.durationCount + 1);
        CountDuration(a.duration);
        if a.usageKnown && a.completion > 0 {
          c := c.(speed := c.speed + a.completion as real / a.duration, speedCount := c.speedCount + 1);
        }
      }
      if a.ttft > 0.0 && a.ttft <= a.duration {
        c := c.(ttft := c.ttft + a.ttft, ttftCount := c.ttftCount + 1);
      }
      counts := c;
    }

    method CountDuration(d: real)
      requires Valid()
      modifies histogram
      ensures histogram[..] == Hit(old(histogram[..]), BucketOf(bounds, d))
    {
      var i := 0;
      while i < |bounds| && d >= bounds[i]
        invariant 0 <= i <= |bounds| && BucketOf(bounds, d) == BucketFrom(bounds, d, i)
      {
        i := i + 1;
      }
      histogram[i] := histogram[i] + 1;
    }
  }

  // ---------- what the sums stand for ----------

  /** How many durations lie in the buckets from `first` up to but not including `end`. */
  function CountIn(bounds: seq<real>, ds: seq<real>, first: nat, end: nat): nat {
    if ds == [] then 0
    else CountIn(bounds, ds[..|ds| - 1], first, end) + if first <= BucketOf(bounds, ds[|ds| - 1]) < end then 1 else 0
  }

  function Total(ds: seq<real>): real {
    if ds == [] then 0.0 else Total(ds[..|ds| - 1]) + ds[|ds| - 1]
  }

  /** The sums describe these durations: their number, their total, and how many fall in each bucket. */
  ghost predicate Describes(bounds: seq<real>, s: Sums, ds: seq<real>) {
    && s.counts.durationCount == |ds| && s.counts.duration == Total(ds)
    && (forall i :: 0 <= i < |ds| ==> ds[i] > 0.0)
    && Buckets(bounds, s.histogram, ds)
  }

  ghost predicate Buckets(bounds: seq<real>, histogram: seq<int>, ds: seq<real>) {
    |histogram| == |bounds| + 1 && forall b :: 0 <= b <= |bounds| ==> histogram[b] == CountIn(bounds, ds, b, b + 1)
  }

  /** Every attempt has one outcome, and only timed successes feed the averages. */
  predicate Balanced(c: Counts) {
    && c.attempts == c.success + c.errors + c.cancelled
    && 0 <= c.speedCount <= c.durationCount && 0 <= c.ttftCount <= c.durationCount <= c.success
    && 0 <= c.usageCount <= c.attempts && 0 <= c.finalRequests <= c.attempts && c.errors >= 0 && c.cancelled >= 0
  }

  lemma CountOneMore(bounds: seq<real>, ds: seq<real>, d: real, first: nat, end: nat)
    ensures CountIn(bounds, ds + [d], first, end) == CountIn(bounds, ds, first, end)
            + if first <= BucketOf(bounds, d) < end then 1 else 0
    ensures Total(ds + [d]) == Total(ds) + d
  {
    assert (ds + [d])[..|ds|] == ds;
  }

  /** Recording an attempt adds its duration, if it is a timed success, and nothing else. */
  lemma RecordDescribes(bounds: seq<real>, s: Sums, ds: seq<real>, a: Attempt, final: bool)
    requires Describes(bounds, s, ds) && Balanced(s.counts)
    ensures Describes(bounds, Recorded(bounds, s, a, final), if Timed(a) then ds + [a.duration] else ds)
    ensures Balanced(Recorded(bounds, s, a, final).counts)
  {
    if Timed(a) {
      CountOneMore(bounds, ds, a.duration, 0, 0);
      var h := Hit(s.histogram, BucketOf(bounds, a.duration));
      forall b | 0 <= b <= |bounds| ensures h[b] == CountIn(bounds, ds + [a.duration], b, b + 1) {
        CountOneMore(bounds, ds, a.duration, b, b + 1);
      }
    }
  }

  lemma ZeroDescribesNothing(bounds: seq<real>)
    ensures Describes(bounds, Zero(|bounds| + 1), []) && Balanced(NOTHING)
  {
  }

  /** An attempt as a page of logs hands it to the recorder; `final` marks the last one of its request. */
  datatype Recording = Recording(attempt: Attempt, final: bool)

  function RecordedAll(bounds: seq<real>, entries: seq<Recording>): (s: Sums)
    ensures |s.histogram| == |bounds| + 1
  {
    if entries == [] then Zero(|bounds| + 1)
    else
      var last := entries[|entries| - 1];
      Recorded(bounds, RecordedAll(bounds, entries[..|entries| - 1]), last.attempt, last.final)
  }

  /** The durations that count: those of the timed successes. */
  function TimedOf(entries: seq<Recording>): seq<real> {
    if entries == [] then []
    else
      var last := entries[|entries| - 1].attempt;
      TimedOf(entries[..|entries| - 1]) + if Timed(last) then [last.duration] else []
  }

  /** Whatever attempts are recorded, the sums describe their timed durations and the counts balance. */
  lemma {:induction false} RecordedAllDescribes(bounds: seq<real>, entries: seq<Recording>)
    ensures Describes(bounds, RecordedAll(bounds, entries), TimedOf(entries))
    ensures Balanced(RecordedAll(bounds, entries).counts)
    ensures RecordedAll(bounds, entries).counts.attempts == |entries|
  {
    if entries == [] {
      ZeroDescribesNothing(bounds);
    } else {
      var front, last := entries[..|entries| - 1], entries[|entries| - 1];
      RecordedAllDescribes(bounds, front);
      RecordDescribes(bounds, RecordedAll(bounds, front), TimedOf(front), last.attempt, last.final);
      assert TimedOf(front) + [] == TimedOf(front);
    }
  }

  // What the other fields count, by the attempts they count.

  function CountBy(entries: seq<Recording>, p: Recording -> bool): int {
    if entries == [] then 0
    else CountBy(entries[..|entries| - 1], p) + if p(entries[|entries| - 1]) then 1 else 0
  }

  function TotalBy(entries: seq<Recording>, p: Recording -> bool, amount: Recording -> real): real {
    if entries == [] then 0.0
    else
      var last := entries[|entries| - 1];
      TotalBy(entries[..|entries| - 1], p, amount) + if p(last) then amount(last) else 0.0
  }

  function TokensBy(entries: seq<Recording>, p: Recording -> bool, amount: Recording -> int): int {
    if entries == [] then 0
    else
      var last := entries[|entries| - 1];
      TokensBy(entries[..|entries| - 1], p, amount) + if p(last) then amount(last) else 0
  }

  function Ended(outcome: string): Recording -> bool {
    (e: Recording) => e.attempt.outcome == outcome
  }

  function Failed(): Recording -> bool {
    (e: Recording) => e.attempt.outcome != "success" && e.attempt.outcome != "cancelled"
  }

  function IsFinal(): Recording -> bool {
    (e: Recording) => e.final
  }

  function KnowsUsage(): Recording -> bool {
    (e: Recording) => e.attempt.usageKnown
  }

  function IsTimed(): Recording -> bool {
    (e: Recording) => e.attempt.outcome == "success" && e.attempt.duration > 0.0
  }

  function DurationOf(): Recording -> real {
    (e: Recording) => e.attempt.duration
  }

  function HasSpeed(): Recording -> bool {
    (e: Recording) => e.attempt.outcome == "success" && e.attempt.duration > 0.0 && e.attempt.usageKnown
                      && e.attempt.completion > 0
  }

  function SpeedOf(): Recording -> real {
    (e: Recording) => if e.attempt.duration > 0.0 then e.attempt.completion as real / e.attempt.duration else 0.0
  }

  function HasFirstToken(): Recording -> bool {
    (e: Recording) => e.attempt.outcome == "success" && 0.0 < e.attempt.ttft <= e.attempt.duration
  }

  function FirstTokenOf(): Recording -> real {
    (e: Recording) => e.attempt.ttft
  }

  function PromptOf(): Recording -> int {
    (e: Recording) => e.attempt.prompt
  }

  function CompletionOf(): Recording -> int {
    (e: Recording) => e.attempt.completion
  }

  /** Outcomes, final attempts and usage are counted for every attempt; speed and time to the first token only for
      successes, a time to the first token only within the duration. */
  lemma {:induction false} RecordedAllCounts(bounds: seq<real>, entries: seq<Recording>)
    ensures var c := RecordedAll(bounds, entries).counts;
            && c.success == CountBy(entries, Ended("success")) && c.cancelled == CountBy(entries, Ended("cancelled"))
            && c.errors == CountBy(entries, Failed()) && c.finalRequests == CountBy(entries, IsFinal())
            && c.durationCount == CountBy(entries, IsTimed())
            && c.duration == TotalBy(entries, IsTimed(), DurationOf())
            && c.usageCount == CountBy(entries, KnowsUsage())
            && c.prompt == TokensBy(entries, KnowsUsage(), PromptOf())
            && c.completion == TokensBy(entries, KnowsUsage(), CompletionOf())
            && c.speedCount == CountBy(entries, HasSpeed()) && c.speed == TotalBy(entries, HasSpeed(), SpeedOf())
            && c.ttftCount == CountBy(entries, HasFirstToken())
            && c.ttft == TotalBy(entries, HasFirstToken(), FirstTokenOf())
  {
    if entries != [] {
      RecordedAllCounts(bounds, entries[..|entries| - 1]);
    }
  }

  /** Recording and adding commute. */
  lemma RecordOnTop(bounds: seq<real>, s: Sums, t: Sums, a: Attempt, final: bool)
    requires |s.histogram| == |t.histogram| == |bounds| + 1
    ensures Recorded(bounds, Added(s, t, 1), a, final) == Added(s, Recorded(bounds, t, a, final), 1)
  {
    if Timed(a) {
      var b := BucketOf(bounds, a.duration);
      assert Hit(AddedHistogram(s.histogram, t.histogram, 1), b) == AddedHistogram(s.histogram, Hit(t.histogram, b), 1);
    }
  }

  lemma AddNothing(s: Sums)
    ensures Added(s, Zero(|s.histogram|), 1) == s
  {
    assert AddedHistogram(s.histogram, Zero(|s.histogram|).histogram, 1) == s.histogram;
  }

  lemma RecordedOneMore(bounds: seq<real>, entries: seq<Recording>, e: Recording)
    ensures RecordedAll(bounds, entries + [e]) == Recorded(bounds, RecordedAll(bounds, entries), e.attempt, e.final)
  {
    assert (entries + [e])[..|entries|] == entries;
  }

  /** Recording page by page and adding up the pages gives what one recorder would have of them all, in
      every field and bucket. */
  lemma {:induction false} PagesAddUp(bounds: seq<real>, page: seq<Recording>, next: seq<Recording>)
    ensures Added(RecordedAll(bounds, page), RecordedAll(bounds, next), 1) == RecordedAll(bounds, page + next)
  {
    var s := RecordedAll(bounds, page);
    if next == [] {
      assert page + next == page;
      AddNothing(s);
    } else {
      var front, last := next[..|next| - 1], next[|next| - 1];
      PagesAddUp(bounds, page, front);
      RecordOnTop(bounds, s, RecordedAll(bounds, front), last.attempt, last.final);
      RecordedOneMore(bounds, page + front, last);
      assert page + next == (page + front) + [last];
    }
  }

  lemma {:induction false} CountAppend(bounds: seq<real>, ds: seq<real>, es: seq<real>, first: nat, end: nat)
    ensures CountIn(bounds, ds + es, first, end) == CountIn(bounds, ds, first, end) + CountIn(bounds, es, first, end)
    ensures Total(ds + es) == Total(ds) + Total(es)
  {
    if es == [] {
      assert ds + es == ds;
    } else {
      var front, last := es[..|es| - 1], es[|es| - 1];
      CountAppend(bounds, ds, front, first, end);
      CountOneMore(bounds, ds + front, last, first, end);
      assert ds + es == (ds + front) + [last];
    }
  }

  /** Adding sums merges what they describe. */
  lemma AddMerges(bounds: seq<real>, s: Sums, ds: seq<real>, t: Sums, es: seq<real>)
    requires Describes(bounds, s, ds) && Describes(bounds, t, es)
    ensures Describes(bounds, Added(s, t, 1), ds + es)
  {
    CountAppend(bounds, ds, es, 0, 0);
    var h := AddedHistogram(s.histogram, t.histogram, 1);
    forall b | 0 <= b <= |bounds| ensures h[b] == CountIn(bounds, ds + es, b, b + 1) {
      CountAppend(bounds, ds, es, b, b + 1);
    }
  }

  /** Adding and then subtracting any sums restores every field. */
  lemma AddThenSubtract(s: Sums, other: Sums)
    requires |s.histogram| == |other.histogram|
    ensures Added(Added(s, other, 1), other, -1) == s
  {
    assert AddedHistogram(AddedHistogram(s.histogram, other.histogram, 1), other.histogram, -1) == s.histogram;
  }

  /** How many are in the first b buckets. */
  function Below(histogram: seq<int>, b: nat): int
    requires b <= |histogram|
  {
    if b == 0 then 0 else Below(histogram, b - 1) + histogram[b - 1]
  }

  lemma {:induction false} BelowCounts(bounds: seq<real>, histogram: seq<int>, ds: seq<real>, b: nat)
    requires Buckets(bounds, histogram, ds) && b <= |histogram|
    ensures Below(histogram, b) == CountIn(bounds, ds, 0, b)
  {
    if b == 0 {
      CountExtremes(bounds, ds);
    } else {
      BelowCounts(bounds, histogram, ds, b - 1);
      CountSplit(bounds, ds, b - 1);
    }
  }

  lemma {:induction false} CountSplit(bounds: seq<real>, ds: seq<real>, b: nat)
    ensures CountIn(bounds, ds, 0, b + 1) == CountIn(bounds, ds, 0, b) + CountIn(bounds, ds, b, b + 1)
  {
    if ds != [] {
      CountSplit(bounds, ds[..|ds| - 1], b);
    }
  }

  lemma {:induction false} CountExtremes(bounds: seq<real>, ds: seq<real>)
    ensures CountIn(bounds, ds, 0, 0) == 0
    ensures CountIn(bounds, ds, 0, |bounds| + 1) == |ds|
  {
    if ds != [] {
      CountExtremes(bounds, ds[..|ds| - 1]);
    }
  }

  /** The histogram adds up to the number of durations. */
  lemma HistogramAddsUp(bounds: seq<real>, s: Sums, ds: seq<real>)
    requires Describes(bounds, s, ds)
    ensures Below(s.histogram, |s.histogram|) == s.counts.durationCount
  {
    BelowCounts(bounds, s.histogram, ds, |s.histogram|);
    CountExtremes(bounds, ds);
  }

  // ---------- percentiles ----------

  function Ceil(x: real): int {
    -((-x).Floor)
  }

  function Target(n: int, p: real): int {
    Ceil(n as real * p)
  }

  lemma TargetIsPositive(n: int, p: real)
    requires n > 0 && p > 0.0
    ensures Target(n, p) >= 1
  {
    var x := n as real * p;
    assert x > 0.0;
    assert (-x).Floor < 0;
  }

  /** The first bucket, from b on, at which at least `target` durations have been counted. */
  function Reaching(histogram: seq<int>, b: nat, target: int): (r: Option<nat>)
    requires b <= |histogram|
    ensures r.Some? ==> b <= r.value < |histogram| && Below(histogram, r.value + 1) >= target
    ensures r.Some? ==> forall j :: b < j <= r.value ==> Below(histogram, j) < target
    ensures r.None? ==> forall j :: b < j <= |histogram| ==> Below(histogram, j) < target
    decreases |histogram| - b
  {
    if b == |histogram| then None
    else if Below(histogram, b + 1) >= target then Some(b)
    else Reaching(histogram, b + 1, target)
  }

  /** The place of the k-th of n durations spread over a bucket. */
  function Interpolate(lo: real, hi: real, k: int, n: int): real
    requires n != 0
  {
    lo + (hi - lo) * k as real / n as real
  }

  function PercentileAt(bounds: seq<real>, histogram: seq<int>, target: int): (Option<real>, bool)
    requires |histogram| == |bounds| + 1 && target >= 1
  {
    match Reaching(histogram, 0, target)
    case None => (None, false)
    case Some(b) =>
      assert Below(histogram, b) < target <= Below(histogram, b + 1);
      if b == |bounds| then (Some(Lower(bounds, b)), true)
      else (Some(Interpolate(Lower(bounds, b), bounds[b], target - Below(histogram, b), histogram[b])), false)
  }

  /** The interpolated percentile, and whether it stands for "at least"; None without data. */
  function Percentile(bounds: seq<real>, s: Sums, p: real): (Option<real>, bool)
    requires |s.histogram| == |bounds| + 1 && s.counts.durationCount >= 0 && p > 0.0
  {
    if s.counts.durationCount == 0 then (None, false)
    else
      TargetIsPositive(s.counts.durationCount, p);
      PercentileAt(bounds, s.histogram, Target(s.counts.durationCount, p))
  }

  method MetricPercentile(bounds: seq<real>, s: Sums, p: real) returns (v: Option<real>, capped: bool)
    requires |s.histogram| == |bounds| + 1 && s.counts.durationCount >= 0 && p > 0.0
    ensures (v, capped) == Percentile(bounds, s, p)
  {
    if s.counts.durationCount == 0 {
      return None, false;
    }
    var target := Target(s.counts.durationCount, p);
    TargetIsPositive(s.counts.durationCount, p);
    v, capped := ScanHistogram(bounds, s.histogram, target);
  }

  method ScanHistogram(bounds: seq<real>, histogram: seq<int>, target: int) returns (v: Option<real>, capped: bool)
    requires |histogram| == |bounds| + 1 && target >= 1
    ensures (v, capped) == PercentileAt(bounds, histogram, target)
  {
    var cumulative := 0;
    for i := 0 to |histogram|
      invariant cumulative == Below(histogram, i) < target
      invariant Reaching(histogram, 0, target) == Reaching(histogram, i, target)
    {
      var n := histogram[i];
      cumulative := cumulative + n;
      if cumulative >= target {
        var lo := 0.0;
        if i > 0 {
          lo := bounds[i - 1];
        }
        if i == |bounds| {
          return Some(lo), true;
        }
        return Some(Interpolate(lo, bounds[i], target - (cumulative - n), n)), false;
      }
    }
    return None, false;
  }

  // ---------- percentiles against the durations themselves ----------

  function CountLess(ds: seq<real>, x: real): nat {
    if ds == [] then 0 else CountLess(ds[..|ds| - 1], x) + if ds[|ds| - 1] < x then 1 else 0
  }

  function CountUpTo(ds: seq<real>, x: real): nat {
    if ds == [] then 0 else CountUpTo(ds[..|ds| - 1], x) + if ds[|ds| - 1] <= x then 1 else 0
  }

  /** The duration at index i is the k-th smallest. */
  predicate IsKth(ds: seq<real>, k: int, i: int) {
    0 <= i < |ds| && CountLess(ds, ds[i]) < k <= CountUpTo(ds, ds[i])
  }

  lemma {:induction false} UpToBelow(ds: seq<real>, y: real, x: real)
    requires y < x && forall j :: 0 <= j < |ds| && ds[j] < x ==> ds[j] <= y
    ensures CountUpTo(ds, y) == CountLess(ds, x)
  {
    if ds != [] {
      UpToBelow(ds[..|ds| - 1], y, x);
    }
  }

  lemma {:induction false} LessThanUpTo(ds: seq<real>, x: real)
    ensures CountLess(ds, x) <= CountUpTo(ds, x) <= |ds|
    ensures (exists j :: 0 <= j < |ds| && ds[j] == x) ==> CountLess(ds, x) < CountUpTo(ds, x)
    ensures (forall j :: 0 <= j < |ds| ==> ds[j] <= x) ==> CountUpTo(ds, x) == |ds|
  {
    if ds != [] {
      LessThanUpTo(ds[..|ds| - 1], x);
    }
  }

  /** The largest duration below x. */
  lemma {:induction false} Largest(ds: seq<real>, x: real) returns (i: nat)
    requires CountLess(ds, x) > 0
    ensures i < |ds| && ds[i] < x && forall j :: 0 <= j < |ds| && ds[j] < x ==> ds[j] <= ds[i]
  {
    var front, last := ds[..|ds| - 1], ds[|ds| - 1];
    if CountLess(front, x) > 0 {
      i := Largest(front, x);
      if front[i] < last < x {
        i := |ds| - 1;
      }
    } else {
      i := |ds| - 1;
      NoneLess(front, x);
    }
  }

  lemma {:induction false} NoneLess(ds: seq<real>, x: real)
    requires CountLess(ds, x) == 0
    ensures forall j :: 0 <= j < |ds| ==> ds[j] >= x
  {
    if ds != [] {
      NoneLess(ds[..|ds| - 1], x);
    }
  }

  lemma {:induction false} Highest(ds: seq<real>) returns (i: nat)
    requires ds != []
    ensures i < |ds| && forall j :: 0 <= j < |ds| ==> ds[j] <= ds[i]
  {
    i := |ds| - 1;
    if |ds| > 1 {
      var k := Highest(ds[..|ds| - 1]);
      if ds[k] > ds[i] {
        i := k;
      }
    }
  }

  lemma {:induction false} DescendToKth(ds: seq<real>, k: int, start: nat) returns (i: nat)
    requires start < |ds| && 1 <= k <= CountUpTo(ds, ds[start])
    ensures IsKth(ds, k, i)
    decreases CountLess(ds, ds[start])
  {
    i := start;
    if CountLess(ds, ds[start]) >= k {
      var next := Largest(ds, ds[start]);
      UpToBelow(ds, ds[next], ds[start]);
      LessThanUpTo(ds, ds[next]);
      i := DescendToKth(ds, k, next);
    }
  }

  /** Every rank has its duration. */
  lemma KthExists(ds: seq<real>, k: int) returns (i: nat)
    requires 1 <= k <= |ds|
    ensures IsKth(ds, k, i)
  {
    var high := Highest(ds);
    LessThanUpTo(ds, ds[high]);
    i := DescendToKth(ds, k, high);
  }

  lemma {:induction false} BucketsFollowOrder(bounds: seq<real>, ds: seq<real>, x: real)
    requires Ascending(bounds) && x > 0.0 && forall j :: 0 <= j < |ds| ==> ds[j] > 0.0
    ensures CountIn(bounds, ds, 0, BucketOf(bounds, x)) <= CountLess(ds, x)
    ensures CountUpTo(ds, x) <= CountIn(bounds, ds, 0, BucketOf(bounds, x) + 1)
  {
    if ds != [] {
      var last := ds[|ds| - 1];
      BucketsFollowOrder(bounds, ds[..|ds| - 1], x);
      BucketBrackets(bounds, last, x);
      BucketBrackets(bounds, x, last);
    }
  }

  lemma {:induction false} BelowGrows(bounds: seq<real>, histogram: seq<int>, ds: seq<real>, a: nat, b: nat)
    requires Buckets(bounds, histogram, ds) && a <= b <= |histogram|
    ensures Below(histogram, a) <= Below(histogram, b)
  {
    if a < b {
      BelowGrows(bounds, histogram, ds, a, b - 1);
    }
  }

  /** The k-th smallest duration lies in the bucket at which the count reaches k. */
  lemma KthIsInBucket(bounds: seq<real>, s: Sums, ds: seq<real>, k: int, i: nat)
    requires Ascending(bounds) && Describes(bounds, s, ds) && IsKth(ds, k, i) && k >= 1
    ensures Reaching(s.histogram, 0, k) == Some(BucketOf(bounds, ds[i]))
  {
    var h, b := s.histogram, BucketOf(bounds, ds[i]);
    BucketsFollowOrder(bounds, ds, ds[i]);
    BelowCounts(bounds, h, ds, b);
    BelowCounts(bounds, h, ds, b + 1);
    var reached := Reaching(h, 0, k);
    if reached.Some? && reached.value < b {
      BelowGrows(bounds, h, ds, reached.value + 1, b);
    }
  }

  lemma InterpolateInside(lo: real, hi: real, k: int, n: int)
    requires lo < hi && 1 <= k <= n
    ensures lo < Interpolate(lo, hi, k, n) <= hi
  {
    var w, a, b := hi - lo, k as real, n as real;
    ProductInside(w, a, b);
    QuotientInside(w * a, w, b);
  }

  lemma ProductInside(w: real, a: real, b: real)
    requires w > 0.0 && 0.0 < a <= b
    ensures 0.0 < w * a <= w * b
  {
  }

  lemma QuotientInside(x: real, w: real, b: real)
    requires 0.0 < x <= w * b && b > 0.0
    ensures 0.0 < x / b <= w
  {
    var q := x / b;
    assert q * b == x;
    assert q > w ==> q * b > w * b;
  }

  /** The value stands at the j-th of n equal steps from lo up to hi. */
  predicate Spread(lo: real, hi: real, v: real, j: int, n: int) {
    (v - lo) * n as real == (hi - lo) * j as real
  }

  lemma InterpolateSpreads(lo: real, hi: real, j: int, n: int)
    requires n > 0
    ensures Spread(lo, hi, Interpolate(lo, hi, j, n), j, n)
  {
    var x, m := (hi - lo) * j as real, n as real;
    assert Interpolate(lo, hi, j, n) - lo == x / m;
    assert x / m * m == x;
  }

  /** So the last of the steps is the upper bound. */
  lemma LastStepIsUpper(lo: real, hi: real, v: real, n: int)
    requires n > 0 && Spread(lo, hi, v, n, n)
    ensures v == hi
  {
    var m := n as real;
    assert (v - lo - (hi - lo)) * m == 0.0;
  }

  /** Four durations between one and two seconds: the second of them stands for 1.5 s. */
  lemma MedianOfFour()
    ensures PercentileAt([1.0, 2.0], [0, 4, 0], 2) == (Some(1.5), false)
  {
    var h := [0, 4, 0];
    assert Below(h, 1) == 0 && Below(h, 2) == 4;
    assert Reaching(h, 0, 2) == Some(1);
    assert Interpolate(1.0, 2.0, 2, 4) == 1.5;
  }

  /** An answer for the k-th smallest duration, which is the one at index i: with b its bucket, the durations of the
      bucket are spread evenly up to its upper bound, and the answer is where the k-th smallest then stands; in the
      last bucket, which has no upper bound, it is the lower one, marked as a lower bound of the duration. */
  ghost predicate Estimates(bounds: seq<real>, ds: seq<real>, k: int, i: nat, v: Option<real>, capped: bool)
    requires i < |ds|
  {
    var b := BucketOf(bounds, ds[i]);
    && v.Some? && Lower(bounds, b) <= ds[i] && capped == (b == |bounds|)
    && if capped then v.value == Lower(bounds, b)
       else
         && ds[i] < bounds[b] && Lower(bounds, b) < v.value <= bounds[b]
         && Spread(Lower(bounds, b), bounds[b], v.value, k - CountIn(bounds, ds, 0, b), CountIn(bounds, ds, b, b + 1))
  }

  lemma PercentileBrackets(bounds: seq<real>, s: Sums, ds: seq<real>, k: int, i: nat)
    requires Ascending(bounds) && Describes(bounds, s, ds) && IsKth(ds, k, i) && k >= 1
    ensures Estimates(bounds, ds, k, i, PercentileAt(bounds, s.histogram, k).0, PercentileAt(bounds, s.histogram, k).1)
  {
    var h, b := s.histogram, BucketOf(bounds, ds[i]);
    KthIsInBucket(bounds, s, ds, k, i);
    BucketBrackets(bounds, ds[i], ds[i]);
    BelowCounts(bounds, h, ds, b);
    assert Below(h, b) < k <= Below(h, b) + h[b];
    if b < |bounds| {
      InterpolateInside(Lower(bounds, b), bounds[b], k - Below(h, b), h[b]);
      InterpolateSpreads(Lower(bounds, b), bounds[b], k - Below(h, b), h[b]);
    }
  }

  /** The least rank that is at least n p. */
  predicate IsRank(n: int, p: real, k: int) {
    k as real - 1.0 < n as real * p <= k as real
  }

  lemma RankIsCeiling(n: int, p: real)
    ensures IsRank(n, p, Target(n, p))
  {
  }

  /** The percentile read from a recorder, against the attempts themselves: with n timed durations and k the least
      rank that is at least n p, the answer estimates the k-th smallest of them. */
  lemma RecordedPercentile(bounds: seq<real>, entries: seq<Recording>, p: real) returns (k: int, i: nat)
    requires Ascending(bounds) && TimedOf(entries) != [] && 0.0 < p <= 1.0
    ensures IsRank(|TimedOf(entries)|, p, k) && IsKth(TimedOf(entries), k, i)
    ensures RecordedAll(bounds, entries).counts.durationCount == |TimedOf(entries)|
    ensures var (v, capped) := Percentile(bounds, RecordedAll(bounds, entries), p);
            Estimates(bounds, TimedOf(entries), k, i, v, capped)
  {
    var ds := TimedOf(entries);
    RecordedAllDescribes(bounds, entries);
    k, i := DescribedPercentile(bounds, RecordedAll(bounds, entries), ds, p);
  }

  lemma DescribedPercentile(bounds: seq<real>, s: Sums, ds: seq<real>, p: real) returns (k: int, i: nat)
    requires Ascending(bounds) && Describes(bounds, s, ds) && ds != [] && 0.0 < p <= 1.0
    ensures IsRank(|ds|, p, k) && IsKth(ds, k, i)
    ensures Estimates(bounds, ds, k, i, Percentile(bounds, s, p).0, Percentile(bounds, s, p).1)
  {
    k := Target(|ds|, p);
    RankIsCeiling(|ds|, p);
    TargetGrows(|ds|, p, p);
    i := KthExists(ds, k);
    PercentileBrackets(bounds, s, ds, k, i);
    PercentileIs(bounds, s, p, k);
  }

  /** Without a timed success there is no percentile. */
  lemma NothingTimedNothingRead(bounds: seq<real>, entries: seq<Recording>, p: real)
    requires TimedOf(entries) == [] && p > 0.0
    ensures RecordedAll(bounds, entries).counts.durationCount == 0
    ensures Percentile(bounds, RecordedAll(bounds, entries), p) == (None, false)
  {
    RecordedAllDescribes(bounds, entries);
  }

  lemma PercentileIs(bounds: seq<real>, s: Sums, p: real, k: int)
    requires |s.histogram| == |bounds| + 1 && s.counts.durationCount > 0 && p > 0.0
    requires k >= 1 && k == Target(s.counts.durationCount, p)
    ensures Percentile(bounds, s, p) == PercentileAt(bounds, s.histogram, k)
  {
  }

  lemma InterpolateGrows(lo: real, hi: real, k: int, l: int, n: int)
    requires lo < hi && k <= l && n > 0
    ensures Interpolate(lo, hi, k, n) <= Interpolate(lo, hi, l, n)
  {
    var x, y := (hi - lo) * k as real, (hi - lo) * l as real;
    assert y - x == (hi - lo) * (l - k) as real;
    assert x <= y;
    assert x / n as real <= y / n as real;
  }

  /** Percentiles grow with their rank. */
  lemma PercentileGrows(bounds: seq<real>, s: Sums, ds: seq<real>, k: int, l: int)
    requires Ascending(bounds) && Describes(bounds, s, ds) && 1 <= k <= l <= |ds|
    ensures PercentileAt(bounds, s.histogram, k).0.Some? && PercentileAt(bounds, s.histogram, l).0.Some?
    ensures PercentileAt(bounds, s.histogram, k).0.value <= PercentileAt(bounds, s.histogram, l).0.value
  {
    var h := s.histogram;
    var i := KthExists(ds, k);
    var j := KthExists(ds, l);
    PercentileBrackets(bounds, s, ds, k, i);
    PercentileBrackets(bounds, s, ds, l, j);
    KthIsInBucket(bounds, s, ds, k, i);
    KthIsInBucket(bounds, s, ds, l, j);
    var b, c := BucketOf(bounds, ds[i]), BucketOf(bounds, ds[j]);
    if b == c {
      if b < |bounds| {
        InterpolateGrows(Lower(bounds, b), bounds[b], k - Below(h, b), l - Below(h, b), h[b]);
      }
    }
  }

  lemma TargetGrows(n: int, p: real, q: real)
    requires n > 0 && 0.0 < p <= q <= 1.0
    ensures 1 <= Target(n, p) <= Target(n, q) <= n
  {
    var x, y := n as real * p, n as real * q;
    TargetIsPositive(n, p);
    ScaleOrder(n as real, p, q);
    assert x <= y <= n as real;
    assert (-y).Floor <= (-x).Floor;
  }

  lemma ScaleOrder(n: real, p: real, q: real)
    requires n > 0.0 && p <= q <= 1.0
    ensures n * p <= n * q <= n
  {
  }

  /** Higher percentiles are never lower, and none is missing when there are samples: P50, P95 and P99 in order. */
  lemma PercentilesInOrder(bounds: seq<real>, s: Sums, ds: seq<real>, p: real, q: real)
    requires Ascending(bounds) && Describes(bounds, s, ds) && ds != [] && 0.0 < p <= q <= 1.0
    ensures Percentile(bounds, s, p).0.Some? && Percentile(bounds, s, q).0.Some?
    ensures Percentile(bounds, s, p).0.value <= Percentile(bounds, s, q).0.value
  {
    TargetGrows(|ds|, p, q);
    PercentileGrows(bounds, s, ds, Target(|ds|, p), Target(|ds|, q));
  }
}
