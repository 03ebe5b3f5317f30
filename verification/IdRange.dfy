/** Turning a time range into an id range by a capped binary search over the primary key (model/id_range.go). */
module IdRange {
  import opened Text

  datatype Row = Row(id: int, createdAt: int)

  const PASSES := 100

  /** Ids have 63 bits. */
  const ID_LIMIT := 0x8000_0000_0000_0000

  /** A table in primary-key order. */
  ghost predicate Keyed(rows: seq<Row>) {
    && (forall i :: 0 <= i < |rows| ==> rows[i].id >= 0)
    && forall i, j :: 0 <= i < j < |rows| ==> rows[i].id < rows[j].id
  }

  /** Later rows are not older. */
  ghost predicate Chronological(rows: seq<Row>) {
    forall i, j :: 0 <= i < j < |rows| ==> rows[i].createdAt <= rows[j].createdAt
  }

  ghost predicate GapFree(rows: seq<Row>) {
    forall i :: 0 <= i < |rows| ==> rows[i].id == rows[0].id + i
  }

  /** The first row, from index i on, whose id is at least `id`. */
  function FirstFrom(rows: seq<Row>, id: int, i: nat): (k: nat)
    requires i <= |rows|
    ensures i <= k <= |rows|
    ensures forall j :: i <= j < k ==> rows[j].id < id
    ensures k < |rows| ==> rows[k].id >= id
    decreases |rows| - i
  {
    if i < |rows| && rows[i].id < id then FirstFrom(rows, id, i + 1) else i
  }

  datatype Window = Window(lo: int, hi: int, result: int)

  function Middle(w: Window): int {
    (w.lo + w.hi + 1) / 2
  }

  /** One pass of the loop. */
  function Pass(rows: seq<Row>, timestamp: int, w: Window): Window {
    var k := FirstFrom(rows, Middle(w), 0);
    if k == |rows| || rows[k].id == 0 then w.(hi := Middle(w) - 1)
    else if rows[k].createdAt < timestamp then w.(lo := rows[k].id + 1, result := rows[k].id)
    else w.(hi := rows[k].id - 1)
  }

  /** Up to n passes, stopping when the window is empty or a single id. */
  function Passes(rows: seq<Row>, timestamp: int, w: Window, n: nat): Window
    decreases |rows|, n
  {
    if n == 0 || w.lo >= w.hi then w else Passes(rows, timestamp, Pass(rows, timestamp, w), n - 1)
  }

  function Search(rows: seq<Row>, timestamp: int): int
    requires rows != []
  {
    Passes(rows, timestamp, Window(rows[0].id, rows[|rows| - 1].id, 0), PASSES).result
  }

  /** The id found: 0 when no row is earlier, the last one when all are, else what the search gives. */
  function Bound(rows: seq<Row>, timestamp: int): int
    requires rows != []
  {
    if rows[0].createdAt >= timestamp then 0
    else if rows[|rows| - 1].createdAt < timestamp then rows[|rows| - 1].id
    else Search(rows, timestamp)
  }

  /** findMaxIdByTimestampGeneric: `found` is false for an empty table (or one with id 0 at its start). */
  method FindMaxIdByTimestamp(rows: seq<Row>, timestamp: int) returns (id: int, found: bool)
    requires Keyed(rows)
    ensures found == (rows != [] && rows[0].id != 0)
    ensures id == if found then Bound(rows, timestamp) else 0
  {
    if |rows| == 0 || rows[0].id == 0 || rows[|rows| - 1].id == 0 {
      return 0, false;
    }
    if rows[0].createdAt >= timestamp {
      return 0, true;
    }
    if rows[|rows| - 1].createdAt < timestamp {
      return rows[|rows| - 1].id, true;
    }
    id := SearchIds(rows, timestamp, rows[0].id, rows[|rows| - 1].id);
    found := true;
  }

  /** Its loop. */
  method SearchIds(rows: seq<Row>, timestamp: int, first: int, last: int) returns (resultId: int)
    ensures resultId == Passes(rows, timestamp, Window(first, last, 0), PASSES).result
  {
    var minId, maxId := first, last;
    resultId := 0;
    var i := 0;
    while minId < maxId && i < PASSES
      invariant 0 <= i <= PASSES
      invariant Passes(rows, timestamp, Window(minId, maxId, resultId), PASSES - i)
             == Passes(rows, timestamp, Window(first, last, 0), PASSES)
      decreases PASSES - i
    {
      ghost var w := Window(minId, maxId, resultId);
      var midId := (minId + maxId + 1) / 2;
      var k := FirstFrom(rows, midId, 0);
      if k == |rows| || rows[k].id == 0 {
        maxId := midId - 1;
      } else if rows[k].createdAt < timestamp {
        resultId := rows[k].id;
        minId := rows[k].id + 1;
      } else {
        maxId := rows[k].id - 1;
      }
      assert Window(minId, maxId, resultId) == Pass(rows, timestamp, w);
      i := i + 1;
    }
  }

  // ---------- any table: what is returned was read ----------

  ghost predicate IsEarlier(rows: seq<Row>, timestamp: int, id: int) {
    exists i :: 0 <= i < |rows| && rows[i].id == id && rows[i].createdAt < timestamp
  }

  lemma {:induction false} PassesAreSound(rows: seq<Row>, timestamp: int, w: Window, n: nat)
    requires w.result == 0 || IsEarlier(rows, timestamp, w.result)
    ensures var r := Passes(rows, timestamp, w, n).result; r == 0 || IsEarlier(rows, timestamp, r)
    decreases n
  {
    if n > 0 && w.lo < w.hi {
      PassesAreSound(rows, timestamp, Pass(rows, timestamp, w), n - 1);
    }
  }

  /** With or without gaps: the id found belongs to an earlier row, so it never exceeds the largest such id. */
  lemma FoundIdIsEarlier(rows: seq<Row>, timestamp: int)
    requires rows != []
    ensures Search(rows, timestamp) == 0 || IsEarlier(rows, timestamp, Search(rows, timestamp))
  {
    PassesAreSound(rows, timestamp, Window(rows[0].id, rows[|rows| - 1].id, 0), PASSES);
  }

  // ---------- gap-free tables ----------

  /** The largest id before the timestamp, which lies strictly inside the table's ids or at their start. */
  ghost predicate Splits(rows: seq<Row>, timestamp: int, answer: int) {
    && rows != [] && rows[0].id > 0 && rows[0].id <= answer < rows[|rows| - 1].id
    && forall i :: 0 <= i < |rows| ==> (rows[i].createdAt < timestamp <==> rows[i].id <= answer)
  }

  /** Whenever the search is needed there is such an id. */
  lemma SearchHasAnAnswer(rows: seq<Row>, timestamp: int) returns (answer: int)
    requires Keyed(rows) && Chronological(rows) && rows != [] && rows[0].id > 0
    requires rows[0].createdAt < timestamp <= rows[|rows| - 1].createdAt
    ensures Splits(rows, timestamp, answer)
  {
    var k := 0;
    while rows[k + 1].createdAt < timestamp
      invariant 0 <= k < |rows| - 1 && rows[k].createdAt < timestamp
      decreases |rows| - k
    {
      k := k + 1;
    }
    answer := rows[k].id;
    forall i | 0 <= i < |rows| ensures rows[i].createdAt < timestamp <==> rows[i].id <= answer {
      if i <= k {
        assert rows[i].createdAt <= rows[k].createdAt;
      } else {
        assert rows[k + 1].createdAt <= rows[i].createdAt;
      }
    }
  }

  lemma MiddleIsRead(rows: seq<Row>, w: Window)
    requires rows != [] && Keyed(rows) && GapFree(rows) && rows[0].id > 0
    requires rows[0].id <= w.lo < w.hi <= rows[|rows| - 1].id
    ensures var k := FirstFrom(rows, Middle(w), 0); k < |rows| && rows[k].id == Middle(w)
    ensures w.lo < Middle(w) <= w.hi
  {
    var k := FirstFrom(rows, Middle(w), 0);
    var j := Middle(w) - rows[0].id;
    assert rows[j].id == Middle(w);
    assert k <= j;
  }

  function Pow2(k: nat): nat {
    if k == 0 then 1 else 2 * Pow2(k - 1)
  }

  lemma {:induction false} Pow2Sum(a: nat, b: nat)
    ensures Pow2(a + b) == Pow2(a) * Pow2(b)
  {
    if a > 0 {
      Pow2Sum(a - 1, b);
    }
  }

  lemma LimitIsPower()
    ensures Pow2(63) == ID_LIMIT
  {
    assert Pow2(7) == 128;
    Pow2Sum(7, 7);
    Pow2Sum(14, 7);
    Pow2Sum(21, 21);
    Pow2Sum(42, 21);
  }

  /** A pass that knows on which side of the answer the middle lies. */
  function Seek(answer: int, w: Window): Window {
    if Middle(w) <= answer then Window(Middle(w) + 1, w.hi, Middle(w)) else w.(hi := Middle(w) - 1)
  }

  function Seeks(answer: int, w: Window, n: nat): Window
    decreases answer, n
  {
    if n == 0 || w.lo >= w.hi then w else Seeks(answer, Seek(answer, w), n - 1)
  }

  /** On a gap-free table the search is a search for the answer. */
  lemma {:induction false} PassesSeek(rows: seq<Row>, timestamp: int, answer: int, w: Window, n: nat)
    requires Keyed(rows) && GapFree(rows) && Splits(rows, timestamp, answer)
    requires rows[0].id <= w.lo && w.hi <= rows[|rows| - 1].id
    ensures Passes(rows, timestamp, w, n) == Seeks(answer, w, n)
    decreases n
  {
    if n > 0 && w.lo < w.hi {
      MiddleIsRead(rows, w);
      PassesSeek(rows, timestamp, answer, Pass(rows, timestamp, w), n - 1);
    }
  }

  /** A pass at least halves the window. */
  lemma SeekHalves(answer: int, w: Window)
    requires w.lo < w.hi
    ensures 2 * (Seek(answer, w).hi - Seek(answer, w).lo + 1) <= w.hi - w.lo + 1
  {
  }

  /** However large the table, a window of less than 2^n ids is searched in n passes. */
  lemma {:induction false} PassesSuffice(answer: int, w: Window, n: nat, cap: nat)
    requires w.hi - w.lo + 1 < Pow2(n) && n <= cap
    ensures Seeks(answer, w, cap) == Seeks(answer, w, n)
    ensures Seeks(answer, w, n).lo >= Seeks(answer, w, n).hi
    decreases n
  {
    if w.lo < w.hi {
      SeekHalves(answer, w);
      PassesSuffice(answer, Seek(answer, w), n - 1, cap - 1);
    }
  }

  /** The cap of 100 passes never cuts the search short for ids of 63 bits. */
  lemma CapNeverBinds(rows: seq<Row>, timestamp: int, answer: int)
    requires Keyed(rows) && GapFree(rows) && Splits(rows, timestamp, answer)
    requires rows[|rows| - 1].id < ID_LIMIT
    ensures var w := Window(rows[0].id, rows[|rows| - 1].id, 0);
            && Passes(rows, timestamp, w, PASSES) == Passes(rows, timestamp, w, 63) == Seeks(answer, w, 63)
            && Passes(rows, timestamp, w, PASSES).lo >= Passes(rows, timestamp, w, PASSES).hi
  {
    var w := Window(rows[0].id, rows[|rows| - 1].id, 0);
    LimitIsPower();
    PassesSuffice(answer, w, 63, PASSES);
    PassesSeek(rows, timestamp, answer, w, 63);
    PassesSeek(rows, timestamp, answer, w, PASSES);
  }

  // ---------- the row that is never read ----------

  /** Among n consecutive ids the search tree reads the middle one and goes on in the ids on either side of
      it; an id left alone is not read. Place k, from 0, is one of those. */
  predicate LeftAlone(n: nat, k: int)
    decreases n
  {
    if n <= 1 then n == 1 && k == 0
    else if k < n / 2 then LeftAlone(n / 2, k)
    else k > n / 2 && LeftAlone(n - n / 2 - 1, k - n / 2 - 1)
  }

  /** The search inside a window ends with the answer, unless the answer's id is left alone: then with what
      was found before, the id just below the answer unless the answer is the first of all. */
  lemma {:induction false} WindowResult(first: int, answer: int, w: Window, size: nat, n: nat)
    requires first <= w.lo && first <= answer && size == w.hi - w.lo + 1 < Pow2(n)
    requires w.lo - 1 <= answer <= w.hi
    requires w.result == if w.lo == first then 0 else w.lo - 1
    ensures Seeks(answer, w, n).result == Outcome(first, answer, LeftAlone(size, answer - w.lo))
    decreases n
  {
    if w.lo < w.hi {
      MiddleOffset(w);
      LeftAloneStep(size, answer - w.lo);
      WindowResult(first, answer, Seek(answer, w),
                   if answer - w.lo < size / 2 then size / 2 else size - size / 2 - 1, n - 1);
    }
  }

  function Outcome(first: int, answer: int, unread: bool): int {
    if !unread then answer else if answer == first then 0 else answer - 1
  }

  lemma {:induction false} NotBeforeTheWindow(n: nat)
    ensures !LeftAlone(n, -1)
  {
    if n > 1 {
      NotBeforeTheWindow(n / 2);
    }
  }

  lemma LeftAloneStep(size: nat, place: int)
    requires size >= 2
    ensures LeftAlone(size, place)
         == if place < size / 2 then LeftAlone(size / 2, place)
            else LeftAlone(size - size / 2 - 1, place - size / 2 - 1)
  {
    NotBeforeTheWindow(size - size / 2 - 1);
  }

  lemma MiddleOffset(w: Window)
    ensures Middle(w) == w.lo + (w.hi - w.lo + 1) / 2
  {
  }

  lemma Bits() returns (n: nat)
    ensures n <= PASSES && Pow2(n) == ID_LIMIT
  {
    n := 63;
    LimitIsPower();
  }

  lemma SeeksOutcome(first: int, last: int, answer: int, size: nat, n: nat, cap: nat)
    requires first <= answer < last && size == last - first + 1 < Pow2(n) && n <= cap
    ensures Seeks(answer, Window(first, last, 0), cap).result == Outcome(first, answer, LeftAlone(size, answer - first))
  {
    PassesSuffice(answer, Window(first, last, 0), n, cap);
    WindowResult(first, answer, Window(first, last, 0), size, n);
  }

  lemma IdsSpanTable(rows: seq<Row>)
    requires rows != [] && GapFree(rows)
    ensures rows[|rows| - 1].id - rows[0].id + 1 == |rows|
  {
  }

  lemma SearchOutcome(rows: seq<Row>, timestamp: int, answer: int)
    requires Keyed(rows) && GapFree(rows) && Splits(rows, timestamp, answer)
    requires rows[|rows| - 1].id < ID_LIMIT
    ensures Search(rows, timestamp) == Outcome(rows[0].id, answer, LeftAlone(|rows|, answer - rows[0].id))
  {
    PassesSeek(rows, timestamp, answer, Window(rows[0].id, rows[|rows| - 1].id, 0), PASSES);
    IdsSpanTable(rows);
    var n := Bits();
    SeeksOutcome(rows[0].id, rows[|rows| - 1].id, answer, |rows|, n, PASSES);
  }

  /** The result is exact if and only if the answer's place is not left alone by the search tree; otherwise
      it is exactly one row short (and 0 when that is the first row). */
  lemma ExactIff(rows: seq<Row>, timestamp: int, answer: int)
    requires Keyed(rows) && GapFree(rows) && Splits(rows, timestamp, answer)
    requires rows[|rows| - 1].id < ID_LIMIT
    ensures Search(rows, timestamp) == answer <==> !LeftAlone(|rows|, answer - rows[0].id)
    ensures Search(rows, timestamp) != answer
            ==> Search(rows, timestamp) == if answer == rows[0].id then 0 else answer - 1
  {
    SearchOutcome(rows, timestamp, answer);
  }

  lemma {:induction false} FirstIsLeftAlone(n: nat)
    requires n >= 1
    ensures LeftAlone(n, 0)
  {
    if n > 1 {
      FirstIsLeftAlone(n / 2);
    }
  }

  /** When only the first row is early enough the search returns 0, which its callers read as "no row is". */
  lemma FirstRowIsNeverFound(rows: seq<Row>, timestamp: int)
    requires rows != [] && Keyed(rows) && GapFree(rows) && Splits(rows, timestamp, rows[0].id)
    requires rows[|rows| - 1].id < ID_LIMIT
    ensures Search(rows, timestamp) == 0
  {
    FirstIsLeftAlone(|rows|);
    ExactIff(rows, timestamp, rows[0].id);
  }

  // ---------- any table, gaps included ----------

  /** The answer is the id of the last row before the timestamp, and there are later rows. */
  ghost predicate IsAnswer(rows: seq<Row>, timestamp: int, answer: int) {
    Keyed(rows) && Splits(rows, timestamp, answer) && IsEarlier(rows, timestamp, answer)
  }

  /** A pass told by ids: no row to read, one up to the answer, or one above it. */
  function SeekRow(rows: seq<Row>, answer: int, w: Window): Window {
    var k := FirstFrom(rows, Middle(w), 0);
    if k == |rows| then w.(hi := Middle(w) - 1)
    else if rows[k].id <= answer then Window(rows[k].id + 1, w.hi, rows[k].id)
    else w.(hi := rows[k].id - 1)
  }

  /** The search tree over the ids there are, followed towards one of them: None when its row is read within n
      passes, else the start of the window in which the search for it ends. A window ends the search when it
      holds one id or less, when the passes are used up, or when the row read lies beyond it: the next pass is
      then the same again. */
  function MissedFrom(rows: seq<Row>, id: int, w: Window, n: nat): Option<int>
    decreases |rows|, n
  {
    if n == 0 || w.lo >= w.hi then Some(w.lo)
    else
      var k := FirstFrom(rows, Middle(w), 0);
      if k < |rows| && rows[k].id == id then None else MissedFrom(rows, id, SeekRow(rows, id, w), n - 1)
  }

  function SeekRows(rows: seq<Row>, answer: int, w: Window, n: nat): Window
    decreases |rows|, n
  {
    if n == 0 || w.lo >= w.hi then w else SeekRows(rows, answer, SeekRow(rows, answer, w), n - 1)
  }

  lemma {:induction false} PassesSeekRows(rows: seq<Row>, timestamp: int, answer: int, w: Window, n: nat)
    requires Keyed(rows) && Splits(rows, timestamp, answer)
    ensures Passes(rows, timestamp, w, n) == SeekRows(rows, answer, w, n)
    decreases n
  {
    if n > 0 && w.lo < w.hi {
      PassesSeekRows(rows, timestamp, answer, SeekRow(rows, answer, w), n - 1);
    }
  }

  /** Once the answer is read nothing else is. */
  lemma {:induction false} AnswerStays(rows: seq<Row>, answer: int, w: Window, n: nat)
    requires w.lo == answer + 1 && w.result == answer
    ensures SeekRows(rows, answer, w, n).result == answer
    decreases n
  {
    if n > 0 && w.lo < w.hi {
      AnswerStays(rows, answer, SeekRow(rows, answer, w), n - 1);
    }
  }

  /** What the search returns. */
  function Returned(first: int, answer: int, missed: Option<int>): int {
    if missed.None? then answer else if missed.value == first then 0 else missed.value - 1
  }

  lemma {:induction false} MissedResult(rows: seq<Row>, first: int, a: nat, w: Window, n: nat)
    requires a < |rows| && first <= w.lo <= rows[a].id <= w.hi
    requires w.result == if w.lo == first then 0 else w.lo - 1
    ensures var missed := MissedFrom(rows, rows[a].id, w, n); missed.Some? ==> first <= missed.value <= rows[a].id
    ensures SeekRows(rows, rows[a].id, w, n).result == Returned(first, rows[a].id, MissedFrom(rows, rows[a].id, w, n))
    decreases n
  {
    if n > 0 && w.lo < w.hi {
      var k := FirstFrom(rows, Middle(w), 0);
      var next := SeekRow(rows, rows[a].id, w);
      assert k == |rows| ==> rows[a].id < Middle(w);
      if k < |rows| && rows[k].id == rows[a].id {
        AnswerStays(rows, rows[a].id, next, n - 1);
      } else {
        MissedResult(rows, first, a, next, n - 1);
      }
    }
  }

  /** On any table, whatever its gaps: the result is exact if and only if the search tree over its ids reads the
      answer's id; otherwise it is the id read just below the window where the search for it ends, 0 when
      none was. */
  lemma ExactOnAnyTableIff(rows: seq<Row>, timestamp: int, answer: int)
    requires IsAnswer(rows, timestamp, answer)
    ensures var missed := MissedFrom(rows, answer, Window(rows[0].id, rows[|rows| - 1].id, 0), PASSES);
            && (Search(rows, timestamp) == answer <==> missed == None)
            && Search(rows, timestamp) == Returned(rows[0].id, answer, missed)
  {
    var a :| 0 <= a < |rows| && rows[a].id == answer && rows[a].createdAt < timestamp;
    PassesSeekRows(rows, timestamp, answer, Window(rows[0].id, rows[|rows| - 1].id, 0), PASSES);
    MissedResult(rows, rows[0].id, a, Window(rows[0].id, rows[|rows| - 1].id, 0), PASSES);
  }

  /** If no id lies in the upper half of the window and the next row is late, a pass changes nothing, and so
      no number of passes does. */
  lemma {:induction false} GapStopsTheSearch(rows: seq<Row>, timestamp: int, w: Window, n: nat)
    requires var k := FirstFrom(rows, Middle(w), 0);
             k < |rows| && rows[k].id == w.hi + 1 && rows[k].id != 0 && rows[k].createdAt >= timestamp
    ensures Passes(rows, timestamp, w, n) == w
    decreases n
  {
    if n > 0 {
      GapStopsTheSearch(rows, timestamp, w, n - 1);
    }
  }

  /** When all ids but the last lie in the lower half of their range, the search never gets past the gap below
      the last one: it reports none, however many rows are early. */
  lemma UpperHalfEmpty(rows: seq<Row>, timestamp: int)
    requires Keyed(rows) && |rows| >= 2 && rows[0].id > 0 && rows[|rows| - 1].createdAt >= timestamp
    requires rows[|rows| - 2].id < (rows[0].id + rows[|rows| - 1].id) / 2
    ensures Search(rows, timestamp) == 0
  {
    var first, last := rows[0].id, rows[|rows| - 1].id;
    var w := Window(first, last, 0);
    OnlyLastFrom(rows, Middle(w));
    assert Pass(rows, timestamp, w) == Window(first, last - 1, 0);
    OnlyLastFrom(rows, (first + last) / 2);
    GapStopsTheSearch(rows, timestamp, Window(first, last - 1, 0), PASSES - 1);
  }

  lemma OnlyLastFrom(rows: seq<Row>, id: int)
    requires Keyed(rows) && |rows| >= 2 && rows[|rows| - 2].id < id <= rows[|rows| - 1].id
    ensures FirstFrom(rows, id, 0) == |rows| - 1
  {
    forall i | 0 <= i < |rows| - 1 ensures rows[i].id < id {
      assert i == |rows| - 2 || rows[i].id < rows[|rows| - 2].id;
    }
  }

  /** Ids 1, 2, 3 and 10, the first three early. */
  lemma GapExample()
    ensures Search([Row(1, 5), Row(2, 5), Row(3, 5), Row(10, 9)], 7) == 0
  {
    UpperHalfEmpty([Row(1, 5), Row(2, 5), Row(3, 5), Row(10, 9)], 7);
  }

  // ---------- the range of ids ----------

  /** The conditions added to a query: id > above, id <= upTo, or one that no row meets. */
  datatype Filter = Filter(above: Option<int>, upTo: Option<int>, nothing: bool)

  predicate Keeps(f: Filter, id: int) {
    !f.nothing && (f.above.Some? ==> id > f.above.value) && (f.upTo.Some? ==> id <= f.upTo.value)
  }

  /** The answer the search approximates, 0 when no row is earlier. */
  ghost predicate IsLastBefore(rows: seq<Row>, timestamp: int, answer: int) {
    && (answer == 0 || IsEarlier(rows, timestamp, answer))
    && forall i :: 0 <= i < |rows| && rows[i].createdAt < timestamp ==> rows[i].id <= answer
  }

  /** A table on which the search is meant to work. */
  ghost predicate Regular(rows: seq<Row>) {
    && rows != [] && Keyed(rows) && GapFree(rows) && Chronological(rows)
    && rows[0].id > 0 && rows[|rows| - 1].id < ID_LIMIT
  }

  /** Ids up to the bound are early, ids above it are late, but for the last early one, which may be above. */
  ghost predicate Close(rows: seq<Row>, timestamp: int, bound: int) {
    forall i :: 0 <= i < |rows| ==>
      && (rows[i].id <= bound ==> rows[i].createdAt < timestamp)
      && (rows[i].id > bound ==> rows[i].createdAt >= timestamp || IsLastBefore(rows, timestamp, rows[i].id))
  }

  lemma BoundIsClose(rows: seq<Row>, timestamp: int)
    requires Regular(rows)
    ensures Close(rows, timestamp, Bound(rows, timestamp))
  {
    if rows[0].createdAt < timestamp <= rows[|rows| - 1].createdAt {
      var answer := SearchHasAnAnswer(rows, timestamp);
      ExactIff(rows, timestamp, answer);
    }
  }

  /** No row in the range is lost but, possibly, the last one, and no row outside is kept but, possibly, the
      last one before the start. */
  ghost predicate NearlyExact(rows: seq<Row>, start: int, end: int, f: Filter) {
    forall i :: 0 <= i < |rows| ==>
      var inside := (start > 0 ==> start <= rows[i].createdAt) && (end > 0 ==> rows[i].createdAt <= end);
      && (inside && !Keeps(f, rows[i].id) ==> end > 0 && IsLastBefore(rows, end + 1, rows[i].id))
      && (!inside && Keeps(f, rows[i].id) ==> start > 0 && IsLastBefore(rows, start, rows[i].id))
  }

  /** On any table: the start loses no row of its side, and the end lets none in from beyond it. */
  ghost predicate OneSided(rows: seq<Row>, start: int, end: int, f: Filter) {
    forall i :: 0 <= i < |rows| ==>
      && (start > 0 && f.above.Some? && rows[i].id <= f.above.value ==> rows[i].createdAt < start)
      && (end > 0 && Keeps(f, rows[i].id) && (f.nothing || f.upTo.Some?) ==> rows[i].createdAt <= end)
  }

  ghost predicate AllEarly(rows: seq<Row>, timestamp: int, bound: int) {
    forall i :: 0 <= i < |rows| && rows[i].id <= bound ==> rows[i].createdAt < timestamp
  }

  lemma EarlyUpTo(rows: seq<Row>, timestamp: int, k: nat)
    requires Keyed(rows) && Chronological(rows) && k < |rows| && rows[k].createdAt < timestamp
    ensures AllEarly(rows, timestamp, rows[k].id)
  {
    forall i | 0 <= i < |rows| ensures if i <= k then rows[i].createdAt < timestamp else rows[i].id > rows[k].id {
    }
  }

  lemma NoneUpToZero(rows: seq<Row>, timestamp: int)
    requires rows != [] && Keyed(rows) && rows[0].id > 0
    ensures AllEarly(rows, timestamp, 0)
  {
    forall i | 0 <= i < |rows| ensures rows[i].id > 0 {
      assert i == 0 || rows[0].id < rows[i].id;
    }
  }

  /** The bound never exceeds the early ids, with or without gaps. */
  lemma BoundIsEarly(rows: seq<Row>, timestamp: int)
    requires rows != [] && Keyed(rows) && Chronological(rows) && rows[0].id > 0
    ensures AllEarly(rows, timestamp, Bound(rows, timestamp))
  {
    var bound := Bound(rows, timestamp);
    FoundIdIsEarlier(rows, timestamp);
    if bound == 0 {
      NoneUpToZero(rows, timestamp);
    } else if rows[|rows| - 1].createdAt < timestamp {
      EarlyUpTo(rows, timestamp, |rows| - 1);
    } else {
      var k :| 0 <= k < |rows| && rows[k].id == bound && rows[k].createdAt < timestamp;
      EarlyUpTo(rows, timestamp, k);
    }
  }

  lemma FilterIsNearlyExact(rows: seq<Row>, start: int, end: int, f: Filter, low: int, high: int)
    requires forall i :: 0 <= i < |rows| ==> rows[i].id > 0
    requires start > 0 ==> Close(rows, start, low)
    requires end > 0 ==> Close(rows, end + 1, high)
    requires f.above == if start > 0 && low > 0 then Some(low) else None
    requires f.upTo == if end > 0 && high > 0 then Some(high) else None
    requires f.nothing == (end > 0 && high == 0)
    requires low >= 0 && high >= 0
    ensures NearlyExact(rows, start, end, f)
  {
  }

  /** applyTimestampIdRange: 0 leaves a side open. */
  method ApplyTimestampIdRange(rows: seq<Row>, start: int, end: int) returns (f: Filter)
    requires Keyed(rows)
    ensures Regular(rows) ==> NearlyExact(rows, start, end, f)
    ensures rows != [] && rows[0].id > 0 && Chronological(rows) ==> OneSided(rows, start, end, f)
  {
    f := Filter(None, None, false);
    ghost var low, high := 0, 0;
    if start > 0 {
      var startId, found := FindMaxIdByTimestamp(rows, start);
      if found && startId > 0 {
        f := f.(above := Some(startId));
      }
      low := startId;
    }
    if end > 0 {
      var endId, found := FindMaxIdByTimestamp(rows, end + 1);
      if found && endId == 0 {
        f := f.(nothing := true);
      } else if found && endId > 0 {
        f := f.(upTo := Some(endId));
      }
      high := endId;
    }
    if rows != [] && rows[0].id > 0 && Chronological(rows) {
      BoundIsEarly(rows, start);
      BoundIsEarly(rows, end + 1);
    }
    if Regular(rows) {
      BoundIsClose(rows, start);
      BoundIsClose(rows, end + 1);
      BoundIsNotNegative(rows, start);
      BoundIsNotNegative(rows, end + 1);
      FilterIsNearlyExact(rows, start, end, f, low, high);
    }
  }

  lemma BoundIsNotNegative(rows: seq<Row>, timestamp: int)
    requires rows != [] && Keyed(rows)
    ensures Bound(rows, timestamp) >= 0
  {
    FoundIdIsEarlier(rows, timestamp);
  }
}
