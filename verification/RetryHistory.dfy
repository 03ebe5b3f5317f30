/** The retry details in a log's `other` column: what the writer builds (controller/retry_log.go) and what
    the scanner takes out again for ordinary users (controller/log.go). */
module RetryHistory {
  import opened Text

  const RETRY := "retryHistory:"
  const ADMIN := "adminInfo:"

  /** What a part with this name begins with. */
  function Key(name: string): string {
    name + "["
  }

  // ---------- JSON texts (RFC 8259, sections 2 to 7) ----------

  /** A character of a string, or a backslash with the character after it. The four digits after \u are
      characters of their own. */
  datatype Unit = Plain(c: char) | Escape(c: char)

  /** A value together with its white space. Numbers, literals and white space may be any text without
      quotes and square brackets, which includes all that the grammar allows. */
  datatype Value =
    | Word(text: string)
    | Str(units: seq<Unit>)
    | Array(space: string, elements: Elements)
    | Object(space: string, members: Members)

  /** Values, each with the space after it and, unless it is the last, a comma and the space after that. */
  datatype Elements = NoElements | Element(value: Value, after: string, next: string, elements: Elements)

  datatype Members =
    | NoMembers
    | Member(name: seq<Unit>, before: string, colon: string, value: Value, after: string, next: string,
             members: Members)

  predicate Quiet(s: string) {
    forall c :: c in s ==> c != '"' && c != '[' && c != ']'
  }

  predicate UnitsOk(units: seq<Unit>) {
    forall u :: u in units && u.Plain? ==> u.c != '"' && u.c != '\\'
  }

  predicate ValueOk(v: Value) {
    match v
    case Word(text) => Quiet(text)
    case Str(units) => UnitsOk(units)
    case Array(space, elements) => Quiet(space) && ElementsOk(elements)
    case Object(space, members) => Quiet(space) && MembersOk(members)
  }

  predicate ElementsOk(es: Elements) {
    match es
    case NoElements => true
    case Element(value, after, next, rest) => ValueOk(value) && Quiet(after) && Quiet(next) && ElementsOk(rest)
  }

  predicate MembersOk(ms: Members) {
    match ms
    case NoMembers => true
    case Member(name, before, colon, value, after, next, rest) =>
      UnitsOk(name) && Quiet(before) && Quiet(colon) && ValueOk(value) && Quiet(after) && Quiet(next) && MembersOk(rest)
  }

  function UnitsText(units: seq<Unit>): string {
    if units == [] then ""
    else (if units[0].Plain? then [units[0].c] else ['\\', units[0].c]) + UnitsText(units[1..])
  }

  function Quoted(units: seq<Unit>): string {
    "\"" + (UnitsText(units) + "\"")
  }

  function ValueText(v: Value): string {
    match v
    case Word(text) => text
    case Str(units) => Quoted(units)
    case Array(space, elements) => "[" + (space + (ElementsText(elements) + "]"))
    case Object(space, members) => "{" + (space + (MembersText(members) + "}"))
  }

  function ElementsText(es: Elements): string {
    match es
    case NoElements => ""
    case Element(value, after, next, rest) =>
      ValueText(value) + (after + (Comma(next, rest == NoElements) + ElementsText(rest)))
  }

  function MembersText(ms: Members): string {
    match ms
    case NoMembers => ""
    case Member(name, before, colon, value, after, next, rest) =>
      Quoted(name) + (before + (":" + (colon + (ValueText(value)
                                                + (after + (Comma(next, rest == NoMembers) + MembersText(rest)))))))
  }

  function Comma(next: string, last: bool): string {
    if last then "" else "," + next
  }

  // ---------- the scanner ----------

  /** Where the bracket that brings the depth back to zero stands, outside strings. */
  function Scan(s: string, i: nat, depth: int, inStr: bool, escape: bool): (end: Option<nat>)
    ensures end.Some? ==> i <= end.value < |s|
    decreases |s| - i
  {
    if i >= |s| then None
    else if inStr then
      if escape then Scan(s, i + 1, depth, true, false)
      else if s[i] == '\\' then Scan(s, i + 1, depth, true, true)
      else Scan(s, i + 1, depth, s[i] != '"', false)
    else if s[i] == '"' then Scan(s, i + 1, depth, true, escape)
    else if s[i] == '[' then Scan(s, i + 1, depth + 1, false, escape)
    else if s[i] == ']' then if depth - 1 == 0 then Some(i) else Scan(s, i + 1, depth - 1, false, escape)
    else Scan(s, i + 1, depth, false, escape)
  }

  function Outside(s: string, i: nat, depth: int): Option<nat> {
    Scan(s, i, depth, false, false)
  }

  lemma OccursInside(s: string, a: string, b: string, i: nat)
    requires OccursAt(s, a + b, i)
    ensures OccursAt(s, a, i) && OccursAt(s, b, i + |a|)
  {
    assert s[i..i + |a + b|] == a + b;
    assert s[i..i + |a|] == (a + b)[..|a|];
    assert s[i + |a|..i + |a| + |b|] == (a + b)[|a|..];
  }

  /** Wherever the text stands outside strings at this depth, the scanner passes over it. */
  ghost predicate Passes(text: string, depth: int) {
    forall s, i: nat :: OccursAt(s, text, i) ==> Outside(s, i, depth) == Outside(s, i + |text|, depth)
  }

  lemma PassBoth(a: string, b: string, depth: int)
    requires Passes(a, depth) && Passes(b, depth)
    ensures Passes(a + b, depth)
  {
    forall s, i: nat | OccursAt(s, a + b, i) ensures Outside(s, i, depth) == Outside(s, i + |a + b|, depth) {
      OccursInside(s, a, b, i);
      assert Outside(s, i + |a|, depth) == Outside(s, i + |a| + |b|, depth);
    }
  }

  lemma {:induction false} PassQuiet(w: string, depth: int)
    requires Quiet(w)
    ensures Passes(w, depth)
  {
    if w != "" {
      assert forall c :: c in w[1..] ==> c in w;
      PassQuiet(w[1..], depth);
      forall s, i: nat | OccursAt(s, [w[0]], i) ensures Outside(s, i, depth) == Outside(s, i + 1, depth) {
        assert s[i] == s[i..i + 1][0] == w[0] && w[0] in w;
      }
      PassBoth([w[0]], w[1..], depth);
      assert w == [w[0]] + w[1..];
    }
  }

  lemma {:induction false} ScanUnits(s: string, i: nat, units: seq<Unit>, depth: int)
    requires OccursAt(s, UnitsText(units), i) && UnitsOk(units)
    ensures Scan(s, i, depth, true, false) == Scan(s, i + |UnitsText(units)|, depth, true, false)
    decreases |units|
  {
    if units != [] {
      var head := if units[0].Plain? then [units[0].c] else ['\\', units[0].c];
      OccursInside(s, head, UnitsText(units[1..]), i);
      assert s[i..i + |head|] == head;
      assert s[i] == head[0] && (units[0].Escape? ==> s[i + 1] == head[1]);
      assert units[0] in units;
      ScanUnits(s, i + |head|, units[1..], depth);
    }
  }

  lemma PassQuoted(units: seq<Unit>, depth: int)
    requires UnitsOk(units)
    ensures Passes(Quoted(units), depth)
  {
    forall s, i: nat | OccursAt(s, Quoted(units), i)
      ensures Outside(s, i, depth) == Outside(s, i + |Quoted(units)|, depth) {
      ScanQuoted(s, i, units, depth);
    }
  }

  lemma ScanQuoted(s: string, i: nat, units: seq<Unit>, depth: int)
    requires UnitsOk(units) && OccursAt(s, Quoted(units), i)
    ensures Outside(s, i, depth) == Outside(s, i + |Quoted(units)|, depth)
  {
    var text := UnitsText(units);
    OccursInside(s, "\"", text + "\"", i);
    OccursInside(s, text, "\"", i + 1);
    assert s[i] == s[i..i + 1][0] && s[i + 1 + |text|] == s[i + 1 + |text|..i + 2 + |text|][0];
    ScanUnits(s, i + 1, units, depth);
    assert Outside(s, i, depth) == Scan(s, i + 1, depth, true, false);
  }

  /** Brackets around what is passed over inside them are passed over, or end the scan if they are the outermost. */
  lemma Bracketed(s: string, i: nat, body: string, depth: nat)
    requires OccursAt(s, "[" + (body + "]"), i) && Passes(body, depth + 1)
    ensures Outside(s, i, depth) == if depth == 0 then Some(i + |body| + 1) else Outside(s, i + |body| + 2, depth)
  {
    OccursInside(s, "[", body + "]", i);
    OccursInside(s, body, "]", i + 1);
    assert s[i] == s[i..i + 1][0] && s[i + 1 + |body|] == s[i + 1 + |body|..i + 2 + |body|][0];
    assert Outside(s, i + 1, depth + 1) == Outside(s, i + 1 + |body|, depth + 1);
  }

  /** Inside an array the scanner passes over any whole value without ending. */
  lemma {:induction false} PassValue(v: Value, depth: nat)
    requires ValueOk(v) && depth >= 1
    ensures Passes(ValueText(v), depth)
    decreases v, 1
  {
    match v
    case Word(text) => PassQuiet(text, depth);
    case Str(units) => PassQuoted(units, depth);
    case Array(space, elements) =>
      var body := space + ElementsText(elements);
      PassArrayBody(space, elements, depth + 1);
      forall s, i: nat | OccursAt(s, ValueText(v), i)
        ensures Outside(s, i, depth) == Outside(s, i + |ValueText(v)|, depth) {
        ArrayTextIs(space, elements);
        Bracketed(s, i, body, depth);
      }
    case Object(space, members) =>
      PassMembers(members, depth);
      PassQuiet("{", depth);
      PassQuiet(space, depth);
      PassQuiet("}", depth);
      PassBoth(MembersText(members), "}", depth);
      PassBoth(space, MembersText(members) + "}", depth);
      PassBoth("{", space + (MembersText(members) + "}"), depth);
  }

  lemma ArrayTextIs(space: string, elements: Elements)
    ensures ValueText(Array(space, elements)) == "[" + ((space + ElementsText(elements)) + "]")
  {
    assert space + (ElementsText(elements) + "]") == (space + ElementsText(elements)) + "]";
  }

  lemma {:induction false} PassArrayBody(space: string, elements: Elements, depth: nat)
    requires Quiet(space) && ElementsOk(elements) && depth >= 1
    ensures Passes(space + ElementsText(elements), depth)
    decreases elements, 2
  {
    PassQuiet(space, depth);
    PassElements(elements, depth);
    PassBoth(space, ElementsText(elements), depth);
  }

  lemma {:induction false} PassElements(es: Elements, depth: nat)
    requires ElementsOk(es) && depth >= 1
    ensures Passes(ElementsText(es), depth)
    decreases es, 1
  {
    match es
    case NoElements =>
    case Element(value, after, next, rest) =>
      var comma := Comma(next, rest == NoElements);
      PassValue(value, depth);
      PassQuiet(after, depth);
      PassQuiet(comma, depth);
      PassElements(rest, depth);
      PassBoth(comma, ElementsText(rest), depth);
      PassBoth(after, comma + ElementsText(rest), depth);
      PassBoth(ValueText(value), after + (comma + ElementsText(rest)), depth);
  }

  lemma {:induction false} PassMembers(ms: Members, depth: nat)
    requires MembersOk(ms) && depth >= 1
    ensures Passes(MembersText(ms), depth)
    decreases ms, 1
  {
    match ms
    case NoMembers =>
    case Member(name, before, colon, value, after, next, rest) =>
      var comma := Comma(next, rest == NoMembers);
      PassQuoted(name, depth);
      PassQuiet(before, depth);
      PassQuiet(":", depth);
      PassQuiet(colon, depth);
      PassValue(value, depth);
      PassQuiet(after, depth);
      PassQuiet(comma, depth);
      PassMembers(rest, depth);
      PassBoth(comma, MembersText(rest), depth);
      PassBoth(after, comma + MembersText(rest), depth);
      PassBoth(ValueText(value), after + (comma + MembersText(rest)), depth);
      PassBoth(colon, ValueText(value) + (after + (comma + MembersText(rest))), depth);
      PassBoth(":", colon + (ValueText(value) + (after + (comma + MembersText(rest)))), depth);
      PassBoth(before, ":" + (colon + (ValueText(value) + (after + (comma + MembersText(rest))))), depth);
      PassBoth(Quoted(name), before
               + (":" + (colon + (ValueText(value) + (after + (comma + MembersText(rest)))))), depth);
  }

  /** From the first bracket of a JSON array text, the scanner ends at its last one. */
  lemma ScanEndsAtArray(s: string, i: nat, space: string, elements: Elements)
    requires OccursAt(s, ValueText(Array(space, elements)), i) && Quiet(space) && ElementsOk(elements)
    ensures Outside(s, i, 0) == Some(i + |ValueText(Array(space, elements))| - 1)
  {
    ArrayTextIs(space, elements);
    PassArrayBody(space, elements, 1);
    Bracketed(s, i, space + ElementsText(elements), 0);
  }

  // ---------- cutting the segment ----------

  /** The text without what lies from `from` up to `to`, and without one semicolon right after it. */
  function CutOut(s: string, from: nat, to: nat): string
    requires from <= to <= |s|
  {
    s[..from] + s[if to < |s| && s[to] == ';' then to + 1 else to..]
  }

  /** A piece of a text. */
  datatype Span = Span(from: nat, end: nat)

  /** The first part with this name, up to the bracket that closes it. */
  function PartSpan(s: string, name: string): (span: Option<Span>)
    ensures span.Some? ==> span.value.from <= span.value.end <= |s|
  {
    match Index(s, Key(name))
    case None => None
    case Some(idx) =>
      match Outside(s, idx + |name|, 0)
      case None => None
      case Some(end) => Some(Span(idx, end + 1))
  }

  function StripPart(s: string, name: string): string {
    var span := PartSpan(s, name);
    if span.None? then s else CutOut(s, span.value.from, span.value.end)
  }

  function StripRetryHistory(s: string): string {
    StripPart(s, RETRY)
  }

  /** stripRetryHistorySegment. */
  method StripRetryHistorySegment(s: string) returns (r: string)
    ensures r == StripRetryHistory(s)
  {
    var span := FindPart(s, RETRY);
    if span == None {
      return s;
    }
    r := CutSegment(s, span.value.from, span.value.end);
  }

  /** Where the part stands; None as well when its bracket is never closed. */
  method FindPart(s: string, name: string) returns (span: Option<Span>)
    ensures span == PartSpan(s, name)
  {
    var found := Index(s, Key(name));
    if found == None {
      return None;
    }
    var end := FindEnd(s, found.value + |name|);
    if end == -1 {
      return None;
    }
    span := Some(Span(found.value, end + 1));
  }

  /** The segment goes, with one semicolon that may follow it. */
  method CutSegment(s: string, from: nat, end: nat) returns (r: string)
    requires from <= end <= |s|
    ensures r == CutOut(s, from, end)
  {
    var stop := end;
    if stop < |s| && s[stop] == ';' {
      stop := stop + 1;
    }
    r := s[..from] + s[stop..];
  }

  /** Its loop: the bracket that closes the one at `start`, or -1. */
  method FindEnd(s: string, start: nat) returns (end: int)
    requires start <= |s|
    ensures if end == -1 then Outside(s, start, 0) == None else start <= end < |s| && Outside(s, start, 0) == Some(end)
  {
    var depth, inStr, escape := 0, false, false;
    end := -1;
    var i := start;
    while i < |s| && end == -1
      invariant start <= i <= |s| && -1 <= end < |s|
      invariant end == -1 ==> Outside(s, start, 0) == Scan(s, i, depth, inStr, escape)
      invariant end != -1 ==> start <= end && Outside(s, start, 0) == Some(end)
      decreases |s| - i, end == -1
    {
      var ch := s[i];
      if inStr {
        if escape {
          escape := false;
        } else if ch == '\\' {
          escape := true;
        } else if ch == '"' {
          inStr := false;
        }
      } else {
        match ch {
          case '"' => inStr := true;
          case '[' => depth := depth + 1;
          case ']' =>
            depth := depth - 1;
            if depth == 0 {
              end := i;
            }
          case _ =>
        }
      }
      i := i + 1;
    }
  }

  /** A name followed by a bracket, which the name does not hold: it cannot begin inside a text before it. */
  lemma NoStraddling(prefix: string, name: string, rest: string, i: nat)
    requires '[' !in name
    requires i < |prefix| && OccursAt(prefix + Key(name) + rest, Key(name), i)
    ensures OccursAt(prefix, Key(name), i)
  {
    var s, n := prefix + Key(name) + rest, |name| + 1;
    assert s[i..i + n][n - 1] == s[i + n - 1];
    if i + n <= |prefix| {
      assert s[i..i + n] == prefix[i..i + n];
    } else {
      LabelHoldsNoBracket(prefix, name, rest);
    }
  }

  lemma LabelHoldsNoBracket(prefix: string, name: string, rest: string)
    requires '[' !in name
    ensures forall j :: |prefix| <= j < |prefix| + |name| ==> (prefix + Key(name) + rest)[j] != '['
  {
    forall j | |prefix| <= j < |prefix| + |name| ensures (prefix + Key(name) + rest)[j] != '[' {
      assert (prefix + Key(name) + rest)[j] == name[j - |prefix|];
    }
  }

  lemma KeyComesFirst(prefix: string, name: string, rest: string)
    requires '[' !in name && !Occurs(prefix, Key(name))
    ensures Index(prefix + Key(name) + rest, Key(name)) == Some(|prefix|)
  {
    var s, key := prefix + Key(name) + rest, Key(name);
    assert OccursAt(s, key, |prefix|);
    forall i: nat | i < |prefix| ensures !OccursAt(s, key, i) {
      if OccursAt(s, key, i) {
        NoStraddling(prefix, name, rest, i);
      }
    }
  }

  lemma LabelsHoldNoBracket()
    ensures '[' !in RETRY && '[' !in ADMIN
  {
  }

  function Unsemicolon(s: string): string {
    if s != "" && s[0] == ';' then s[1..] else s
  }

  lemma CutOutMiddle(prefix: string, middle: string, rest: string)
    ensures CutOut(prefix + middle + rest, |prefix|, |prefix| + |middle|) == prefix + Unsemicolon(rest)
  {
    var s := prefix + middle + rest;
    assert s[..|prefix|] == prefix && s[|prefix| + |middle|..] == rest;
    assert rest != "" ==> s[|prefix| + |middle|] == rest[0] && s[|prefix| + |middle| + 1..] == rest[1..];
  }

  function HistoryPart(space: string, elements: Elements): string {
    RETRY + ValueText(Array(space, elements))
  }

  /** Behind any prefix without the key, exactly the key, the array and one following semicolon are taken out. */
  lemma StripTakesOutTheArray(prefix: string, space: string, elements: Elements, rest: string)
    requires !Occurs(prefix, Key(RETRY)) && Quiet(space) && ElementsOk(elements)
    ensures StripRetryHistory(prefix + HistoryPart(space, elements) + rest) == prefix + Unsemicolon(rest)
  {
    LabelsHoldNoBracket();
    StripsLabelled(prefix, RETRY, space, elements, rest);
  }

  lemma StripsLabelled(prefix: string, name: string, space: string, elements: Elements, rest: string)
    requires '[' !in name && !Occurs(prefix, Key(name)) && Quiet(space) && ElementsOk(elements)
    ensures StripPart(prefix + (name + ValueText(Array(space, elements))) + rest, name) == prefix + Unsemicolon(rest)
  {
    var arr := ValueText(Array(space, elements));
    LabelledIsFound(prefix, name, arr, rest);
    ArrayEnds(prefix, name, arr, space, elements, rest);
    CutsLabelled(prefix, name, arr, rest);
  }

  lemma ArrayEnds(prefix: string, name: string, arr: string, space: string, elements: Elements, rest: string)
    requires arr == ValueText(Array(space, elements)) && Quiet(space) && ElementsOk(elements)
    ensures Outside(prefix + (name + arr) + rest, |prefix| + |name|, 0) == Some(|prefix| + |name + arr| - 1)
  {
    ArrayStands(prefix, name, arr, rest);
    ScanEndsAtArray(prefix + (name + arr) + rest, |prefix| + |name|, space, elements);
  }

  lemma CutsLabelled(prefix: string, name: string, arr: string, rest: string)
    requires arr != "" && Index(prefix + (name + arr) + rest, Key(name)) == Some(|prefix|)
    requires Outside(prefix + (name + arr) + rest, |prefix| + |name|, 0) == Some(|prefix| + |name + arr| - 1)
    ensures StripPart(prefix + (name + arr) + rest, name) == prefix + Unsemicolon(rest)
  {
    CutOutMiddle(prefix, name + arr, rest);
    SpanIs(prefix + (name + arr) + rest, name, |prefix|, |prefix| + |name + arr| - 1);
    CutsSpan(prefix + (name + arr) + rest, name, |prefix|, |prefix| + |name + arr|);
  }

  lemma SpanIs(s: string, name: string, from: nat, last: nat)
    requires Index(s, Key(name)) == Some(from) && Outside(s, from + |name|, 0) == Some(last)
    requires from <= last < |s|
    ensures PartSpan(s, name) == Some(Span(from, last + 1))
  {
  }

  lemma CutsSpan(s: string, name: string, from: nat, end: nat)
    requires from <= end <= |s| && PartSpan(s, name) == Some(Span(from, end))
    ensures StripPart(s, name) == CutOut(s, from, end)
  {
  }

  lemma LabelledIsFound(prefix: string, name: string, arr: string, rest: string)
    requires '[' !in name && !Occurs(prefix, Key(name)) && arr != "" && arr[0] == '['
    ensures Index(prefix + (name + arr) + rest, Key(name)) == Some(|prefix|)
  {
    assert prefix + (name + arr) + rest == prefix + Key(name) + (arr[1..] + rest);
    KeyComesFirst(prefix, name, arr[1..] + rest);
  }

  lemma LeadingIsFound(name: string, arr: string, rest: string)
    requires '[' !in name && arr != "" && arr[0] == '['
    ensures Index(name + arr + rest, Key(name)) == Some(0)
  {
    LabelledIsFound("", name, arr, rest);
    NothingBefore(name + arr, rest);
  }

  lemma ArrayStands(prefix: string, name: string, arr: string, rest: string)
    ensures OccursAt(prefix + (name + arr) + rest, arr, |prefix| + |name|)
  {
    var i := |prefix| + |name|;
    assert (prefix + (name + arr) + rest)[i..i + |arr|] == arr;
  }

  // ---------- the whole clean-up ----------

  /** The regular expression name\[[^\]]*\];? replaced by nothing, from left to right. */
  function StripLists(s: string, name: string): string
    decreases |s|
  {
    var span := ListSpan(s, name);
    if span.None? then s else s[..span.value.from] + StripLists(s[span.value.end..], name)
  }

  /** The leftmost match of the regular expression. */
  function ListSpan(s: string, name: string): (span: Option<Span>)
    ensures span.Some? ==> span.value.from < span.value.end <= |s|
  {
    KeySpan(s, Key(name))
  }

  function KeySpan(s: string, key: string): (span: Option<Span>)
    ensures span.Some? && key != "" ==> span.value.from < span.value.end <= |s|
  {
    var found := Index(s, key);
    if found.None? then None
    else
      var end := IndexFrom(s, "]", found.value + |key|);
      if end.None? then None else Some(Span(found.value, AfterEnd(s, end.value)))
  }

  function StripAdminInfo(s: string): string {
    StripLists(s, ADMIN)
  }

  /** strings.ReplaceAll(s, ";;", ";"). */
  function SingleSemicolons(s: string): string
    decreases |s|
  {
    match Index(s, ";;")
    case None => s
    case Some(i) => s[..i] + ";" + SingleSemicolons(s[i + 2..])
  }

  function TrimSemicolons(s: string): string
    decreases |s|
  {
    if s != "" && s[0] == ';' then TrimSemicolons(s[1..])
    else if s != "" && s[|s| - 1] == ';' then TrimSemicolons(s[..|s| - 1])
    else s
  }

  /** stripAdminInfoFromLogs on one `other` column; `reparsed` is the column as a JSON object without the
      four keys, None when it is not one. */
  function Stripped(other: string, reparsed: Option<string>): string {
    if other == "" || (Index(other, "admin") == None && Index(other, "retryHistory") == None
                       && Index(other, "retry_history") == None)
    then other
    else if other[0] == '{' && reparsed.Some? then reparsed.value
    else Cleaned(other)
  }

  /** The semicolon format. */
  function Cleaned(other: string): string {
    TrimSemicolons(SingleSemicolons(StripRetryHistory(StripAdminInfo(other))))
  }

  /** A column that is a JSON object is written again without the four keys as soon as it holds a trace of one of
      them, in either spelling; a column without a trace is left as it is. */
  lemma JsonIsRewrittenIff(other: string, reparsed: string)
    requires other != "" && other[0] == '{'
    ensures Stripped(other, Some(reparsed))
         == if Occurs(other, "admin") || Occurs(other, "retryHistory") || Occurs(other, "retry_history") then reparsed
            else other
  {
  }

  /** stripAdminInfoFromLogs: every column is rewritten in place; `reparse` is the JSON round trip. */
  method StripAdminInfoFromLogs(others: array<string>, reparse: string -> Option<string>)
    modifies others
    ensures forall i :: 0 <= i < others.Length ==> others[i] == Stripped(old(others[i]), reparse(old(others[i])))
  {
    for i := 0 to others.Length
      invariant forall j :: 0 <= j < i ==> others[j] == Stripped(old(others[j]), reparse(old(others[j])))
      invariant forall j :: i <= j < others.Length ==> others[j] == old(others[j])
    {
      var other := others[i];
      if other == "" || (Index(other, "admin") == None && Index(other, "retryHistory") == None
                         && Index(other, "retry_history") == None) {
        continue;
      }
      if other[0] == '{' && reparse(other).Some? {
        others[i] := reparse(other).value;
        continue;
      }
      var cleaned := StripAdminInfo(other);
      cleaned := StripRetryHistorySegment(cleaned);
      cleaned := SingleSemicolons(cleaned);
      others[i] := TrimSemicolons(cleaned);
    }
  }

  function Digits(n: nat): string {
    if n < 10 then [('0' as int + n) as char] else Digits(n / 10) + [('0' as int + n % 10) as char]
  }

  function Decimal(n: int): string {
    if n < 0 then "-" + Digits(-n) else Digits(n)
  }

  /** The number a text of digits stands for. */
  function Value10(s: string): int {
    if s == "" then 0 else 10 * Value10(s[..|s| - 1]) + (s[|s| - 1] as int - '0' as int)
  }

  lemma {:induction false} DigitsStandFor(n: nat)
    ensures Value10(Digits(n)) == n && Digits(n) != "" && (n > 0 ==> Digits(n)[0] != '0')
  {
    if n >= 10 {
      DigitsStandFor(n / 10);
      assert Digits(n)[..|Digits(n)| - 1] == Digits(n / 10);
    } else {
      assert Digits(n)[..0] == "";
    }
  }

  /** Channel ids are written in decimal, without leading zeros, with a sign if negative. */
  lemma DecimalStandsFor(n: int)
    ensures if n >= 0 then Value10(Decimal(n)) == n
            else Decimal(n)[0] == '-' && Value10(Decimal(n)[1..]) == -n
  {
    DigitsStandFor(if n < 0 then -n else n);
  }

  function Decimals(ns: seq<int>): seq<string> {
    seq(|ns|, i requires 0 <= i < |ns| => Decimal(ns[i]))
  }

  /** The parts recordFinalErrorLog writes: the channel history, the attempts, the affinity tag. */
  function Parts(history: seq<int>, attempts: Elements, tag: string): seq<string> {
    Optional(history != [], ListPart(ADMIN, HistoryList(history)))
    + Optional(attempts != NoElements, HistoryPart("", attempts))
    + Optional(tag != "", tag)
  }

  /** The loop that joins the parts. */
  method WriteOther(history: seq<int>, attempts: Elements, tag: string) returns (other: string)
    ensures other == Join(Parts(history, attempts, tag), ';')
  {
    var parts := Parts(history, attempts, tag);
    other := "";
    for i := 0 to |parts|
      invariant other == Join(parts[..i], ';')
    {
      JoinOneMore(parts, i);
      if i > 0 {
        other := other + ";";
      }
      other := other + parts[i];
    }
    assert parts[..|parts|] == parts;
  }

  lemma JoinOneMore(parts: seq<string>, i: nat)
    requires i < |parts|
    ensures Join(parts[..i + 1], ';') == (if i == 0 then "" else Join(parts[..i], ';') + ";") + parts[i]
  {
    assert parts[..i + 1] == parts[..i] + [parts[i]];
    JoinAppend(parts[..i], parts[i]);
  }

  lemma {:induction false} JoinAppend(parts: seq<string>, last: string)
    ensures Join(parts + [last], ';') == (if parts == [] then "" else Join(parts, ';') + ";") + last
  {
    if |parts| == 1 {
      assert (parts + [last])[1..] == [last];
    } else if |parts| > 1 {
      JoinAppend(parts[1..], last);
      assert (parts + [last])[1..] == parts[1..] + [last];
      assert Join(parts + [last], ';') == parts[0] + ";" + Join(parts[1..] + [last], ';');
    }
  }

  // ---------- writing and stripping ----------

  /** Two texts without the key, with a character between them that the key does not hold. */
  lemma StillFree(a: string, c: char, b: string, key: string)
    requires !Occurs(a, key) && !Occurs(b, key) && c !in key
    ensures !Occurs(a + [c] + b, key)
  {
    var s, n := a + [c] + b, |key|;
    forall i: nat | i + n <= |s| ensures !OccursAt(s, key, i) {
      if i + n <= |a| {
        assert s[i..i + n] == a[i..i + n] && !OccursAt(a, key, i);
      } else if i > |a| {
        assert s[i..i + n] == b[i - |a| - 1..i - |a| - 1 + n] && !OccursAt(b, key, i - |a| - 1);
      } else {
        assert s[i..i + n][|a| - i] == c;
      }
    }
  }

  lemma HistoryIsFreeOfAdmin(arr: string)
    requires !Occurs(arr, Key(ADMIN))
    ensures !Occurs(RETRY + arr, Key(ADMIN))
  {
    var start := RETRY;
    var s, n := start + arr, |Key(ADMIN)|;
    forall i: nat | i + n <= |s| ensures !OccursAt(s, Key(ADMIN), i) {
      assert s[i..i + n][0] == s[i];
      if i >= |start| {
        assert s[i..i + n] == arr[i - |start|..i - |start| + n] && !OccursAt(arr, Key(ADMIN), i - |start|);
      } else {
        assert s[i] == start[i] && start[i] != 'a';
      }
    }
  }

  lemma {:induction false} DigitsAreDigits(n: nat)
    ensures forall c :: c in Digits(n) ==> '0' <= c <= '9'
  {
    if n >= 10 {
      DigitsAreDigits(n / 10);
    }
  }

  lemma {:induction false} JoinHoldsNo(parts: seq<string>, sep: char, bad: char)
    requires bad != sep && forall i :: 0 <= i < |parts| ==> bad !in parts[i]
    ensures bad !in Join(parts, sep)
  {
    if |parts| > 1 {
      JoinHoldsNo(parts[1..], sep, bad);
    }
  }

  function HistoryList(history: seq<int>): string {
    Join(Decimals(history), ',')
  }

  lemma HistoryListHoldsNoBracket(history: seq<int>)
    ensures ']' !in HistoryList(history)
  {
    var parts := Decimals(history);
    forall i | 0 <= i < |parts| ensures ']' !in parts[i] {
      DigitsAreDigits(if history[i] < 0 then -history[i] else history[i]);
    }
    JoinHoldsNo(parts, ',', ']');
  }

  /** The regular expression takes out the channel history and the semicolon after it, and goes on behind them. */
  lemma StripAdminTakesOutTheList(list: string, rest: string)
    requires ']' !in list
    ensures StripAdminInfo(ListPart(ADMIN, list) + rest) == StripAdminInfo(Unsemicolon(rest))
  {
    LabelsHoldNoBracket();
    StripsList(ADMIN, list, rest);
  }

  function ListPart(name: string, list: string): string {
    name + ("[" + (list + "]"))
  }

  lemma StripsList(name: string, list: string, rest: string)
    requires '[' !in name && ']' !in list
    ensures StripLists(ListPart(name, list) + rest, name) == StripLists(Unsemicolon(rest), name)
  {
    ListIsFound(name, list, ListPart(name, list), rest);
    FirstBracket(name, list, rest);
    StripsListAt(ListPart(name, list) + rest, name, |name| + 1 + |list|, rest);
  }

  lemma ListIsFound(name: string, list: string, part: string, rest: string)
    requires '[' !in name && part == ListPart(name, list)
    ensures Index(part + rest, Key(name)) == Some(0)
  {
    LeadingIsFound(name, "[" + (list + "]"), rest);
  }

  lemma StripsListAt(s: string, name: string, end: nat, rest: string)
    requires Index(s, Key(name)) == Some(0) && IndexFrom(s, "]", |Key(name)|) == Some(end)
    requires end + 1 <= |s| && s[end + 1..] == rest
    ensures StripLists(s, name) == StripLists(Unsemicolon(rest), name)
  {
    BehindBracket(s, end, rest);
    StripsFirst(s, name, end, Unsemicolon(rest));
  }

  function AfterEnd(s: string, end: nat): nat {
    if end + 1 < |s| && s[end + 1] == ';' then end + 2 else end + 1
  }

  lemma BehindBracket(s: string, end: nat, rest: string)
    requires end + 1 <= |s| && s[end + 1..] == rest
    ensures AfterEnd(s, end) <= |s| && s[AfterEnd(s, end)..] == Unsemicolon(rest)
  {
    assert rest != "" ==> s[end + 1] == rest[0] && s[end + 2..] == rest[1..];
  }

  lemma FirstBracket(name: string, list: string, rest: string)
    requires ']' !in list
    ensures IndexFrom(ListPart(name, list) + rest, "]", |Key(name)|) == Some(|name| + 1 + |list|)
    ensures (ListPart(name, list) + rest)[|name| + 1 + |list| + 1..] == rest
  {
    var s, end := ListPart(name, list) + rest, |name| + 1 + |list|;
    assert s[end..end + 1] == "]";
    assert OccursAt(s, "]", end);
    forall i: nat | |name| + 1 <= i < end ensures !OccursAt(s, "]", i) {
      assert s[i] == list[i - |name| - 1] && s[i..i + 1] == [s[i]];
    }
  }

  lemma StripsFirst(s: string, name: string, end: nat, left: string)
    requires Index(s, Key(name)) == Some(0) && IndexFrom(s, "]", |Key(name)|) == Some(end)
    requires AfterEnd(s, end) <= |s| && s[AfterEnd(s, end)..] == left
    ensures StripLists(s, name) == StripLists(left, name)
  {
    assert ListSpan(s, name) == Some(Span(0, AfterEnd(s, end)));
    NothingBefore("", StripLists(left, name));
  }

  lemma NoListLeft(left: string, name: string)
    requires !Occurs(left, Key(name))
    ensures StripLists(left, name) == left
  {
    assert ListSpan(left, name) == None;
  }

  /** A tag that the clean-up cannot mistake for anything. */
  ghost predicate PlainTag(tag: string) {
    && !Occurs(tag, Key(ADMIN)) && !Occurs(tag, Key(RETRY)) && !Occurs(tag, ";;")
    && (tag != "" ==> tag[0] != ';' && tag[|tag| - 1] != ';' && tag[0] != '{')
  }

  /** What follows the channel history. */
  function Body(attempts: Elements, tag: string): string {
    if attempts == NoElements then tag
    else HistoryPart("", attempts) + Behind(tag)
  }

  function Behind(text: string): string {
    if text == "" then "" else ";" + text
  }

  lemma JoinFirst(first: string, rest: seq<string>)
    ensures Join([first] + rest, ';') == first + (if rest == [] then "" else ";" + Join(rest, ';'))
  {
    assert ([first] + rest)[1..] == rest;
  }

  function Optional(present: bool, part: string): seq<string> {
    if present then [part] else []
  }

  lemma JoinOptional(a: bool, first: string, b: bool, second: string, third: string)
    requires second != ""
    ensures var rest := if b then second + Behind(third) else third;
            Join(Optional(a, first) + Optional(b, second) + Optional(third != "", third), ';')
                == if a then first + Behind(rest) else rest
  {
    var last := Optional(third != "", third);
    assert Join(last, ';') == third;
    JoinFirst(second, last);
    assert [] + last == last;
    var rest := Optional(b, second) + last;
    assert Join(rest, ';') == if b then second + Behind(third) else third;
    JoinFirst(first, rest);
    assert Optional(a, first) + Optional(b, second) + last == Optional(a, first) + rest;
    assert [] + rest == rest;
  }

  lemma JoinOfParts(history: seq<int>, attempts: Elements, tag: string)
    ensures Join(Parts(history, attempts, tag), ';')
         == if history == [] then Body(attempts, tag)
            else ListPart(ADMIN, HistoryList(history)) + Behind(Body(attempts, tag))
  {
    JoinOptional(history != [], ListPart(ADMIN, HistoryList(history)),
                 attempts != NoElements, HistoryPart("", attempts), tag);
  }

  lemma NothingBefore(part: string, rest: string)
    ensures "" + part + rest == part + rest && "" + rest == rest
  {
  }

  // ---------- the regular expression inside the attempts ----------

  /** What follows a part in the column: nothing, or a semicolon and a text without the key. */
  ghost predicate Follows(rest: string, name: string) {
    rest != "" ==> rest[0] == ';' && !Occurs(rest[1..], Key(name))
  }

  lemma FollowsHoldsNoKey(rest: string, name: string)
    requires Follows(rest, name) && ';' !in name
    ensures !Occurs(rest, Key(name))
  {
    if rest != "" {
      StillFree("", ';', rest[1..], Key(name));
      assert "" + [';'] + rest[1..] == rest;
    }
  }

  /** Behind a text that ends with a bracket the key is found only where it is found in that text. */
  lemma FoundInside(text: string, name: string, rest: string)
    requires text != "" && text[|text| - 1] == ']' && ']' !in name && ';' !in name && Follows(rest, name)
    ensures Index(text + rest, Key(name)) == Index(text, Key(name))
  {
    var s, key := text + rest, Key(name);
    FollowsHoldsNoKey(rest, name);
    forall i: nat | i + |key| <= |s| ensures OccursAt(s, key, i) <==> OccursAt(text, key, i) {
      KeyDoesNotStraddle(text, key, rest, i);
    }
    SameIndex(s, text, key, 0);
  }

  lemma KeyDoesNotStraddle(text: string, key: string, rest: string, i: nat)
    requires text != "" && text[|text| - 1] == ']' && ']' !in key && key != "" && !Occurs(rest, key)
    ensures OccursAt(text + rest, key, i) <==> OccursAt(text, key, i)
  {
    var s, n := text + rest, |key|;
    if i + n <= |text| {
      assert s[i..i + n] == text[i..i + n];
    } else if i >= |text| && i + n <= |s| {
      assert s[i..i + n] == rest[i - |text|..i - |text| + n] && !OccursAt(rest, key, i - |text|);
    } else if i + n <= |s| {
      assert s[i..i + n][|text| - 1 - i] == ']';
    }
  }

  lemma {:induction false} SameIndex(s: string, t: string, key: string, from: nat)
    requires forall i: nat :: OccursAt(s, key, i) <==> OccursAt(t, key, i)
    ensures IndexFrom(s, key, from) == IndexFrom(t, key, from)
  {
  }

  /** A bracket found in a text is found in a longer one. */
  lemma {:induction false} FoundInLonger(text: string, key: string, rest: string, from: nat)
    requires IndexFrom(text, key, from).Some?
    ensures IndexFrom(text + rest, key, from) == IndexFrom(text, key, from)
  {
    var s, n, at := text + rest, |key|, IndexFrom(text, key, from).value;
    forall i: nat | i <= at ensures OccursAt(s, key, i) <==> OccursAt(text, key, i) {
      assert s[i..i + n] == text[i..i + n];
    }
  }

  /** The matches of the expression are those inside the text; the last one may take the semicolon behind it. */
  lemma SpanInside(text: string, name: string, rest: string)
    requires text != "" && text[|text| - 1] == ']' && ']' !in name && ';' !in name && Follows(rest, name)
    ensures ListSpan(text + rest, name)
         == match ListSpan(text, name)
            case None => None
            case Some(span) =>
              if span.end < |text| then Some(span) else Some(Span(span.from, |text| + if rest == "" then 0 else 1))
  {
    FoundInside(text, name, rest);
    var found := Index(text, Key(name));
    if found.None? {
      NoKeySpan(text, Key(name));
      NoKeySpan(text + rest, Key(name));
    } else {
      KeyIsNotLast(text, name, found.value);
      var end := BracketInside(text, found.value + |Key(name)|, rest);
      KeySpanInside(text, Key(name), rest, found.value, end);
    }
  }

  lemma NoKeySpan(s: string, key: string)
    requires Index(s, key) == None
    ensures KeySpan(s, key) == None
  {
  }

  lemma KeySpanInside(text: string, key: string, rest: string, idx: nat, end: nat)
    requires Index(text, key) == Some(idx) == Index(text + rest, key) && end < |text|
    requires IndexFrom(text, "]", idx + |key|) == Some(end) == IndexFrom(text + rest, "]", idx + |key|)
    requires SameCut(text, rest, end)
    ensures KeySpan(text, key).Some?
    ensures var span := KeySpan(text, key).value;
            KeySpan(text + rest, key)
            == if span.end < |text| then Some(span) else Some(Span(span.from, |text| + if rest == "" then 0 else 1))
  {
    KeySpanIs(text, key, idx, end, AfterEnd(text, end));
    KeySpanIs(text + rest, key, idx, end, AfterEnd(text + rest, end));
  }

  /** The cut behind the bracket is the same in the longer text, or takes the semicolon that follows. */
  predicate SameCut(text: string, rest: string, end: nat) {
    if end + 1 < |text| then AfterEnd(text + rest, end) == AfterEnd(text, end) < |text|
    else AfterEnd(text, end) == |text| && AfterEnd(text + rest, end) == |text| + if rest == "" then 0 else 1
  }

  lemma KeySpanIs(s: string, key: string, from: nat, end: nat, cut: nat)
    requires Index(s, key) == Some(from) && IndexFrom(s, "]", from + |key|) == Some(end) && cut == AfterEnd(s, end)
    ensures KeySpan(s, key) == Some(Span(from, cut))
  {
  }

  lemma BracketInside(text: string, from: nat, rest: string) returns (end: nat)
    requires from < |text| && text[|text| - 1] == ']' && (rest != "" ==> rest[0] == ';')
    ensures IndexFrom(text, "]", from) == Some(end) == IndexFrom(text + rest, "]", from) && end < |text|
    ensures SameCut(text, rest, end)
  {
    LastBracket(text, from);
    FoundInLonger(text, "]", rest, from);
    end := IndexFrom(text, "]", from).value;
    SameAfterEnd(text, end, rest);
  }

  lemma SameAfterEnd(text: string, end: nat, rest: string)
    requires end < |text| && text[|text| - 1] == ']' && (rest != "" ==> rest[0] == ';')
    ensures SameCut(text, rest, end)
  {
  }

  /** The expression, on a text that ends with a bracket and what follows it: the text is stripped as it is alone,
      and what follows stays, but for its semicolon if the last match reaches it. */
  lemma {:induction false} StripsInside(text: string, name: string, rest: string) returns (kept: string)
    requires text != "" && text[|text| - 1] == ']' && ']' !in name && ';' !in name && Follows(rest, name)
    ensures kept == rest || kept == Unsemicolon(rest)
    ensures StripLists(text + rest, name) == StripLists(text, name) + kept
    decreases |text|
  {
    SpanInside(text, name, rest);
    match ListSpan(text, name)
    case None =>
      kept := rest;
      NoSpanNoStrip(text, name);
      NoSpanNoStrip(text + rest, name);
    case Some(span) =>
      if span.end < |text| {
        BracketStays(text, span.end);
        kept := StripsInside(text[span.end..], name, rest);
        StripsOn(text, name, rest, span, kept);
      } else {
        kept := Unsemicolon(rest);
        StripsToTheEnd(text, name, rest, span.from);
      }
  }

  lemma NoSpanNoStrip(s: string, name: string)
    requires ListSpan(s, name) == None
    ensures StripLists(s, name) == s
  {
  }

  lemma KeyIsNotLast(text: string, name: string, idx: nat)
    requires text != "" && text[|text| - 1] == ']' && OccursAt(text, Key(name), idx)
    ensures idx + |Key(name)| < |text|
  {
    assert text[idx..idx + |Key(name)|][|name|] == '[';
  }

  lemma StripsToTheEnd(text: string, name: string, rest: string, from: nat)
    requires Follows(rest, name) && ';' !in name && from < |text|
    requires ListSpan(text, name) == Some(Span(from, |text|))
    requires ListSpan(text + rest, name) == Some(Span(from, |text| + if rest == "" then 0 else 1))
    ensures StripLists(text + rest, name) == StripLists(text, name) + Unsemicolon(rest)
  {
    StripsAll(text, name, from);
    if rest == "" {
      NothingBehind(text, text[..from]);
    } else {
      StripsSemicolon(text, name, rest, from);
    }
  }

  lemma NothingBehind(a: string, b: string)
    ensures a + "" == a && b + "" == b
  {
  }

  lemma StripsSemicolon(text: string, name: string, rest: string, from: nat)
    requires rest != "" && !Occurs(rest[1..], Key(name)) && from < |text|
    requires ListSpan(text + rest, name) == Some(Span(from, |text| + 1))
    ensures StripLists(text + rest, name) == text[..from] + rest[1..]
  {
    var s := text + rest;
    assert s[..from] == text[..from] && s[|text| + 1..] == rest[1..];
    StripsOnce(s, name, Span(from, |text| + 1), text[..from], rest[1..]);
  }

  lemma StripsAll(text: string, name: string, from: nat)
    requires from < |text| && ListSpan(text, name) == Some(Span(from, |text|))
    ensures StripLists(text, name) == text[..from]
  {
    assert text[|text|..] == "";
    StripsOnce(text, name, Span(from, |text|), text[..from], "");
  }

  lemma StripsOnce(s: string, name: string, span: Span, front: string, left: string)
    requires ListSpan(s, name) == Some(span) && s[..span.from] == front && s[span.end..] == left
    requires !Occurs(left, Key(name))
    ensures StripLists(s, name) == front + left
  {
    NoListLeft(left, name);
    StripsBy(s, name, span);
  }

  lemma BracketStays(text: string, cut: nat)
    requires cut < |text| && text[|text| - 1] == ']'
    ensures text[cut..] != "" && text[cut..][|text[cut..]| - 1] == ']'
  {
  }

  lemma StripsBy(s: string, name: string, span: Span)
    requires ListSpan(s, name) == Some(span)
    ensures StripLists(s, name) == s[..span.from] + StripLists(s[span.end..], name)
  {
  }

  lemma SliceOfLonger(text: string, rest: string, span: Span)
    requires span.from <= span.end <= |text|
    ensures (text + rest)[..span.from] == text[..span.from] && (text + rest)[span.end..] == text[span.end..] + rest
  {
  }

  lemma Regroup(a: string, b: string, c: string)
    ensures a + (b + c) == (a + b) + c
  {
  }

  lemma StripsOn(text: string, name: string, rest: string, span: Span, kept: string)
    requires ListSpan(text, name) == Some(span) == ListSpan(text + rest, name)
    requires StripLists(text[span.end..] + rest, name) == StripLists(text[span.end..], name) + kept
    ensures StripLists(text + rest, name) == StripLists(text, name) + kept
  {
    StripsBy(text, name, span);
    StripsBy(text + rest, name, span);
    SliceOfLonger(text, rest, span);
    Regroup(text[..span.from], StripLists(text[span.end..], name), kept);
  }

  lemma LastBracket(text: string, from: nat)
    requires text != "" && text[|text| - 1] == ']' && from <= |text| - 1
    ensures IndexFrom(text, "]", from).Some?
  {
    assert OccursAt(text, "]", |text| - 1);
  }

  // ---------- the clean-up, by what it leaves ----------

  /** How many characters are no semicolons. */
  function Solid(s: string): nat {
    if s == "" then 0 else Solid(s[1..]) + if s[0] == ';' then 0 else 1
  }

  predicate OnlySemicolons(s: string) {
    forall c :: c in s ==> c == ';'
  }

  lemma {:induction false} SolidAppend(a: string, b: string)
    ensures Solid(a + b) == Solid(a) + Solid(b)
  {
    if a == "" {
      assert a + b == b;
    } else {
      SolidAppend(a[1..], b);
      assert (a + b)[1..] == a[1..] + b;
    }
  }

  lemma {:induction false} SolidZero(s: string)
    ensures Solid(s) == 0 <==> OnlySemicolons(s)
  {
    if s != "" {
      SolidZero(s[1..]);
      assert s[0] in s;
      forall c | c in s ensures c == s[0] || c in s[1..] {
      }
      forall c | c in s[1..] ensures c in s {
      }
    }
  }

  lemma AroundKey(s: string, key: string, i: nat)
    requires OccursAt(s, key, i)
    ensures s == s[..i] + (key + s[i + |key|..])
  {
  }

  lemma {:induction false} SolidSingle(s: string)
    ensures Solid(SingleSemicolons(s)) == Solid(s)
    decreases |s|
  {
    var found := Index(s, ";;");
    if found.Some? {
      var a, b := s[..found.value], s[found.value + 2..];
      SolidSingle(b);
      AroundKey(s, ";;", found.value);
      SolidAppend(a, ";;" + b);
      SolidAppend(";;", b);
      SolidAppend(a, ";" + SingleSemicolons(b));
      SolidAppend(";", SingleSemicolons(b));
      SolidZero(";;");
      SolidZero(";");
      assert a + ";" + SingleSemicolons(b) == a + (";" + SingleSemicolons(b));
    }
  }

  lemma {:induction false} SolidTrim(s: string)
    ensures Solid(TrimSemicolons(s)) == Solid(s)
    decreases |s|
  {
    if s != "" && s[0] == ';' {
      SolidTrim(s[1..]);
    } else if s != "" && s[|s| - 1] == ';' {
      var front := s[..|s| - 1];
      SolidTrim(front);
      assert s == front + ";";
      SolidAppend(front, ";");
      SolidZero(";");
    }
  }

  lemma SolidUnsemicolon(s: string)
    ensures Solid(Unsemicolon(s)) == Solid(s)
  {
  }

  function Tidied(s: string): string {
    TrimSemicolons(SingleSemicolons(s))
  }

  lemma SolidTidied(s: string)
    ensures Solid(Tidied(s)) == Solid(s)
  {
    SolidSingle(s);
    SolidTrim(SingleSemicolons(s));
  }

  /** Semicolons before a tag go. */
  lemma {:induction false} TidiesToTag(semis: string, tag: string)
    requires OnlySemicolons(semis) && PlainTag(tag)
    ensures Tidied(semis + tag) == tag
    decreases |semis|
  {
    var s := semis + tag;
    if |semis| >= 2 {
      TwoSemicolons(semis, tag);
      TidiesToTag(semis[2..], tag);
      TrimFirst(SingleSemicolons(semis[2..] + tag));
    } else if |semis| == 1 {
      assert semis[0] in semis;
      assert s == ";" + tag;
      OneSemicolon(tag);
      TrimFirst(tag);
    } else {
      assert s == tag;
    }
  }

  lemma TwoSemicolons(semis: string, tag: string)
    requires |semis| >= 2 && OnlySemicolons(semis)
    ensures SingleSemicolons(semis + tag) == ";" + SingleSemicolons(semis[2..] + tag)
    ensures OnlySemicolons(semis[2..])
  {
    var s := semis + tag;
    assert semis[0] in semis && semis[1] in semis;
    assert OccursAt(s, ";;", 0);
    assert s[2..] == semis[2..] + tag && s[..0] == "";
    forall c | c in semis[2..] ensures c in semis {
    }
  }

  lemma OneSemicolon(tag: string)
    requires PlainTag(tag)
    ensures SingleSemicolons(";" + tag) == ";" + tag
  {
    var s := ";" + tag;
    forall i: nat | i + 2 <= |s| ensures !OccursAt(s, ";;", i) {
      if i == 0 {
        assert s[0..2][1] == tag[0];
      } else {
        assert s[i..i + 2] == tag[i - 1..i + 1] && !OccursAt(tag, ";;", i - 1);
      }
    }
  }

  lemma TrimFirst(s: string)
    ensures TrimSemicolons(";" + s) == TrimSemicolons(s)
  {
    assert (";" + s)[1..] == s;
  }

  // ---------- exactly when only the tag is left ----------

  /** The scan from the first bracket ends, and behind its end stand only semicolons. */
  predicate Closes(part: string) {
    var end := Outside(part, |RETRY|, 0);
    end.Some? && OnlySemicolons(part[end.value + 1..])
  }

  /** A scan that ends in a text ends there in a longer one; one that does not can end only behind the text. */
  lemma {:induction false} ScanInLonger(s: string, rest: string, i: nat, depth: int, inStr: bool, escape: bool)
    requires i <= |s|
    ensures var end, longer := Scan(s, i, depth, inStr, escape), Scan(s + rest, i, depth, inStr, escape);
            if end.Some? then longer == end else longer.Some? ==> longer.value >= |s| && (s + rest)[longer.value] == ']'
    decreases |s| - i
  {
    if i == |s| {
      ScanEndsWithBracket(s + rest, i, depth, inStr, escape);
    } else if inStr {
      var c := s[i];
      ScanInLonger(s, rest, i + 1, depth, escape || c == '\\' || c != '"', !escape && c == '\\');
    } else if s[i] == ']' && depth == 1 {
    } else {
      var c := s[i];
      var next := if c == '[' then depth + 1 else if c == ']' then depth - 1 else depth;
      ScanInLonger(s, rest, i + 1, next, c == '"', escape);
    }
  }

  lemma {:induction false} ScanEndsWithBracket(s: string, i: nat, depth: int, inStr: bool, escape: bool)
    ensures var end := Scan(s, i, depth, inStr, escape); end.Some? ==> s[end.value] == ']'
    decreases |s| - i
  {
    if i < |s| {
      var c := s[i];
      if inStr {
        ScanEndsWithBracket(s, i + 1, depth, escape || c == '\\' || c != '"', !escape && c == '\\');
      } else if c != ']' || depth != 1 {
        var next := if c == '[' then depth + 1 else if c == ']' then depth - 1 else depth;
        ScanEndsWithBracket(s, i + 1, next, c == '"', escape);
      }
    }
  }

  /** What the segment's removal leaves when the segment is first in the text. */
  lemma StripsFirstPart(s: string)
    requires Key(RETRY) <= s
    ensures var end := Outside(s, |RETRY|, 0);
            StripRetryHistory(s) == if end.Some? then Unsemicolon(s[end.value + 1..]) else s
  {
    assert OccursAt(s, Key(RETRY), 0);
    var end := Outside(s, |RETRY|, 0);
    if end.Some? {
      SpanIs(s, RETRY, 0, end.value);
      CutsSpan(s, RETRY, 0, end.value + 1);
      assert s[..0] == "";
    }
  }

  lemma BehindIsSolid(part: string, rest: string, tag: string)
    requires rest == tag || rest == Behind(tag)
    ensures Solid(part + rest) == Solid(part) + Solid(tag)
  {
    SolidAppend(part, rest);
    SolidAppend(";", tag);
    SolidZero(";");
  }

  lemma TidiesBehind(semis: string, rest: string, tag: string)
    requires OnlySemicolons(semis) && PlainTag(tag) && (rest == tag || rest == Behind(tag))
    ensures Tidied(Unsemicolon(semis + rest)) == tag
  {
    var all := if rest == tag then semis else semis + ";";
    assert all + tag == semis + rest;
    if all == "" {
      assert Unsemicolon(tag) == tag;
      TidiesToTag("", tag);
      assert "" + tag == tag;
    } else {
      assert all[0] in all;
      assert (all + tag)[1..] == all[1..] + tag;
      forall c | c in all[1..] ensures c in all {
      }
      TidiesToTag(all[1..], tag);
    }
  }

  lemma NotTidied(s: string, tag: string)
    requires Solid(s) != Solid(tag)
    ensures Tidied(s) != tag
  {
    SolidTidied(s);
  }

  lemma CleansToTagIff(part: string, rest: string, tag: string)
    requires Key(RETRY) <= part && PlainTag(tag) && (rest == tag || rest == Behind(tag))
    ensures Tidied(StripRetryHistory(part + rest)) == tag <==> Closes(part)
  {
    var end := Outside(part, |RETRY|, 0);
    if end.Some? {
      CleansBehindEnd(part, rest, tag, end.value);
      ClosesAtEnd(part, end.value);
    } else {
      NeverCleans(part, rest, tag);
    }
  }

  lemma ClosesAtEnd(part: string, end: nat)
    requires Outside(part, |RETRY|, 0) == Some(end)
    ensures Closes(part) <==> OnlySemicolons(part[end + 1..])
  {
  }

  lemma CleansBehindEnd(part: string, rest: string, tag: string, end: nat)
    requires Key(RETRY) <= part && PlainTag(tag) && (rest == tag || rest == Behind(tag))
    requires Outside(part, |RETRY|, 0) == Some(end)
    ensures Tidied(StripRetryHistory(part + rest)) == tag <==> OnlySemicolons(part[end + 1..])
  {
    LeftBehind(part, rest, end);
    TidiedIff(part[end + 1..], rest, tag);
  }

  lemma LeftBehind(part: string, rest: string, end: nat)
    requires Key(RETRY) <= part && Outside(part, |RETRY|, 0) == Some(end)
    ensures StripRetryHistory(part + rest) == Unsemicolon(part[end + 1..] + rest)
  {
    ScanInLonger(part, rest, |RETRY|, 0, false, false);
    KeyInLonger(part, Key(RETRY), rest);
    StripsClosedPart(part + rest, end);
    BehindEnd(part, rest, end);
  }

  lemma StripsClosedPart(s: string, end: nat)
    requires Key(RETRY) <= s && Outside(s, |RETRY|, 0) == Some(end)
    ensures StripRetryHistory(s) == Unsemicolon(s[end + 1..])
  {
    StripsFirstPart(s);
  }

  lemma KeyInLonger(part: string, key: string, rest: string)
    requires key <= part
    ensures key <= part + rest
  {
  }

  lemma NeverCleans(part: string, rest: string, tag: string)
    requires Key(RETRY) <= part && (rest == tag || rest == Behind(tag)) && Outside(part, |RETRY|, 0) == None
    ensures Tidied(StripRetryHistory(part + rest)) != tag
  {
    var end := LeftOpen(part, rest);
    NotTheTag(part, rest, tag, end, StripRetryHistory(part + rest));
  }

  lemma NotTheTag(part: string, rest: string, tag: string, end: Option<nat>, left: string)
    requires Key(RETRY) <= part && (rest == tag || rest == Behind(tag))
    requires end.Some? ==> |part| <= end.value < |part + rest| && (part + rest)[end.value] == ']'
    requires left == if end.Some? then Unsemicolon((part + rest)[end.value + 1..]) else part + rest
    ensures Tidied(left) != tag
  {
    if end.Some? {
      CutIntoTag(part, rest, tag, end.value);
    } else {
      WholePartStays(part, rest, tag);
    }
  }

  lemma LeftOpen(part: string, rest: string) returns (end: Option<nat>)
    requires Key(RETRY) <= part && Outside(part, |RETRY|, 0) == None
    ensures end.Some? ==> |part| <= end.value < |part + rest| && (part + rest)[end.value] == ']'
    ensures StripRetryHistory(part + rest)
         == if end.Some? then Unsemicolon((part + rest)[end.value + 1..]) else part + rest
  {
    ScanInLonger(part, rest, |RETRY|, 0, false, false);
    KeyInLonger(part, Key(RETRY), rest);
    StripsFirstPart(part + rest);
    end := Outside(part + rest, |RETRY|, 0);
  }

  lemma BehindEnd(part: string, rest: string, end: nat)
    requires end < |part|
    ensures (part + rest)[end + 1..] == part[end + 1..] + rest
  {
  }

  lemma TidiedIff(left: string, rest: string, tag: string)
    requires PlainTag(tag) && (rest == tag || rest == Behind(tag))
    ensures Tidied(Unsemicolon(left + rest)) == tag <==> OnlySemicolons(left)
  {
    if OnlySemicolons(left) {
      TidiesBehind(left, rest, tag);
    } else {
      SolidZero(left);
      BehindIsSolid(left, rest, tag);
      SolidUnsemicolon(left + rest);
      NotTidied(Unsemicolon(left + rest), tag);
    }
  }

  /** A part that does not close stays, when the scan does not end behind it either. */
  lemma WholePartStays(part: string, rest: string, tag: string)
    requires Key(RETRY) <= part && (rest == tag || rest == Behind(tag))
    ensures Tidied(part + rest) != tag
  {
    BehindIsSolid(part, rest, tag);
    SolidZero(part);
    assert part[0] in part;
    NotTidied(part + rest, tag);
  }

  /** When it does, a piece of the tag goes with the part. */
  lemma CutIntoTag(part: string, rest: string, tag: string, end: nat)
    requires (rest == tag || rest == Behind(tag)) && |part| <= end < |part + rest| && (part + rest)[end] == ']'
    ensures Tidied(Unsemicolon((part + rest)[end + 1..])) != tag
  {
    var k := end + 1 - |part|;
    var cut, left := rest[..k], rest[k..];
    assert rest == cut + left && (part + rest)[end + 1..] == left && cut[k - 1] == ']';
    SolidAppend(cut, left);
    SolidZero(cut);
    assert cut[k - 1] in cut;
    BehindIsSolid("", rest, tag);
    assert "" + rest == rest;
    SolidUnsemicolon(left);
    NotTidied(Unsemicolon(left), tag);
  }

  /** The expression leaves the key of the attempts alone. */
  lemma KeyStays(attempts: Elements)
    ensures Key(RETRY) <= StripAdminInfo(HistoryPart("", attempts))
    ensures var part := HistoryPart("", attempts); part != "" && part[|part| - 1] == ']'
  {
    KeyStaysIn(HistoryPart("", attempts), Key(RETRY), ADMIN);
  }

  lemma KeyStaysIn(part: string, key: string, name: string)
    requires key <= part && name != "" && name[0] !in key
    ensures key <= StripLists(part, name)
  {
    var span := ListSpan(part, name);
    if span.None? {
      NoSpanNoStrip(part, name);
    } else {
      SpanStartsWithKey(part, name);
      KeyIsBefore(part, key, name, span.value.from);
      StripsBy(part, name, span.value);
      PrefixStays(part, key, span.value.from, StripLists(part[span.value.end..], name));
    }
  }

  lemma SpanStartsWithKey(s: string, name: string)
    requires ListSpan(s, name).Some?
    ensures OccursAt(s, Key(name), ListSpan(s, name).value.from)
  {
  }

  lemma KeyIsBefore(part: string, key: string, name: string, from: nat)
    requires key <= part && name != "" && name[0] !in key && OccursAt(part, Key(name), from)
    ensures from >= |key|
  {
    assert part[from..from + |Key(name)|][0] == part[from];
    forall i | 0 <= i < |key| ensures part[i] in key {
      assert part[i] == key[i];
    }
  }

  lemma PrefixStays(part: string, key: string, from: nat, left: string)
    requires key <= part && |key| <= from <= |part|
    ensures key <= part[..from] + left
  {
  }

  lemma StripsHistory(history: seq<int>, body: string)
    ensures StripAdminInfo(if history == [] then body else ListPart(ADMIN, HistoryList(history)) + Behind(body))
         == StripAdminInfo(body)
  {
    if history != [] {
      HistoryListHoldsNoBracket(history);
      StripAdminTakesOutTheList(HistoryList(history), Behind(body));
      assert Unsemicolon(Behind(body)) == body;
    }
  }

  lemma CleanedIff(history: seq<int>, attempts: Elements, tag: string)
    requires attempts != NoElements && PlainTag(tag)
    ensures Cleaned(Join(Parts(history, attempts, tag), ';')) == tag
       <==> Closes(StripAdminInfo(HistoryPart("", attempts)))
  {
    var part := HistoryPart("", attempts);
    JoinOfParts(history, attempts, tag);
    StripsHistory(history, Body(attempts, tag));
    KeyStays(attempts);
    TagFollows(tag);
    var kept := StripsInside(part, ADMIN, Behind(tag));
    assert Unsemicolon(Behind(tag)) == tag;
    CleansToTagIff(StripAdminInfo(part), kept, tag);
  }

  lemma TagFollows(tag: string)
    requires PlainTag(tag)
    ensures Follows(Behind(tag), ADMIN) && ']' !in ADMIN && ';' !in ADMIN
  {
    assert tag != "" ==> Behind(tag)[1..] == tag;
  }

  lemma CleanedWithoutAttempts(history: seq<int>, tag: string)
    requires PlainTag(tag)
    ensures Cleaned(Join(Parts(history, NoElements, tag), ';')) == tag
  {
    JoinOfParts(history, NoElements, tag);
    StripsHistory(history, tag);
    NoListLeft(tag, ADMIN);
    assert StripRetryHistory(tag) == tag;
    TidiesToTag("", tag);
    assert "" + tag == tag;
  }

  /** The fast path and the JSON path are not taken when there is something to strip. */
  lemma KeysAreNoticed(history: seq<int>, attempts: Elements, tag: string)
    requires history != [] || attempts != NoElements
    ensures var other := Join(Parts(history, attempts, tag), ';');
            other != "" && other[0] != '{' && (Index(other, "admin").Some? || Index(other, "retryHistory").Some?)
  {
    var other := Join(Parts(history, attempts, tag), ';');
    JoinOfParts(history, attempts, tag);
    if history != [] {
      assert other[..5] == "admin";
      assert OccursAt(other, "admin", 0);
    } else {
      assert other[..12] == "retryHistory";
      assert OccursAt(other, "retryHistory", 0);
    }
  }

  /** What an ordinary user sees of what the writer built is the affinity tag and nothing else, if and only if there
      are no attempts, or their part, once the expression has been through it, still closes. */
  lemma OnlyTheTagIsLeftIff(history: seq<int>, attempts: Elements, tag: string, reparsed: Option<string>)
    requires PlainTag(tag)
    ensures Stripped(Join(Parts(history, attempts, tag), ';'), reparsed) == tag
       <==> attempts == NoElements || Closes(StripAdminInfo(HistoryPart("", attempts)))
  {
    StrippedIsCleaned(history, attempts, tag, reparsed);
    if attempts == NoElements {
      CleanedWithoutAttempts(history, tag);
    } else {
      CleanedIff(history, attempts, tag);
    }
  }

  /** The fast path leaves only the tag itself, and the JSON path is not taken. */
  lemma StrippedIsCleaned(history: seq<int>, attempts: Elements, tag: string, reparsed: Option<string>)
    requires PlainTag(tag)
    ensures var other := Join(Parts(history, attempts, tag), ';');
            Stripped(other, reparsed) == tag <==> Cleaned(other) == tag
  {
    if history != [] || attempts != NoElements {
      KeysAreNoticed(history, attempts, tag);
      NoticedIsCleaned(Join(Parts(history, attempts, tag), ';'), reparsed);
    } else {
      JoinOfParts(history, attempts, tag);
      CleanedWithoutAttempts(history, tag);
      TagIsLeft(tag, reparsed);
    }
  }

  lemma NoticedIsCleaned(other: string, reparsed: Option<string>)
    requires other != "" && other[0] != '{' && (Index(other, "admin").Some? || Index(other, "retryHistory").Some?)
    ensures Stripped(other, reparsed) == Cleaned(other)
  {
  }

  lemma TagIsLeft(tag: string, reparsed: Option<string>)
    requires PlainTag(tag) && Cleaned(tag) == tag
    ensures Stripped(tag, reparsed) == tag
  {
  }

  /** So it is whenever the attempts are JSON in which the key of the channel history does not occur. */
  lemma OnlyTheTagIsLeft(history: seq<int>, attempts: Elements, tag: string, reparsed: Option<string>)
    requires ElementsOk(attempts) && PlainTag(tag) && !Occurs(ValueText(Array("", attempts)), Key(ADMIN))
    ensures Stripped(Join(Parts(history, attempts, tag), ';'), reparsed) == tag
  {
    var part := HistoryPart("", attempts);
    HistoryIsFreeOfAdmin(ValueText(Array("", attempts)));
    NoListLeft(part, ADMIN);
    WholeArrayCloses(attempts);
    OnlyTheTagIsLeftIff(history, attempts, tag, reparsed);
  }

  lemma WholeArrayCloses(attempts: Elements)
    requires ElementsOk(attempts)
    ensures Closes(HistoryPart("", attempts))
  {
    var part := HistoryPart("", attempts);
    assert part[|RETRY|..] == ValueText(Array("", attempts));
    assert OccursAt(part, ValueText(Array("", attempts)), |RETRY|);
    ScanEndsAtArray(part, |RETRY|, "", attempts);
    assert part[|part|..] == "";
  }

  // ---------- an error text that holds the key of the channel history ----------

  function PlainUnits(s: string): seq<Unit> {
    if s == "" then [] else [Plain(s[0])] + PlainUnits(s[1..])
  }

  lemma {:induction false} PlainUnitsText(s: string)
    ensures UnitsText(PlainUnits(s)) == s
    ensures forall u :: u in PlainUnits(s) ==> u.Plain? && u.c in s
  {
    if s != "" {
      PlainUnitsText(s[1..]);
    }
  }

  predicate PlainText(s: string) {
    forall c :: c in s ==> c != '"' && c != '\\' && c != '[' && c != ']'
  }

  /** A member as the encoder writes it, without white space. */
  datatype Field = Field(name: string, value: Value)

  function MembersOf(fields: seq<Field>): Members {
    if fields == [] then NoMembers
    else Member(PlainUnits(fields[0].name), "", "", fields[0].value, "", "", MembersOf(fields[1..]))
  }

  function FieldText(f: Field): string {
    "\"" + f.name + "\":" + ValueText(f.value)
  }

  /** Fields that hold no bracket. */
  predicate PlainField(f: Field) {
    && PlainText(f.name)
    && match f.value
       case Word(text) => Quiet(text)
       case Str(units) => UnitsOk(units) && PlainText(UnitsText(units))
       case _ => false
  }

  predicate PlainFields(fields: seq<Field>) {
    forall f :: f in fields ==> PlainField(f)
  }

  predicate FieldOk(f: Field) {
    PlainText(f.name) && ValueOk(f.value)
  }

  function TextsOf(fields: seq<Field>): seq<string> {
    seq(|fields|, i requires 0 <= i < |fields| => FieldText(fields[i]))
  }

  function FieldsText(fields: seq<Field>): string {
    Join(TextsOf(fields), ',')
  }

  lemma FieldIsMember(f: Field)
    requires FieldOk(f)
    ensures UnitsOk(PlainUnits(f.name)) && Quoted(PlainUnits(f.name)) + ":" + ValueText(f.value) == FieldText(f)
  {
    PlainUnitsText(f.name);
  }

  lemma FieldHoldsNoBracket(f: Field)
    requires PlainField(f)
    ensures FieldOk(f) && '[' !in FieldText(f) && ']' !in FieldText(f)
  {
  }

  lemma MemberText(name: seq<Unit>, value: Value, rest: Members)
    ensures MembersText(Member(name, "", "", value, "", "", rest))
         == Quoted(name) + ":" + ValueText(value) + if rest == NoMembers then "" else "," + MembersText(rest)
  {
    var behind := Comma("", rest == NoMembers) + MembersText(rest);
    BehindMember(rest);
    SpacedMember(name, value, rest, Quoted(name), ValueText(value), behind);
    NoSpace(Quoted(name), ValueText(value), behind);
  }

  lemma BehindMember(rest: Members)
    ensures Comma("", rest == NoMembers) + MembersText(rest)
         == if rest == NoMembers then "" else "," + MembersText(rest)
  {
  }

  lemma SpacedMember(name: seq<Unit>, value: Value, rest: Members, n: string, v: string, behind: string)
    requires Quoted(name) == n && ValueText(value) == v && Comma("", rest == NoMembers) + MembersText(rest) == behind
    ensures MembersText(Member(name, "", "", value, "", "", rest))
         == n + ("" + (":" + ("" + (v + ("" + behind)))))
  {
  }

  lemma NoSpace(name: string, value: string, rest: string)
    ensures name + ("" + (":" + ("" + (value + ("" + rest))))) == name + ":" + value + rest
  {
  }

  lemma {:induction false} FieldsAreMembers(fields: seq<Field>)
    requires forall f :: f in fields ==> FieldOk(f)
    ensures MembersOk(MembersOf(fields)) && MembersText(MembersOf(fields)) == FieldsText(fields)
  {
    if fields != [] {
      FieldIsMember(fields[0]);
      FieldsAreMembers(fields[1..]);
      FirstOfFields(fields);
      MemberText(PlainUnits(fields[0].name), fields[0].value, MembersOf(fields[1..]));
    }
  }

  lemma FirstOfFields(fields: seq<Field>)
    requires fields != []
    ensures FieldsText(fields) == FieldText(fields[0]) + if |fields| == 1 then "" else "," + FieldsText(fields[1..])
  {
    assert TextsOf(fields)[1..] == TextsOf(fields[1..]);
  }

  lemma FieldsHoldNoBracket(fields: seq<Field>)
    requires PlainFields(fields)
    ensures '[' !in FieldsText(fields) && ']' !in FieldsText(fields)
  {
    var texts := TextsOf(fields);
    forall i | 0 <= i < |texts| ensures '[' !in texts[i] && ']' !in texts[i] {
      FieldHoldsNoBracket(fields[i]);
    }
    JoinHoldsNo(texts, ',', '[');
    JoinHoldsNo(texts, ',', ']');
  }

  lemma {:induction false} JoinBoth(a: seq<string>, b: seq<string>)
    requires a != [] && b != []
    ensures Join(a + b, ',') == Join(a, ',') + "," + Join(b, ',')
  {
    if |a| == 1 {
      assert (a + b)[1..] == b;
    } else {
      JoinBoth(a[1..], b);
      assert (a + b)[1..] == a[1..] + b;
    }
  }

  lemma FieldsAppend(a: seq<Field>, b: seq<Field>)
    requires a != [] && b != []
    ensures FieldsText(a + b) == FieldsText(a) + "," + FieldsText(b)
  {
    assert TextsOf(a + b) == TextsOf(a) + TextsOf(b);
    JoinBoth(TextsOf(a), TextsOf(b));
  }

  /** An attempt as it is recorded, in texts that need no escapes; the duration is the text of its number. The
      encoder leaves out an empty error and an empty stop reason. */
  datatype RetryAttempt = RetryAttempt(
    attempt: int, channelId: int, channelName: string, keyIndex: int, duration: string, error: string, status: int,
    stopReason: string)

  function BeforeError(a: RetryAttempt): seq<Field> {
    [Field("attempt", Word(Decimal(a.attempt))), Field("channel_id", Word(Decimal(a.channelId))),
     Field("channel_name", Str(PlainUnits(a.channelName))), Field("key_index", Word(Decimal(a.keyIndex))),
     Field("duration", Word(a.duration))]
  }

  function ErrorField(a: RetryAttempt): seq<Field> {
    if a.error == "" then [] else [Field("error", Str(PlainUnits(a.error)))]
  }

  function BehindError(a: RetryAttempt): seq<Field> {
    [Field("status", Word(Decimal(a.status)))]
    + if a.stopReason == "" then [] else [Field("stop_reason", Str(PlainUnits(a.stopReason)))]
  }

  function Written(a: RetryAttempt): Elements {
    Element(Object("", MembersOf(BeforeError(a) + (ErrorField(a) + BehindError(a)))), "", "", NoElements)
  }

  predicate PlainAttempt(a: RetryAttempt) {
    PlainText(a.channelName) && Quiet(a.duration) && PlainText(a.stopReason)
  }

  lemma DecimalIsQuiet(n: int)
    ensures Quiet(Decimal(n))
  {
    DigitsAreDigits(if n < 0 then -n else n);
  }

  lemma NumberField(name: string, n: int)
    requires PlainText(name)
    ensures PlainField(Field(name, Word(Decimal(n))))
  {
    DecimalIsQuiet(n);
  }

  lemma TextField(name: string, text: string)
    requires PlainText(name) && PlainText(text)
    ensures PlainField(Field(name, Str(PlainUnits(text))))
  {
    PlainUnitsText(text);
  }

  lemma FieldsBeforeArePlain(a: RetryAttempt)
    requires PlainAttempt(a)
    ensures PlainFields(BeforeError(a))
  {
    NumberField("attempt", a.attempt);
    NumberField("channel_id", a.channelId);
    TextField("channel_name", a.channelName);
    NumberField("key_index", a.keyIndex);
    assert PlainField(Field("duration", Word(a.duration)));
  }

  lemma FieldsBehindArePlain(a: RetryAttempt)
    requires PlainAttempt(a)
    ensures PlainFields(BehindError(a))
  {
    NumberField("status", a.status);
    TextField("stop_reason", a.stopReason);
  }

  lemma CutsAtTheEnd(left: string, tail: string)
    requires !Occurs(left, Key(ADMIN)) && tail != "" && ']' !in tail
    ensures StripAdminInfo(left + Key(ADMIN) + (tail + "]")) == left
  {
    var s := left + Key(ADMIN) + (tail + "]");
    var at, end := |left| + |Key(ADMIN)|, |s| - 1;
    LabelsHoldNoBracket();
    KeyComesFirst(left, ADMIN, tail + "]");
    forall i: nat | at <= i < end ensures !OccursAt(s, "]", i) {
      assert s[i..i + 1][0] == tail[i - at];
    }
    assert OccursAt(s, "]", end);
    assert ListSpan(s, ADMIN) == Some(Span(|left|, |s|));
    NoListLeft("", ADMIN);
    assert s[..|left|] == left && s[|s|..] == "";
  }

  lemma {:induction false} ScanStaysInString(s: string, i: nat, depth: int)
    requires i <= |s| && forall k :: i <= k < |s| ==> s[k] != '"' && s[k] != '\\'
    ensures Scan(s, i, depth, true, false) == None
    decreases |s| - i
  {
    if i < |s| {
      ScanStaysInString(s, i + 1, depth);
    }
  }

  lemma FreeBehindBracket(x: string)
    requires '[' !in x
    ensures !Occurs("[" + x, Key(ADMIN))
  {
    var s := "[" + x;
    forall i: nat | i + |Key(ADMIN)| <= |s| ensures !OccursAt(s, Key(ADMIN), i) {
      assert s[i..i + |Key(ADMIN)|][|ADMIN|] == s[i + |ADMIN|] == x[i + |ADMIN| - 1];
    }
  }

  /** An array that breaks off inside a string is never closed. */
  lemma BreaksOff(body: string, lead: string)
    requires Passes(body, 1) && PlainText(lead)
    ensures Outside(RETRY + ("[" + (body + ("\"" + lead))), |RETRY|, 0) == None
  {
    var s, i := RETRY + ("[" + (body + ("\"" + lead))), |RETRY|;
    assert s[i] == '[';
    assert s[i + 1..i + 1 + |body|] == body && OccursAt(s, body, i + 1);
    var j := i + 1 + |body|;
    assert s[j] == '"';
    forall k | j + 1 <= k < |s| ensures s[k] in lead {
      assert s[k] == lead[k - j - 1];
    }
    ScanStaysInString(s, j + 1, 1);
    assert Outside(s, i, 0) == Outside(s, i + 1, 1);
    assert Outside(s, i + 1, 1) == Outside(s, j, 1);
  }

  lemma NeverCloses(part: string, body: string, lead: string, more: string)
    requires Passes(body, 1) && '[' !in body && PlainText(lead) && ']' !in more && more != ""
    requires part == RETRY + ("[" + (body + ("\"" + lead))) + Key(ADMIN) + (more + "]")
    ensures !Closes(StripAdminInfo(part))
  {
    FreeBehindBracket(body + ("\"" + lead));
    HistoryIsFreeOfAdmin("[" + (body + ("\"" + lead)));
    CutsAtTheEnd(RETRY + ("[" + (body + ("\"" + lead))), more);
    BreaksOff(body, lead);
  }

  const BEFORE_ERROR_TEXT := "\"error\":"

  lemma PassName(name: string)
    requires PlainText(name)
    ensures Passes("\"" + name + "\":", 1) && '[' !in "\"" + name + "\":"
  {
    PlainUnitsText(name);
    PassQuoted(PlainUnits(name), 1);
    PassQuiet(":", 1);
    PassBoth(Quoted(PlainUnits(name)), ":", 1);
    assert Quoted(PlainUnits(name)) + ":" == "\"" + name + "\":";
  }

  lemma PassesUpToError(fields: seq<Field>)
    requires PlainFields(fields)
    ensures var body := "{" + (FieldsText(fields) + ("," + BEFORE_ERROR_TEXT)); Passes(body, 1) && '[' !in body
  {
    PlainFieldsAreOk(fields);
    FieldsAreMembers(fields);
    FieldsHoldNoBracket(fields);
    PassMembers(MembersOf(fields), 1);
    PassName("error");
    PassesBetween(FieldsText(fields), BEFORE_ERROR_TEXT);
  }

  lemma PassesBetween(text: string, next: string)
    requires Passes(text, 1) && Passes(next, 1) && '[' !in text && '[' !in next
    ensures var body := "{" + (text + ("," + next)); Passes(body, 1) && '[' !in body
  {
    PassQuiet(",", 1);
    PassBoth(",", next, 1);
    PassBoth(text, "," + next, 1);
    PassQuiet("{", 1);
    PassBoth("{", text + ("," + next), 1);
  }

  lemma PlainFieldsAreOk(fields: seq<Field>)
    requires PlainFields(fields)
    ensures forall f :: f in fields ==> FieldOk(f)
  {
    forall f | f in fields ensures FieldOk(f) {
      FieldHoldsNoBracket(f);
    }
  }

  lemma OneObjectText(members: Members)
    requires MembersOk(members)
    ensures var es := Element(Object("", members), "", "", NoElements);
            ElementsOk(es) && ValueText(Array("", es)) == "[" + ("{" + (MembersText(members) + "}") + "]")
  {
    var value := Object("", members);
    OneElementText(value);
    ObjectText(members, MembersText(members));
    ArrayOfText(Element(value, "", "", NoElements), ValueText(value));
  }

  lemma ObjectText(members: Members, text: string)
    requires MembersText(members) == text
    ensures ValueText(Object("", members)) == "{" + (text + "}")
  {
  }

  lemma ArrayOfText(es: Elements, text: string)
    requires ElementsText(es) == text
    ensures ValueText(Array("", es)) == "[" + (text + "]")
  {
  }

  lemma OneElementText(value: Value)
    requires ValueOk(value)
    ensures var es := Element(value, "", "", NoElements); ElementsOk(es) && ElementsText(es) == ValueText(value)
  {
    assert ElementsText(NoElements) == "";
  }

  lemma ErrorFieldText(error: string)
    requires forall c :: c in error ==> c != '"' && c != '\\'
    ensures var field := Field("error", Str(PlainUnits(error)));
            FieldOk(field) && FieldsText([field]) == BEFORE_ERROR_TEXT + ("\"" + (error + "\""))
  {
    PlainUnitsText(error);
    FirstOfFields([Field("error", Str(PlainUnits(error)))]);
    assert "\"" + "error" + "\":" == BEFORE_ERROR_TEXT;
  }

  lemma CutAtKey(before: string, lead: string, key: string, more: string, behind: string)
    ensures "[" + ("{" + (before + "," + (BEFORE_ERROR_TEXT + ("\"" + (lead + key + more + "\"")) + "," + behind) + "}")
                   + "]")
         == "[" + (("{" + (before + ("," + BEFORE_ERROR_TEXT))) + ("\"" + lead)) + key
            + ((more + ("\"" + ("," + (behind + "}")))) + "]")
  {
  }

  /** The part of one attempt, cut at the key inside its error text. */
  lemma WrittenText(before: seq<Field>, behind: seq<Field>, lead: string, more: string, es: Elements)
    requires before != [] && behind != [] && PlainFields(before) && PlainFields(behind)
    requires PlainText(lead) && PlainText(more)
    requires es == Element(Object("", MembersOf(before + ([Field("error", Str(PlainUnits(lead + Key(ADMIN) + more)))]
                                                         + behind))), "", "", NoElements)
    ensures ElementsOk(es)
    ensures ValueText(Array("", es))
         == "[" + (("{" + (FieldsText(before) + ("," + BEFORE_ERROR_TEXT))) + ("\"" + lead)) + Key(ADMIN)
            + ((more + ("\"" + ("," + (FieldsText(behind) + "}")))) + "]")
  {
    var error := lead + Key(ADMIN) + more;
    var field := Field("error", Str(PlainUnits(error)));
    var fields := before + ([field] + behind);
    ErrorFieldText(error);
    FieldsAppend(before, [field] + behind);
    FieldsAppend([field], behind);
    PlainFieldsAreOk(before);
    PlainFieldsAreOk(behind);
    FieldsAreMembers(fields);
    OneObjectText(MembersOf(fields));
    CutAtKey(FieldsText(before), lead, Key(ADMIN), more, FieldsText(behind));
  }

  lemma TailHoldsNoBracket(more: string, behind: string)
    requires ']' !in more && ']' !in behind
    ensures ']' !in more + ("\"" + ("," + (behind + "}")))
  {
  }

  /** One attempt with the key of the channel history in its error text and no bracket behind it: the expression
      runs on to the closing bracket of the array, the scanner then never finds the end, and more than the tag is
      left, whatever the channel history and the tag. */
  lemma ErrorTextHidesTheEnd(history: seq<int>, a: RetryAttempt, lead: string, more: string, tag: string,
                             reparsed: Option<string>)
    requires PlainTag(tag) && PlainAttempt(a)
    requires PlainText(lead) && PlainText(more) && a.error == lead + Key(ADMIN) + more
    ensures ElementsOk(Written(a)) && Stripped(Join(Parts(history, Written(a), tag), ';'), reparsed) != tag
  {
    var before, behind := BeforeError(a), BehindError(a);
    FieldsBeforeArePlain(a);
    FieldsBehindArePlain(a);
    FieldsHoldNoBracket(behind);
    WrittenText(before, behind, lead, more, Written(a));
    PassesUpToError(before);
    TailHoldsNoBracket(more, FieldsText(behind));
    var body := "{" + (FieldsText(before) + ("," + BEFORE_ERROR_TEXT));
    var rest := more + ("\"" + ("," + (FieldsText(behind) + "}")));
    StartsWithRetry("[" + (body + ("\"" + lead)), Key(ADMIN), rest + "]", ValueText(Array("", Written(a))));
    NeverCloses(HistoryPart("", Written(a)), body, lead, rest);
    OnlyTheTagIsLeftIff(history, Written(a), tag, reparsed);
  }

  lemma StartsWithRetry(open: string, key: string, rest: string, arr: string)
    requires arr == open + key + rest
    ensures RETRY + arr == RETRY + open + key + rest
  {
  }

  const FAILED_ATTEMPT := RetryAttempt(1, 7, "main", 0, "0.5", "adminInfo:[", 500, "retry_limit_reached")

  /** A request that tried channel 7 once, with that error text. */
  lemma ErrorTextExample(history: seq<int>, a: RetryAttempt)
    requires history == [7] && a == FAILED_ATTEMPT
    ensures Stripped(Join(Parts(history, Written(a), ""), ';'), None) != ""
  {
    FailedAttemptIsPlain();
    ErrorTextHidesTheEnd(history, a, "", "", "", None);
  }

  lemma FailedAttemptIsPlain()
    ensures PlainAttempt(FAILED_ATTEMPT) && FAILED_ATTEMPT.error == "" + Key(ADMIN) + ""
  {
    assert Key(ADMIN) == "adminInfo:[";
  }
}
