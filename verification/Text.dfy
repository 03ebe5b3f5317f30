/** The string operations of the Go standard library that the gateway relies on:
    trimming, splitting on a separator, joining, prefix tests and substring search. */
module Text {

  datatype Option<+T> = None | Some(value: T)

  /** The code points for which unicode.IsSpace holds. */
  predicate IsSpace(c: char) {
    || '\t' <= c <= '\r'
    || c in {' ', '\U{85}', '\U{A0}', '\U{1680}', '\U{2028}', '\U{2029}', '\U{202F}', '\U{205F}', '\U{3000}'}
    || '\U{2000}' <= c <= '\U{200A}'
  }

  function TrimLeft(s: string): string {
    if s != "" && IsSpace(s[0]) then TrimLeft(s[1..]) else s
  }

  function TrimRight(s: string): string {
    if s != "" && IsSpace(s[|s| - 1]) then TrimRight(s[..|s| - 1]) else s
  }

  function TrimSpace(s: string): string {
    TrimRight(TrimLeft(s))
  }

  /** A non-blank string with no space at either end. */
  predicate Clean(s: string) {
    s != "" && !IsSpace(s[0]) && !IsSpace(s[|s| - 1])
  }

  lemma {:induction false} TrimLeftStart(s: string)
    ensures TrimLeft(s) == "" || !IsSpace(TrimLeft(s)[0])
    ensures forall c :: c in TrimLeft(s) ==> c in s
  {
    if s != "" && IsSpace(s[0]) {
      TrimLeftStart(s[1..]);
    }
  }

  lemma {:induction false} TrimRightEnds(s: string)
    ensures TrimRight(s) <= s
    ensures TrimRight(s) == "" || !IsSpace(TrimRight(s)[|TrimRight(s)| - 1])
    ensures s != "" && !IsSpace(s[0]) ==> TrimRight(s) != ""
  {
    if s != "" && IsSpace(s[|s| - 1]) {
      TrimRightEnds(s[..|s| - 1]);
    }
  }

  /** Trimming leaves nothing, or a string that trimming leaves alone. */
  lemma TrimSpaceClean(s: string)
    ensures TrimSpace(s) == "" || Clean(TrimSpace(s))
    ensures forall c :: c in TrimSpace(s) ==> c in s
    ensures Clean(s) ==> TrimSpace(s) == s
  {
    TrimLeftStart(s);
    TrimRightEnds(TrimLeft(s));
  }

  function Split(s: string, sep: char): (parts: seq<string>)
    ensures parts != []
  {
    if s == "" then [""]
    else if s[0] == sep then [""] + Split(s[1..], sep)
    else var rest := Split(s[1..], sep); [[s[0]] + rest[0]] + rest[1..]
  }

  function Join(parts: seq<string>, sep: char): string {
    if parts == [] then ""
    else if |parts| == 1 then parts[0]
    else parts[0] + [sep] + Join(parts[1..], sep)
  }

  lemma {:induction false} SplitFront(p: string, rest: string, sep: char)
    requires sep !in p
    ensures Split(p + [sep] + rest, sep) == [p] + Split(rest, sep)
    ensures Split(p, sep) == [p]
  {
    var s := p + [sep] + rest;
    if p == "" {
      assert s[1..] == rest;
    } else {
      SplitFront(p[1..], rest, sep);
      assert s[1..] == p[1..] + [sep] + rest;
      assert [p[0]] + p[1..] == p;
    }
  }

  /** Splitting undoes joining when no part holds the separator. */
  lemma {:induction false} SplitJoin(parts: seq<string>, sep: char)
    requires forall p :: p in parts ==> sep !in p
    ensures Split(Join(parts, sep), sep) == if parts == [] then [""] else parts
  {
    if |parts| == 1 {
      SplitFront(parts[0], "", sep);
    } else if |parts| > 1 {
      SplitFront(parts[0], Join(parts[1..], sep), sep);
      SplitJoin(parts[1..], sep);
    }
  }

  lemma {:induction false} PiecesHoldNoSeparator(s: string, sep: char)
    ensures forall p :: p in Split(s, sep) ==> sep !in p
  {
    if s != "" {
      PiecesHoldNoSeparator(s[1..], sep);
      var rest := Split(s[1..], sep);
      assert rest[0] in rest;
    }
  }

  /** The trimmed pieces that are not blank, in order. */
  function TrimmedPieces(pieces: seq<string>): seq<string> {
    if pieces == [] then []
    else
      var t := TrimSpace(pieces[0]);
      (if t == "" then [] else [t]) + TrimmedPieces(pieces[1..])
  }

  lemma {:induction false} TrimmedPiecesClean(pieces: seq<string>)
    ensures forall p :: p in TrimmedPieces(pieces) ==> Clean(p)
  {
    if pieces != [] {
      TrimSpaceClean(pieces[0]);
      TrimmedPiecesClean(pieces[1..]);
    }
  }

  lemma {:induction false} TrimmedPiecesMember(pieces: seq<string>, x: string)
    ensures x in TrimmedPieces(pieces) <==> x != "" && exists i :: 0 <= i < |pieces| && TrimSpace(pieces[i]) == x
  {
    if pieces != [] {
      TrimmedPiecesMember(pieces[1..], x);
      if x in TrimmedPieces(pieces[1..]) {
        var j :| 0 <= j < |pieces[1..]| && TrimSpace(pieces[1..][j]) == x;
        assert TrimSpace(pieces[j + 1]) == x;
      }
      if x != "" && exists i :: 0 <= i < |pieces| && TrimSpace(pieces[i]) == x {
        var i :| 0 <= i < |pieces| && TrimSpace(pieces[i]) == x;
        if i > 0 {
          assert TrimSpace(pieces[1..][i - 1]) == x;
        }
      }
    }
  }

  lemma {:induction false} TrimmedPiecesOfClean(pieces: seq<string>)
    requires forall p :: p in pieces ==> Clean(p)
    ensures TrimmedPieces(pieces) == pieces
  {
    if pieces != [] {
      TrimSpaceClean(pieces[0]);
      assert Clean(pieces[0]);
      forall p | p in pieces[1..] ensures Clean(p) {
        assert p in pieces;
      }
      TrimmedPiecesOfClean(pieces[1..]);
      assert pieces == [pieces[0]] + pieces[1..];
    }
  }

  lemma {:induction false} TrimmedPiecesAppend(pieces: seq<string>, more: seq<string>)
    ensures TrimmedPieces(pieces + more) == TrimmedPieces(pieces) + TrimmedPieces(more)
  {
    var all := pieces + more;
    if pieces == [] {
      assert all == more;
    } else {
      assert all[0] == pieces[0] && all[1..] == pieces[1..] + more;
      TrimmedPiecesAppend(pieces[1..], more);
    }
  }

  lemma TrimmedPiecesOne(piece: string)
    ensures TrimmedPieces([piece]) == if TrimSpace(piece) == "" then [] else [TrimSpace(piece)]
  {
    assert [piece][1..] == [];
  }

  lemma TrimmedPiecesOneMore(front: seq<string>, piece: string, rest: seq<string>)
    ensures TrimmedPieces(front + [piece])
         == if TrimSpace(piece) == "" then TrimmedPieces(front) else TrimmedPieces(front) + [TrimSpace(piece)]
    ensures TrimmedPieces(front + [piece]) <= TrimmedPieces(front + [piece] + rest)
  {
    TrimmedPiecesOne(piece);
    TrimmedPiecesAppend(front, [piece]);
    TrimmedPiecesAppend(front + [piece], rest);
  }

  lemma SplitOneMore<T>(s: seq<T>, i: nat)
    requires i < |s|
    ensures s[..i + 1] == s[..i] + [s[i]]
    ensures s == s[..i] + [s[i]] + s[i + 1..]
  {
  }

  /** One step of a loop that trims the pieces in turn and skips the blank ones. */
  lemma TrimmedPiecesStep(pieces: seq<string>, i: nat)
    requires i < |pieces|
    ensures TrimmedPieces(pieces[..i + 1])
         == if TrimSpace(pieces[i]) == "" then TrimmedPieces(pieces[..i])
             else TrimmedPieces(pieces[..i]) + [TrimSpace(pieces[i])]
    ensures TrimmedPieces(pieces[..i + 1]) <= TrimmedPieces(pieces)
  {
    SplitOneMore(pieces, i);
    TrimmedPiecesOneMore(pieces[..i], pieces[i], pieces[i + 1..]);
  }

  /** The names a comma-separated column holds. */
  function Names(column: string, sep: char): seq<string> {
    TrimmedPieces(Split(column, sep))
  }

  /** Names are clean and hold no separator. */
  lemma NamesAreClean(column: string, sep: char)
    ensures forall m :: m in Names(column, sep) ==> Clean(m) && sep !in m
  {
    var pieces := Split(column, sep);
    PiecesHoldNoSeparator(column, sep);
    TrimmedPiecesClean(pieces);
    forall m | m in Names(column, sep) ensures sep !in m {
      TrimmedPiecesMember(pieces, m);
      var i :| 0 <= i < |pieces| && TrimSpace(pieces[i]) == m;
      assert pieces[i] in pieces;
      TrimSpaceClean(pieces[i]);
    }
  }

  /** Clean names without the separator survive being joined and read back, the empty list included. */
  lemma NamesOfJoin(parts: seq<string>, sep: char)
    requires forall p :: p in parts ==> Clean(p) && sep !in p
    ensures Names(Join(parts, sep), sep) == parts
  {
    SplitJoin(parts, sep);
    if parts == [] {
      assert TrimSpace("") == "";
      assert TrimmedPieces([""]) == [] + TrimmedPieces([""][1..]);
    } else {
      TrimmedPiecesOfClean(parts);
    }
  }

  predicate HasPrefix(s: string, prefix: string) {
    prefix <= s
  }

  predicate OccursAt(s: string, key: string, i: nat) {
    i + |key| <= |s| && s[i..i + |key|] == key
  }

  ghost predicate Occurs(s: string, key: string) {
    exists i: nat :: OccursAt(s, key, i)
  }

  /** strings.Index: the first place at or after `from` where the key stands. */
  function IndexFrom(s: string, key: string, from: nat): (r: Option<nat>)
    ensures r.Some? ==> from <= r.value && OccursAt(s, key, r.value)
    ensures r.Some? ==> forall i: nat :: from <= i < r.value ==> !OccursAt(s, key, i)
    ensures r.None? ==> forall i: nat :: from <= i ==> !OccursAt(s, key, i)
    decreases |s| - from
  {
    if from + |key| > |s| then None
    else if OccursAt(s, key, from) then Some(from)
    else IndexFrom(s, key, from + 1)
  }

  function Index(s: string, key: string): Option<nat> {
    IndexFrom(s, key, 0)
  }
}
