/** How the keys of a channel are stored as one text and read back (model/channel.go, common/utils.go). */
module KeyText {
  import opened Text

  // ---------- brace-balanced objects ----------

  /** The scan of ExtractJSONObjects: brace balance, start of the open object, objects found, and
      whether a character outside any object ended it. */
  datatype Scan = Scan(balance: nat, start: int, objects: seq<string>, stopped: bool)

  function ScanChar(sc: Scan, s: string, i: nat): Scan
    requires i < |s| && -1 <= sc.start <= i
  {
    if sc.stopped then sc
    else if s[i] == '{' then
      sc.(start := if sc.balance == 0 then i else sc.start, balance := sc.balance + 1)
    else if s[i] == '}' then
      if sc.balance == 0 then sc
      else if sc.balance == 1 && sc.start != -1
          then sc.(balance := 0, objects := sc.objects + [s[sc.start..i + 1]], start := -1)
      else sc.(balance := sc.balance - 1)
    else if sc.balance == 0 && sc.start == -1 && !IsSpace(s[i]) then sc.(stopped := true)
    else sc
  }

  function ScanUpTo(s: string, n: nat): (sc: Scan)
    requires n <= |s|
    ensures -1 <= sc.start <= n
  {
    if n == 0 then Scan(0, -1, [], false) else ScanChar(ScanUpTo(s, n - 1), s, n - 1)
  }

  function Objects(text: string): seq<string> {
    var s := TrimSpace(text);
    ScanUpTo(s, |s|).objects
  }

  method ExtractJSONObjects(text: string) returns (objects: seq<string>)
    ensures objects == Objects(text)
  {
    var s := TrimSpace(text);
    objects := [];
    var balance: nat, start := 0, -1;
    for i := 0 to |s|
      invariant ScanUpTo(s, i) == Scan(balance, start, objects, false)
    {
      var c := s[i];
      if c == '{' {
        if balance == 0 {
          start := i;
        }
        balance := balance + 1;
      } else if c == '}' {
        if balance > 0 {
          balance := balance - 1;
          if balance == 0 && start != -1 {
            objects := objects + [s[start..i + 1]];
            start := -1;
          }
        }
      } else if balance == 0 && start == -1 && !IsSpace(c) {
        StoppedStays(s, i + 1, |s|);
        return;
      }
    }
  }

  lemma {:induction false} StoppedStays(s: string, i: nat, n: nat)
    requires i <= n <= |s| && ScanUpTo(s, i).stopped
    ensures ScanUpTo(s, n) == ScanUpTo(s, i)
    decreases n - i
  {
    if i < n {
      StoppedStays(s, i, n - 1);
    }
  }

  /** The brace depth after a text that opens at depth 0, or -1 once it has closed before its end. */
  function Depth(k: string): int {
    if k == "" then 0
    else
      var before := Depth(k[..|k| - 1]);
      var c := k[|k| - 1];
      if before < 0 || (before == 0 && |k| > 1) then -1
      else if c == '{' then before + 1
      else if c == '}' then before - 1
      else if |k| == 1 then -1
      else before
  }

  function Open(k: string): nat {
    if Depth(k) >= 0 then Depth(k) else 0
  }

  /** A text that opens with a brace which closes at its very end. */
  predicate IsObject(k: string) {
    k != "" && Depth(k) == 0
  }

  lemma {:induction false} DepthOfPrefix(k: string, n: nat)
    requires n <= |k| && Depth(k) >= 0
    ensures Depth(k[..n]) >= 0
    ensures 0 < n < |k| ==> Depth(k[..n]) >= 1
    decreases |k| - n
  {
    if n < |k| {
      DepthOfPrefix(k, n + 1);
      assert k[..n + 1][..n] == k[..n];
    } else {
      assert k[..n] == k;
    }
  }

  lemma ObjectEnds(k: string)
    requires IsObject(k)
    ensures |k| >= 2 && k[0] == '{' && k[|k| - 1] == '}' && Clean(k)
  {
    DepthOfPrefix(k, 1);
    assert k[..1][..0] == "";
    assert k[..1] == [k[0]];
    if |k| > 1 {
      DepthOfPrefix(k, |k| - 1);
    }
  }

  /** Scanning an object that stands at position `at`, from a state between objects, adds just that object. */
  lemma {:induction false} ScanObject(s: string, at: nat, k: string, n: nat)
    requires at + |k| <= |s| && s[at..at + |k|] == k && IsObject(k) && 0 < n <= |k|
    requires var sc := ScanUpTo(s, at); sc.balance == 0 && sc.start == -1 && !sc.stopped
    ensures var sc := ScanUpTo(s, at);
            ScanUpTo(s, at + n)
                == if n < |k| then Scan(Open(k[..n]), at, sc.objects, false) else Scan(0, -1, sc.objects + [k], false)
  {
    ObjectEnds(k);
    assert s[at + n - 1] == k[n - 1];
    DepthOfPrefix(k, n);
    if n == 1 {
      assert k[..1][..0] == "";
    } else {
      ScanObject(s, at, k, n - 1);
      DepthOfPrefix(k, n - 1);
      assert k[..n][..n - 1] == k[..n - 1];
      if n == |k| {
        assert k[..n] == k;
      }
    }
  }

  lemma SliceFront(s: string, at: nat, k: string, tail: string)
    requires at <= |s| && s[at..] == k + tail
    ensures at + |k| <= |s| && s[at..at + |k|] == k && s[at + |k|..] == tail
  {
    assert |s| - at == |k| + |tail|;
    assert s[at..at + |k|] == s[at..][..|k|] == (k + tail)[..|k|];
    assert s[at + |k|..] == s[at..][|k|..] == (k + tail)[|k|..];
  }

  /** The first of several joined objects, and the newline after it. */
  lemma ScanFirst(s: string, at: nat, k: string, rest: string, found: seq<string>)
    requires at <= |s| && s[at..] == k + ['\n'] + rest && IsObject(k)
    requires ScanUpTo(s, at) == Scan(0, -1, found, false)
    ensures at + |k| + 1 <= |s| && s[at + |k| + 1..] == rest
    ensures ScanUpTo(s, at + |k| + 1) == Scan(0, -1, found + [k], false)
  {
    assert s[at..] == k + (['\n'] + rest);
    SliceFront(s, at, k, ['\n'] + rest);
    SliceFront(s, at + |k|, ['\n'], rest);
    assert s[at + |k|] == s[at + |k|..][0] == '\n';
    ScanObject(s, at, k, |k|);
  }

  lemma ScanLast(s: string, at: nat, key: string, found: seq<string>)
    requires at <= |s| && s[at..] == key && IsObject(key)
    requires ScanUpTo(s, at) == Scan(0, -1, found, false)
    ensures ScanUpTo(s, |s|) == Scan(0, -1, found + [key], false)
  {
    ObjectEnds(key);
    assert s[at..] == key + "";
    SliceFront(s, at, key, "");
    ScanObject(s, at, key, |key|);
  }

  /** Extraction gives back a list of objects joined by newlines. */
  lemma {:induction false} ScanJoined(s: string, at: nat, keys: seq<string>, found: seq<string>)
    requires at <= |s| && s[at..] == Join(keys, '\n')
    requires forall k :: k in keys ==> IsObject(k)
    requires ScanUpTo(s, at) == Scan(0, -1, found, false)
    ensures ScanUpTo(s, |s|) == Scan(0, -1, found + keys, false)
    decreases |keys|
  {
    if keys == [] {
      assert found + keys == found;
    } else if |keys| == 1 {
      ScanLast(s, at, keys[0], found);
      assert keys == [keys[0]];
    } else {
      ScanFirst(s, at, keys[0], Join(keys[1..], '\n'), found);
      ScanJoined(s, at + |keys[0]| + 1, keys[1..], found + [keys[0]]);
      assert found + [keys[0]] + keys[1..] == found + keys;
    }
  }

  lemma {:induction false} ScanOfPrefix(p: string, rest: string, n: nat)
    requires n <= |p|
    ensures ScanUpTo(p + rest, n) == ScanUpTo(p, n)
  {
    if n > 0 {
      ScanOfPrefix(p, rest, n - 1);
      var sc := ScanUpTo(p, n - 1);
      if sc.start >= 0 {
        assert (p + rest)[sc.start..n] == p[sc.start..n];
      }
    }
  }

  /** Any other text between objects ends the extraction: the objects before it are kept, what follows is not. */
  lemma TextEndsExtraction(keys: seq<string>, c: char, more: string)
    requires (forall k :: k in keys ==> IsObject(k)) && c != '{' && c != '}' && !IsSpace(c)
    ensures var s := Join(keys, '\n') + (['\n', c] + more); ScanUpTo(s, |s|).objects == keys
  {
    var p := Join(keys, '\n');
    var s, n := p + (['\n', c] + more), |p|;
    assert p[0..] == p && [] + keys == keys;
    ScanJoined(p, 0, keys, []);
    ScanOfPrefix(p, ['\n', c] + more, n);
    assert s[n] == '\n' && s[n + 1] == c;
    assert ScanUpTo(s, n + 1) == Scan(0, -1, keys, false);
    assert ScanUpTo(s, n + 2).stopped;
    StoppedStays(s, n + 2, |s|);
  }

  /** Everything the extraction returns is such an object. */
  lemma {:induction false} ExtractedAreObjects(s: string, n: nat)
    requires n <= |s|
    ensures var sc := ScanUpTo(s, n);
            && (forall k :: k in sc.objects ==> IsObject(k))
            && (sc.start == -1 <==> sc.balance == 0) && (sc.stopped ==> sc.start == -1)
            && (sc.start >= 0 ==> sc.start < n && Depth(s[sc.start..n]) == sc.balance)
  {
    if n > 0 {
      ExtractedAreObjects(s, n - 1);
      var sc := ScanUpTo(s, n - 1);
      if sc.start >= 0 {
        var open := s[sc.start..n];
        assert open[|open| - 1] == s[n - 1] && open[..|open| - 1] == s[sc.start..n - 1];
      } else {
        var open := s[n - 1..n];
        assert open[..|open| - 1] == "" && open[|open| - 1] == s[n - 1];
      }
    }
  }

  // ---------- storing and reading keys ----------

  /** The JSON decoding of a key array, which is tried on texts between square brackets. */
  type Decoder = string -> Option<seq<string>>

  /** A text between square brackets that decodes as an array of strings. */
  predicate IsArrayText(decode: Decoder, text: string) {
    text != "" && text[0] == '[' && text[|text| - 1] == ']' && decode(text).Some?
  }

  /** ParseKeys: objects for Vertex AI channels; otherwise a JSON array or one key a line. */
  function ParseKeys(vertex: bool, decode: Decoder, text: string): seq<string> {
    var trimmed := TrimSpace(text);
    if text == "" then []
    else if vertex then Objects(trimmed)
    else if IsArrayText(decode, trimmed) then decode(trimmed).value
    else Names(trimmed, '\n')
  }

  /** A key that fits on a line of its own. */
  predicate IsLine(key: string) {
    Clean(key) && '\n' !in key
  }

  lemma {:induction false} JoinEnds(keys: seq<string>)
    requires keys != [] && forall k :: k in keys ==> Clean(k)
    ensures Clean(Join(keys, '\n'))
  {
    assert Clean(keys[0]);
    if |keys| > 1 {
      forall k | k in keys[1..] ensures Clean(k) {
        assert k in keys;
      }
      JoinEnds(keys[1..]);
    }
  }

  /** The keys, joined for storage, are read back as they are. */
  predicate ReadsBack(vertex: bool, decode: Decoder, keys: seq<string>) {
    ParseKeys(vertex, decode, Join(keys, '\n')) == keys
  }

  /** Stored keys of a Vertex AI channel read back exactly when each is one brace-balanced object. */
  lemma ObjectsReadBackIff(decode: Decoder, keys: seq<string>)
    ensures ReadsBack(true, decode, keys) <==> forall k :: k in keys ==> IsObject(k)
  {
    var text := Join(keys, '\n');
    if forall k :: k in keys ==> IsObject(k) {
      if keys != [] {
        forall k | k in keys ensures Clean(k) {
          ObjectEnds(k);
        }
        JoinEnds(keys);
        TrimSpaceClean(text);
        assert text[0..] == text;
        ScanJoined(text, 0, keys, []);
        assert [] + keys == keys;
      }
    } else {
      ParsedKeysAreObjects(decode, text);
    }
  }

  /** Stored keys of any other channel read back exactly when the text is a JSON array that decodes to them, or
      is none and each key fits on a line. */
  lemma LinesReadBackIff(decode: Decoder, keys: seq<string>)
    ensures ReadsBack(false, decode, keys)
       <==> var text := TrimSpace(Join(keys, '\n'));
            if IsArrayText(decode, text) then decode(text).value == keys else forall k :: k in keys ==> IsLine(k)
  {
    var text := Join(keys, '\n');
    if IsArrayText(decode, TrimSpace(text)) {
      TrimSpaceClean(text);
    } else if forall k :: k in keys ==> IsLine(k) {
      if keys != [] {
        JoinEnds(keys);
        TrimSpaceClean(text);
        NamesOfJoin(keys, '\n');
      }
    } else {
      NamesAreClean(TrimSpace(text), '\n');
    }
  }

  /** What the controller makes of submitted keys: objects for Vertex AI channels, else one key a line, and never
      a JSON array. */
  function SubmittedKeys(vertex: bool, keyData: string): seq<string> {
    if vertex then Objects(keyData) else Names(keyData, '\n')
  }

  /** parseKeys of the controller. */
  method ParseSubmittedKeys(vertex: bool, keyData: string) returns (validKeys: seq<string>)
    ensures validKeys == SubmittedKeys(vertex, keyData)
  {
    var newKeys;
    if vertex {
      newKeys := ExtractJSONObjects(keyData);
    } else {
      newKeys := Split(keyData, '\n');
    }
    validKeys := [];
    for i := 0 to |newKeys|
      invariant validKeys == TrimmedPieces(newKeys[..i])
    {
      TrimmedPiecesStep(newKeys, i);
      var trimmed := TrimSpace(newKeys[i]);
      if trimmed != "" {
        validKeys := validKeys + [trimmed];
      }
    }
    assert newKeys[..|newKeys|] == newKeys;
    if vertex {
      ObjectsAreClean(keyData);
      TrimmedPiecesOfClean(newKeys);
    }
  }

  lemma ObjectsAreClean(text: string)
    ensures forall k :: k in Objects(text) ==> IsObject(k) && Clean(k)
  {
    var s := TrimSpace(text);
    ExtractedAreObjects(s, |s|);
    forall k | k in Objects(text) ensures Clean(k) {
      ObjectEnds(k);
    }
  }

  /** Submitted keys of a Vertex AI channel can be stored and read back; those of another channel can unless their
      text is a JSON array of other keys. */
  lemma SubmittedKeysReadBackIff(vertex: bool, decode: Decoder, keyData: string)
    ensures var keys := SubmittedKeys(vertex, keyData); var text := Join(keys, '\n');
            ReadsBack(vertex, decode, keys)
            <==> vertex || (IsArrayText(decode, TrimSpace(text)) ==> decode(TrimSpace(text)).value == keys)
  {
    var keys := SubmittedKeys(vertex, keyData);
    if vertex {
      ObjectsAreClean(keyData);
      ObjectsReadBackIff(decode, keys);
    } else {
      NamesAreClean(keyData, '\n');
      LinesReadBackIff(decode, keys);
    }
  }

  /** What is read from a Vertex AI channel are objects, so it can be stored again. */
  lemma ParsedKeysAreObjects(decode: Decoder, text: string)
    ensures forall k :: k in ParseKeys(true, decode, text) ==> IsObject(k)
  {
    var s := TrimSpace(TrimSpace(text));
    ExtractedAreObjects(s, |s|);
  }
}
