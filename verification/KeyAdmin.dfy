/** Administration of a multi-key channel: import, toggles, compaction (model/channel.go, controller/channel.go). */
module KeyAdmin {
  import opened Text
  import opened Sequences
  import opened KeyText
  import G = Gateway

  const OVERRIDE := 0
  const APPEND := 1

  datatype DisableNote = DisableNote(reason: string, time: int, statusCode: int, model: string)

  datatype KeyMetadata = KeyMetadata(importBatch: string, usage: int, lastUsed: int, note: string,
                                     disabled: Option<DisableNote>)

  /** MultiKeyInfo: status and metadata are addressed by the index of a key; no status means enabled. */
  datatype KeyInfo = KeyInfo(
    isMultiKey: bool, keyCount: int, selectionMode: int, pollingIndex: int,
    keyStatusList: map<int, int>, keyMetadata: map<int, KeyMetadata>, batchImportMode: int)

  function KeyStatus(info: KeyInfo, i: int): int {
    if i in info.keyStatusList then info.keyStatusList[i] else G.ENABLED
  }

  function Metadata(info: KeyInfo, i: int): Option<KeyMetadata> {
    if i in info.keyMetadata then Some(info.keyMetadata[i]) else None
  }

  /** A key together with what its index leads to. */
  datatype Slot = Slot(key: string, status: int, metadata: Option<KeyMetadata>)

  function SlotsOf(keys: seq<string>, info: KeyInfo): (slots: seq<Slot>)
    ensures |slots| == |keys|
    ensures forall i :: 0 <= i < |keys| ==> slots[i] == Slot(keys[i], KeyStatus(info, i), Metadata(info, i))
  {
    seq(|keys|, i requires 0 <= i < |keys| => Slot(keys[i], KeyStatus(info, i), Metadata(info, i)))
  }

  predicate IndicesInRange(info: KeyInfo, n: nat) {
    && (forall i :: i in info.keyStatusList ==> 0 <= i < n)
    && (forall i :: i in info.keyMetadata ==> 0 <= i < n)
  }

  function FreshMetadata(batch: string): KeyMetadata {
    KeyMetadata(batch, 0, 0, "", None)
  }

  function FreshSlots(keys: seq<string>, batch: string): (slots: seq<Slot>)
    ensures |slots| == |keys|
    ensures forall i :: 0 <= i < |keys| ==> slots[i] == Slot(keys[i], G.ENABLED, Some(FreshMetadata(batch)))
  {
    seq(|keys|, i requires 0 <= i < |keys| => Slot(keys[i], G.ENABLED, Some(FreshMetadata(batch))))
  }

  /** The slots of new keys from index `start` on: what the information already says of their indices, and fresh
      metadata where it has none. */
  function NewSlots(keys: seq<string>, start: nat, info: KeyInfo, batch: string): (slots: seq<Slot>)
    ensures |slots| == |keys|
    ensures forall i :: 0 <= i < |keys| ==> slots[i] == NewSlot(keys[i], start + i, info, batch)
  {
    seq(|keys|, i requires 0 <= i < |keys| => NewSlot(keys[i], start + i, info, batch))
  }

  function NewSlot(key: string, i: int, info: KeyInfo, batch: string): Slot {
    Slot(key, KeyStatus(info, i), Some(if i in info.keyMetadata then info.keyMetadata[i] else FreshMetadata(batch)))
  }

  function Cleared(info: KeyInfo): KeyInfo {
    info.(keyStatusList := map[], keyMetadata := map[])
  }

  function EnabledSlot(): Slot -> bool {
    (s: Slot) => s.status == G.ENABLED
  }

  function ToggledTo(enabled: bool): int {
    if enabled then G.ENABLED else G.MANUALLY_DISABLED
  }

  /** The slots whose index is in `at`, switched on or off. */
  function Toggled(slots: seq<Slot>, at: set<int>, enabled: bool): (r: seq<Slot>)
    ensures |r| == |slots|
    ensures forall i ::
              0 <= i < |slots| ==>
                r[i] == if i in at then slots[i].(status := ToggledTo(enabled)) else slots[i]
  {
    seq(|slots|, i requires 0 <= i < |slots| => if i in at then slots[i].(status := ToggledTo(enabled)) else slots[i])
  }

  /** The database row of the channel. */
  datatype Row = Row(key: string, status: int, info: KeyInfo)

  function Without(m: map<int, int>, i: int): map<int, int> {
    m - {i}
  }

  /** Update: the struct update skips zero values, and the channel is read again afterwards. */
  function Updated(was: Row, now: Row): Row {
    Row(if now.key == "" then was.key else now.key,
        if now.status == G.UNKNOWN then was.status else now.status, now.info)
  }

  function KeysIn(slots: seq<Slot>): (keys: seq<string>)
    ensures |keys| == |slots| && forall i :: 0 <= i < |slots| ==> keys[i] == slots[i].key
  {
    seq(|slots|, i requires 0 <= i < |slots| => slots[i].key)
  }

  /** The aggregate status that checkAndUpdateChannelStatus leaves. */
  function CheckedStatus(info: KeyInfo, slots: seq<Slot>, status: int): int {
    if info.isMultiKey && AllDisabled(slots) then G.AUTO_DISABLED else status
  }

  class KeyChannel {
    const vertex: bool
    const decode: Decoder
    var key: string
    var status: int
    var info: KeyInfo
    var saved: Row

    constructor (vertex: bool, decode: Decoder, row: Row)
      ensures this.vertex == vertex && this.decode == decode && Now() == row == saved
    {
      this.vertex, this.decode := vertex, decode;
      key, status, info, saved := row.key, row.status, row.info, row;
    }

    function Now(): Row
      reads this
    {
      Row(key, status, info)
    }

    function Keys(): seq<string>
      reads this
    {
      ParseKeys(vertex, decode, key)
    }

    /** The abstract value: each key with its status and metadata, in order. */
    function Slots(): seq<Slot>
      reads this
    {
      SlotsOf(Keys(), info)
    }

    /** No index points outside the key list. */
    ghost predicate Valid()
      reads this
    {
      IndicesInRange(info, |Keys()|)
    }

    /** checkAndUpdateChannelStatus: with every key disabled the channel is auto-disabled; `notified`
        when that is news. It is never enabled again here. */
    method CheckAndUpdateChannelStatus() returns (notified: bool)
      modifies this`status
      ensures status == CheckedStatus(info, Slots(), old(status))
      ensures notified == (info.isMultiKey && Keys() != [] && AllDisabled(Slots()) && old(status) != G.AUTO_DISABLED)
    {
      notified := false;
      if !info.isMultiKey {
        return;
      }
      var keys := Keys();
      if |keys| == 0 {
        status := G.AUTO_DISABLED;
        return;
      }
      var enabledCount := CountEnabled(keys, info);
      if enabledCount == 0 {
        notified := status != G.AUTO_DISABLED;
        status := G.AUTO_DISABLED;
      }
    }

    method Update()
      modifies this
      ensures saved == Updated(old(saved), old(Now())) == Now()
    {
      saved := Row(if key == "" then saved.key else key, if status == G.UNKNOWN then saved.status else status, info);
      key, status := saved.key, saved.status;
    }

    /** BatchImportKeys: append leaves the old slots untouched, override starts afresh; the new keys follow in
        order, with what the information says of their indices. That is so exactly when the joined text reads
        back; the new keys are enabled and fresh when no index was out of range. */
    method BatchImportKeys(newKeys: seq<string>, mode: int, batch: string) returns (ok: bool)
      modifies this
      ensures ok <==> newKeys != [] && mode in {OVERRIDE, APPEND}
      ensures !ok ==> Now() == old(Now()) && saved == old(saved)
      ensures ok ==>
                var kept := if mode == APPEND then old(Slots()) else [];
                var base := if mode == APPEND then old(info) else Cleared(old(info));
                var finalKeys := KeysIn(kept) + newKeys;
                var slots := kept + NewSlots(newKeys, |kept|, base, batch);
                && Now() == saved == Updated(old(saved), Row(Join(finalKeys, '\n'), old(status), info))
                && info.keyCount == |finalKeys| && info.isMultiKey == (|finalKeys| > 1)
                && SlotsOf(finalKeys, info) == slots
                && (Keys() == finalKeys <==> Slots() == slots)
                && (ReadsBack(vertex, decode, finalKeys) ==> Keys() == finalKeys)
                && (IndicesInRange(base, |kept|) ==>
                      NewSlots(newKeys, |kept|, base, batch) == FreshSlots(newKeys, batch)
                      && (Keys() == finalKeys ==> Valid()))
    {
      if |newKeys| == 0 || (mode != OVERRIDE && mode != APPEND) {
        return false;
      }
      ghost var kept := if mode == APPEND then Slots() else [];
      var existing: seq<string> := [];
      if mode == OVERRIDE {
        info := info.(keyStatusList := map[], keyMetadata := map[]);
      } else {
        existing := Keys();
      }
      ghost var base := info;
      assert KeysIn(kept) == existing && SlotsOf(existing, info) == kept;
      NewSlotsAreFresh(newKeys, |kept|, base, batch);
      var finalKeys := existing + newKeys;
      key := Join(finalKeys, '\n');
      info := ImportedInfo(existing, newKeys, info, mode, batch);
      Update();
      SlotsTellKeys(Keys(), finalKeys, info);
      StoredIsRead(vertex, decode, finalKeys);
      ok := true;
    }

    /** BatchToggleKeyStatus: out-of-range indices are skipped. Only the key information is saved: a
        channel status changed here stays in memory. */
    method BatchToggleKeyStatus(indices: seq<int>, enabled: bool) returns (notified: bool)
      modifies this
      ensures key == old(key) && (old(Valid()) ==> Valid())
      ensures Slots() == Toggled(old(Slots()), Elements(indices), enabled)
      ensures status == CheckedStatus(info, Slots(), old(status))
      ensures info.isMultiKey == old(info).isMultiKey && saved == old(saved).(info := info)
    {
      info := ToggledInfo(info, Keys(), indices, enabled);
      notified := CheckAndUpdateChannelStatus();
      saved := saved.(info := info);
    }

    method ToggleKeyStatus(keyIndex: int, enabled: bool) returns (ok: bool)
      modifies this
      ensures key == old(key) && (old(Valid()) ==> Valid())
      ensures ok <==> 0 <= keyIndex < |old(Slots())|
      ensures Slots() == if ok then Toggled(old(Slots()), {keyIndex}, enabled) else old(Slots())
      ensures saved == if ok then old(saved).(info := info) else old(saved)
      ensures status == if ok then CheckedStatus(info, Slots(), old(status)) else old(status)
    {
      if keyIndex < 0 || keyIndex >= |Keys()| {
        return false;
      }
      assert Elements([keyIndex]) == {keyIndex};
      var notified := BatchToggleKeyStatus([keyIndex], enabled);
      ok := true;
    }

    /** ToggleKeysByBatch: the keys whose metadata names the import batch. */
    method ToggleKeysByBatch(batch: string, enabled: bool) returns (ok: bool)
      modifies this
      ensures key == old(key) && (old(Valid()) ==> Valid())
      ensures Slots() == Toggled(old(Slots()), InBatch(old(info).keyMetadata, batch), enabled)
      ensures ok <==> InBatch(old(info).keyMetadata, batch) != {}
    {
      var targets := CollectBatch(info.keyMetadata, batch);
      if |targets| == 0 {
        assert Slots() == Toggled(Slots(), {}, enabled);
        return false;
      }
      assert targets[0] in InBatch(info.keyMetadata, batch);
      var notified := BatchToggleKeyStatus(targets, enabled);
      ok := true;
    }

    /** DeleteDisabledKeys: exactly the enabled keys stay, in order, each with its own metadata, when their
        joined text reads back. When none stays the update skips the empty text: the stored keys come back. */
    method DeleteDisabledKeys() returns (ok: bool)
      modifies this
      ensures ok == old(info).isMultiKey
      ensures !ok || old(Slots()) == [] ==> Now() == old(Now()) && saved == old(saved)
      ensures ok && old(Slots()) != [] ==>
                var kept := Keep(old(Slots()), EnabledSlot());
                var text := Join(KeysIn(kept), '\n');
                var checked := if ParseKeys(vertex, decode, text) == [] then G.AUTO_DISABLED else old(status);
                && Now() == saved == Updated(old(saved), Row(text, checked, info))
                && info.keyCount == |kept| && info.keyStatusList == map[] && SlotsOf(KeysIn(kept), info) == kept
                && (Keys() == KeysIn(kept) <==> Slots() == kept)
                && (text != "" && ReadsBack(vertex, decode, KeysIn(kept)) ==> Keys() == KeysIn(kept) && Valid())
    {
      if !info.isMultiKey {
        return false;
      }
      var keys := Keys();
      if |keys| == 0 {
        return true;
      }
      ghost var kept := Keep(Slots(), EnabledSlot());
      var keptKeys, keptMetadata := CompactKeys(keys, info);
      key := Join(keptKeys, '\n');
      info := info.(keyCount := |keptKeys|, keyMetadata := keptMetadata, keyStatusList := map[], pollingIndex := 0);
      AllEnabled(Keys(), info);
      assert KeysIn(kept) == keptKeys;
      var notified := CheckAndUpdateChannelStatus();
      Update();
      SlotsTellKeys(Keys(), keptKeys, info);
      ok := true;
    }

    /** updateMultiKeyChannel with the new keys already parsed; a mode other than 0 and 1 means the stored one. */
    method UpdateKeys(newKeys: seq<string>, mode: int, batch: string)
      modifies this`key, this`info
      ensures newKeys == [] ==> Slots() == old(Slots()) && key == old(key)
      ensures newKeys != [] ==>
                var kept := if EffectiveMode(mode, old(info)) == OVERRIDE then [] else old(Slots());
                var finalKeys := KeysIn(kept) + newKeys;
                && key == Join(finalKeys, '\n') && info.keyCount == |finalKeys|
                && SlotsOf(finalKeys, info) == kept + FreshSlots(newKeys, batch)
                && (ReadsBack(vertex, decode, finalKeys) <==> Slots() == kept + FreshSlots(newKeys, batch))
                && (EffectiveMode(mode, old(info)) == OVERRIDE || old(Valid()) ==>
                      ReadsBack(vertex, decode, finalKeys) ==> Valid())
    {
      var batchImportMode := EffectiveMode(mode, info);
      info := info.(batchImportMode := batchImportMode);
      assert Slots() == old(Slots());
      if |newKeys| == 0 {
        return;
      }
      if batchImportMode == OVERRIDE {
        info := info.(keyStatusList := map[], keyMetadata := map[]);
        ReplaceKeys([], newKeys, batch);
        assert KeysIn([]) == [];
      } else {
        var kept := Keys();
        assert KeysIn(Slots()) == kept;
        ReplaceKeys(kept, newKeys, batch);
      }
    }

    /** The keys to keep followed by the new ones, and initializeKeyStatus for the latter. */
    method ReplaceKeys(kept: seq<string>, newKeys: seq<string>, batch: string)
      modifies this`key, this`info
      ensures key == Join(kept + newKeys, '\n') && info.keyCount == |kept + newKeys|
      ensures SlotsOf(kept + newKeys, info) == old(SlotsOf(kept, info)) + FreshSlots(newKeys, batch)
      ensures IndicesInRange(old(info), |kept|) ==> IndicesInRange(info, |kept + newKeys|)
      ensures ReadsBack(vertex, decode, kept + newKeys)
              <==> Slots() == old(SlotsOf(kept, info)) + FreshSlots(newKeys, batch)
    {
      key := Join(kept + newKeys, '\n');
      var statuses, metadata := InitializeKeyStatus(info, |kept|, |newKeys|, batch);
      var after := info.(keyStatusList := statuses, keyMetadata := metadata);
      GrownSlots(kept, newKeys, batch, info, after);
      info := after.(keyCount := |kept + newKeys|);
      assert SlotsOf(kept + newKeys, info) == SlotsOf(kept + newKeys, after);
      SlotsTellKeys(Keys(), kept + newKeys, info);
    }
  }

  /** Slots with the same information are equal exactly when their keys are. */
  lemma SlotsTellKeys(keys: seq<string>, other: seq<string>, info: KeyInfo)
    ensures SlotsOf(keys, info) == SlotsOf(other, info) <==> keys == other
    ensures KeysIn(SlotsOf(keys, info)) == keys
  {
    if SlotsOf(keys, info) == SlotsOf(other, info) {
      assert KeysIn(SlotsOf(keys, info)) == keys && KeysIn(SlotsOf(other, info)) == other;
    }
  }

  /** A list that reads back has a text, unless it is empty. */
  lemma StoredIsRead(vertex: bool, decode: Decoder, keys: seq<string>)
    requires keys != []
    ensures Join(keys, '\n') == "" ==> !ReadsBack(vertex, decode, keys)
  {
  }

  lemma AllEnabled(keys: seq<string>, info: KeyInfo)
    requires info.keyStatusList == map[]
    ensures AllDisabled(SlotsOf(keys, info)) <==> keys == []
  {
    assert keys != [] ==> SlotsOf(keys, info)[0].status == G.ENABLED;
  }

  function EffectiveMode(mode: int, info: KeyInfo): int {
    if mode != OVERRIDE && mode != APPEND then info.batchImportMode else mode
  }

  /** A check takes a multi-key channel down exactly when it has no enabled key, and never does anything else. */
  lemma CheckTakesDownIff(info: KeyInfo, slots: seq<Slot>, was: int)
    ensures CheckedStatus(info, slots, was)
         == if info.isMultiKey && forall i :: 0 <= i < |slots| ==> slots[i].status != G.ENABLED
            then G.AUTO_DISABLED else was
  {
  }

  // ---------- loops over keys ----------

  method CountEnabled(keys: seq<string>, info: KeyInfo) returns (enabledCount: nat)
    ensures enabledCount == 0 <==> AllDisabled(SlotsOf(keys, info))
  {
    enabledCount := 0;
    for i := 0 to |keys|
      invariant enabledCount == 0 <==> forall j :: 0 <= j < i ==> KeyStatus(info, j) != G.ENABLED
    {
      if KeyStatus(info, i) == G.ENABLED {
        enabledCount := enabledCount + 1;
      }
    }
    assert forall i :: 0 <= i < |keys| ==> SlotsOf(keys, info)[i].status == KeyStatus(info, i);
  }

  /** The key information after an import of these new keys behind these existing ones. */
  method ImportedInfo(existing: seq<string>, newKeys: seq<string>, info: KeyInfo, mode: int, batch: string)
    returns (after: KeyInfo)
    ensures after.isMultiKey == (|existing + newKeys| > 1) && after.keyCount == |existing + newKeys|
    ensures SlotsOf(existing + newKeys, after)
         == SlotsOf(existing, info) + NewSlots(newKeys, |existing|, info, batch)
    ensures IndicesInRange(info, |existing|) ==> IndicesInRange(after, |existing + newKeys|)
  {
    var count := |existing + newKeys|;
    var metadata := InitializeMetadata(info.keyMetadata, count - |newKeys|, |newKeys|, batch);
    after := info.(isMultiKey := count > 1, keyCount := count, batchImportMode := mode, keyMetadata := metadata);
    ImportedSlots(existing, newKeys, batch, info, after);
  }

  /** The loop over the indices to toggle. */
  method ToggledInfo(info: KeyInfo, keys: seq<string>, indices: seq<int>, enabled: bool) returns (after: KeyInfo)
    ensures after.isMultiKey == info.isMultiKey && (IndicesInRange(info, |keys|) ==> IndicesInRange(after, |keys|))
    ensures SlotsOf(keys, after) == Toggled(SlotsOf(keys, info), Elements(indices), enabled)
  {
    after := info;
    for k := 0 to |indices|
      invariant after == info.(keyStatusList := after.keyStatusList)
      invariant IndicesInRange(info, |keys|) ==> IndicesInRange(after, |keys|)
      invariant forall i :: 0 <= i < |keys| ==>
                  KeyStatus(after, i) == if i in indices[..k] then ToggledTo(enabled) else KeyStatus(info, i)
    {
      var keyIndex := indices[k];
      assert indices[..k + 1] == indices[..k] + [keyIndex];
      if keyIndex < 0 || keyIndex >= |keys| {
        continue;
      }
      if enabled {
        after := after.(keyStatusList := Without(after.keyStatusList, keyIndex));
      } else {
        after := after.(keyStatusList := after.keyStatusList[keyIndex := G.MANUALLY_DISABLED]);
      }
    }
    assert indices[..|indices|] == indices;
  }

  /** Metadata for `count` new keys, unless their index has some. */
  method InitializeMetadata(metadata: map<int, KeyMetadata>, startIndex: int, count: nat, batch: string)
    returns (m: map<int, KeyMetadata>)
    ensures forall j :: j in m <==> j in metadata || startIndex <= j < startIndex + count
    ensures forall j :: j in m ==> m[j] == if j in metadata then metadata[j] else FreshMetadata(batch)
  {
    m := metadata;
    for i := 0 to count
      invariant forall j :: j in m <==> j in metadata || startIndex <= j < startIndex + i
      invariant forall j :: j in m ==> m[j] == if j in metadata then metadata[j] else FreshMetadata(batch)
    {
      if startIndex + i !in m {
        m := m[startIndex + i := FreshMetadata(batch)];
      }
    }
  }

  /** initializeKeyStatus: explicit status and metadata for `count` new keys. */
  method InitializeKeyStatus(info: KeyInfo, startIndex: int, count: nat, batch: string)
    returns (statuses: map<int, int>, metadata: map<int, KeyMetadata>)
    ensures forall j :: j in statuses <==> j in info.keyStatusList || startIndex <= j < startIndex + count
    ensures forall j ::
              j in statuses ==>
                statuses[j] == if startIndex <= j < startIndex + count then G.ENABLED else info.keyStatusList[j]
    ensures forall j :: j in metadata <==> j in info.keyMetadata || startIndex <= j < startIndex + count
    ensures forall j :: j in metadata ==>
              metadata[j]
                == if startIndex <= j < startIndex + count then FreshMetadata(batch) else info.keyMetadata[j]
  {
    statuses, metadata := info.keyStatusList, info.keyMetadata;
    for i := 0 to count
      invariant forall j :: j in statuses <==> j in info.keyStatusList || startIndex <= j < startIndex + i
      invariant forall j ::
                  j in statuses ==>
                    statuses[j] == if startIndex <= j < startIndex + i then G.ENABLED else info.keyStatusList[j]
      invariant forall j :: j in metadata <==> j in info.keyMetadata || startIndex <= j < startIndex + i
      invariant forall j :: j in metadata ==>
                  metadata[j]
                    == if startIndex <= j < startIndex + i then FreshMetadata(batch) else info.keyMetadata[j]
    {
      statuses := statuses[startIndex + i := G.ENABLED];
      metadata := metadata[startIndex + i := FreshMetadata(batch)];
    }
  }

  /** Imported keys take what the information has for their indices, and fresh metadata. */
  lemma ImportedSlots(existing: seq<string>, newKeys: seq<string>, batch: string, before: KeyInfo, after: KeyInfo)
    requires forall j :: j in after.keyMetadata <==> j in before.keyMetadata || |existing| <= j < |existing| + |newKeys|
    requires forall j :: j in after.keyMetadata ==>
               after.keyMetadata[j] == if j in before.keyMetadata then before.keyMetadata[j] else FreshMetadata(batch)
    requires after.keyStatusList == before.keyStatusList
    ensures SlotsOf(existing + newKeys, after)
         == SlotsOf(existing, before) + NewSlots(newKeys, |existing|, before, batch)
    ensures IndicesInRange(before, |existing|) ==> IndicesInRange(after, |existing| + |newKeys|)
  {
  }

  /** That is what fresh keys have, when no index was out of range; in general exactly when what is found there is
      what a fresh key would get. */
  lemma NewSlotsAreFresh(newKeys: seq<string>, start: nat, info: KeyInfo, batch: string)
    ensures IndicesInRange(info, start) ==> NewSlots(newKeys, start, info, batch) == FreshSlots(newKeys, batch)
    ensures NewSlots(newKeys, start, info, batch) == FreshSlots(newKeys, batch)
       <==> forall i {:trigger KeyStatus(info, i)} :: start <= i < start + |newKeys| ==>
              && KeyStatus(info, i) == G.ENABLED
              && (i in info.keyMetadata ==> info.keyMetadata[i] == FreshMetadata(batch))
  {
    var slots, expected := NewSlots(newKeys, start, info, batch), FreshSlots(newKeys, batch);
    if slots == expected {
      forall i | start <= i < start + |newKeys|
        ensures KeyStatus(info, i) == G.ENABLED
             && (i in info.keyMetadata ==> info.keyMetadata[i] == FreshMetadata(batch))
      {
        assert slots[i - start] == expected[i - start];
      }
    }
  }

  /** A status or metadata left behind at an index beyond the keys passes to the key that is appended there: after
      an import of "a", "" and "b", which is read back as two keys, "c" gets the third one's metadata. */
  lemma AppendInheritsMetadata(decode: Decoder)
    ensures ParseKeys(false, decode, "a\n\nb") == ["a", "b"] && Join(["a", "", "b"], '\n') == "a\n\nb"
    ensures var left := KeyInfo(true, 3, 0, 0, map[], map[0 := FreshMetadata("old"), 1 := FreshMetadata("old"),
                                                          2 := FreshMetadata("old")], 0);
            NewSlots(["c"], 2, left, "new") == [Slot("c", G.ENABLED, Some(FreshMetadata("old")))]
  {
    BlankLineIsSkipped(decode);
  }

  lemma BlankLineIsSkipped(decode: Decoder)
    ensures ParseKeys(false, decode, "a\n\nb") == ["a", "b"] && Join(["a", "", "b"], '\n') == "a\n\nb"
  {
    var text := "a\n\nb";
    TrimSpaceClean(text);
    ThreePieces("a", "", "b");
    SplitJoin(["a", "", "b"], '\n');
    assert "a" + ['\n'] + ("" + ['\n'] + "b") == text;
  }

  lemma ThreePieces(a: string, b: string, c: string)
    requires Clean(a) && b == "" && Clean(c)
    ensures TrimmedPieces([a, b, c]) == [a, c] && Join([a, b, c], '\n') == a + ['\n'] + (b + ['\n'] + c)
  {
    var all, two, one := [a, b, c], [b, c], [c];
    TrimSpaceClean(a);
    TrimSpaceClean(c);
    assert TrimSpace(b) == "";
    assert all[1..] == two && two[1..] == one && one[1..] == [];
    assert two[0] == b && TrimmedPieces(one) == [c] + [];
    assert TrimmedPieces(two) == [] + TrimmedPieces(one);
    assert Join(two, '\n') == b + ['\n'] + c;
  }

  /** Keys appended with explicit status and metadata are fresh in any case. */
  lemma GrownSlots(existing: seq<string>, newKeys: seq<string>, batch: string, before: KeyInfo, after: KeyInfo)
    requires forall j :: 0 <= j < |existing| ==>
               KeyStatus(after, j) == KeyStatus(before, j) && Metadata(after, j) == Metadata(before, j)
    requires forall j :: |existing| <= j < |existing| + |newKeys| ==>
               KeyStatus(after, j) == G.ENABLED && Metadata(after, j) == Some(FreshMetadata(batch))
    ensures SlotsOf(existing + newKeys, after) == SlotsOf(existing, before) + FreshSlots(newKeys, batch)
  {
  }

  /** The loop of DeleteDisabledKeys. */
  method CompactKeys(keys: seq<string>, info: KeyInfo)
    returns (keptKeys: seq<string>, keptMetadata: map<int, KeyMetadata>)
    ensures SlotsOf(keptKeys, info.(keyStatusList := map[], keyMetadata := keptMetadata))
            == Keep(SlotsOf(keys, info), EnabledSlot())
    ensures forall j :: j in keptMetadata ==> 0 <= j < |keptKeys|
  {
    ghost var slots := SlotsOf(keys, info);
    keptKeys, keptMetadata := [], map[];
    var newIndex := 0;
    for i := 0 to |keys|
      invariant newIndex == |keptKeys|
      invariant forall j :: j in keptMetadata ==> 0 <= j < |keptKeys|
      invariant SlotsOf(keptKeys, info.(keyStatusList := map[], keyMetadata := keptMetadata))
                == Keep(slots[..i], EnabledSlot())
    {
      KeepOneMore(slots, i);
      if KeyStatus(info, i) == G.ENABLED {
        AppendSlot(keptKeys, keptMetadata, info, keys[i], i);
        keptKeys := keptKeys + [keys[i]];
        if i in info.keyMetadata {
          keptMetadata := keptMetadata[newIndex := info.keyMetadata[i]];
        }
        newIndex := newIndex + 1;
      }
    }
    assert slots[..|keys|] == slots;
  }

  lemma KeepOneMore(slots: seq<Slot>, i: nat)
    requires i < |slots|
    ensures Keep(slots[..i + 1], EnabledSlot()) == Keep(slots[..i], EnabledSlot())
            + if slots[i].status == G.ENABLED then [slots[i]] else []
  {
    assert slots[..i + 1] == slots[..i] + [slots[i]];
    KeepAppend(slots[..i], [slots[i]], EnabledSlot());
    assert Keep([slots[i]][1..], EnabledSlot()) == [];
  }

  predicate AllDisabled(slots: seq<Slot>) {
    forall i :: 0 <= i < |slots| ==> slots[i].status != G.ENABLED
  }

  function InBatch(metadata: map<int, KeyMetadata>, batch: string): set<int> {
    set i | i in metadata && metadata[i].importBatch == batch
  }

  /** The indices of an import batch, in whatever order the map is walked. */
  method CollectBatch(metadata: map<int, KeyMetadata>, batch: string) returns (targets: seq<int>)
    ensures Elements(targets) == InBatch(metadata, batch)
  {
    var rest := metadata.Keys;
    targets := [];
    while rest != {}
      invariant rest <= metadata.Keys
      invariant Elements(targets) == InBatch(metadata, batch) - rest
      decreases rest
    {
      var index := AnyOf(rest);
      if metadata[index].importBatch == batch {
        ElementsOneMore(targets, index);
        targets := targets + [index];
      }
      rest := rest - {index};
    }
  }

  lemma AppendSlot(keptKeys: seq<string>, keptMetadata: map<int, KeyMetadata>, info: KeyInfo, key: string, i: int)
    requires forall j :: j in keptMetadata ==> 0 <= j < |keptKeys|
    requires KeyStatus(info, i) == G.ENABLED
    ensures SlotsOf(keptKeys + [key],
                    info.(keyStatusList := map[],
                          keyMetadata := if i in info.keyMetadata
                                         then keptMetadata[|keptKeys| := info.keyMetadata[i]] else keptMetadata))
         == SlotsOf(keptKeys, info.(keyStatusList := map[], keyMetadata := keptMetadata))
             + [Slot(key, KeyStatus(info, i), Metadata(info, i))]
  {
  }

  // ---------- what is not stored ----------

  /** Toggling stores the key information only. The status it leaves in memory is the stored one exactly when
      the channel has one key, or was auto-disabled already, or keeps an enabled key: one that is switched on,
      or is enabled and not named. */
  lemma ToggleKeepsStoredStatusIff(row: Row, keys: seq<string>, indices: seq<int>, enabled: bool)
    ensures CheckedStatus(row.info, Toggled(SlotsOf(keys, row.info), Elements(indices), enabled), row.status)
            == row.status
       <==> || !row.info.isMultiKey || row.status == G.AUTO_DISABLED
            || exists i :: 0 <= i < |keys| && if i in indices then enabled else KeyStatus(row.info, i) == G.ENABLED
  {
    var slots := Toggled(SlotsOf(keys, row.info), Elements(indices), enabled);
    forall i | 0 <= i < |keys|
      ensures slots[i].status == G.ENABLED <==> if i in indices then enabled else KeyStatus(row.info, i) == G.ENABLED
    {
    }
  }

  /** An enabled channel with two keys, both switched off: auto-disabled in memory, enabled in its row. */
  lemma TogglingBothKeysOff(decode: Decoder)
    ensures var row := Row("a\nb", G.ENABLED, KeyInfo(true, 2, 0, 0, map[], map[], 0));
            var keys := ParseKeys(false, decode, row.key);
            && keys == ["a", "b"]
            && CheckedStatus(row.info, Toggled(SlotsOf(keys, row.info), Elements([0, 1]), false), row.status)
                 == G.AUTO_DISABLED
  {
    var row := Row("a\nb", G.ENABLED, KeyInfo(true, 2, 0, 0, map[], map[], 0));
    TwoLines(decode);
    ToggleKeepsStoredStatusIff(row, ParseKeys(false, decode, row.key), [0, 1], false);
  }

  lemma TwoLines(decode: Decoder)
    ensures ParseKeys(false, decode, "a\nb") == ["a", "b"]
  {
    var keys := ["a", "b"];
    assert Join(keys, '\n') == "a\nb" by {
      assert keys[1..] == ["b"];
    }
    TrimSpaceClean("a\nb");
    LinesReadBackIff(decode, keys);
  }

  /** Deleting the disabled keys leaves exactly the enabled ones if and only if their text reads back, or it is
      empty, is thus not stored, and the stored keys are these already. */
  lemma DeletionKeepsEnabledIff(vertex: bool, decode: Decoder, row: Row, status: int, info: KeyInfo)
    requires var kept := Keep(SlotsOf(ParseKeys(vertex, decode, row.key), row.info), EnabledSlot());
             SlotsOf(KeysIn(kept), info) == kept
    ensures var keys := ParseKeys(vertex, decode, row.key);
            var kept := Keep(SlotsOf(keys, row.info), EnabledSlot());
            var text := Join(KeysIn(kept), '\n');
            var stored := Updated(row, Row(text, status, info));
            SlotsOf(ParseKeys(vertex, decode, stored.key), stored.info) == kept
            <==> if text != "" then ReadsBack(vertex, decode, KeysIn(kept)) else KeysIn(kept) == keys
  {
    var keys := ParseKeys(vertex, decode, row.key);
    var kept := Keep(SlotsOf(keys, row.info), EnabledSlot());
    var text := Join(KeysIn(kept), '\n');
    SlotsTellKeys(ParseKeys(vertex, decode, Updated(row, Row(text, status, info)).key), KeysIn(kept), info);
  }

  /** Deleting the disabled keys of a channel that has no enabled one: the empty text is not stored, the cleared
      statuses are, and every key is back and enabled. */
  lemma DeletingEveryKeyEnablesThem(vertex: bool, decode: Decoder, row: Row, status: int, info: KeyInfo)
    requires AllDisabled(SlotsOf(ParseKeys(vertex, decode, row.key), row.info)) && info.keyStatusList == map[]
    ensures var keys := ParseKeys(vertex, decode, row.key);
            var text := Join(KeysIn(Keep(SlotsOf(keys, row.info), EnabledSlot())), '\n');
            var stored := Updated(row, Row(text, status, info));
            ParseKeys(vertex, decode, stored.key) == keys && forall i :: KeyStatus(stored.info, i) == G.ENABLED
  {
    KeepNone(SlotsOf(ParseKeys(vertex, decode, row.key), row.info), EnabledSlot());
  }
}
