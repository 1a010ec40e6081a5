/** The key block of usr/auth.c in its own form: six slots that point into one block of
    characters, filled from the front. */
module KeyArenas {
  import opened CText
  import opened KeyBlocks

  datatype Slot = Slot(present: bool, processed: bool, valueSet: bool, start: nat)

  type Slots = s: seq<Slot> | |s| == 6 witness seq(6, _ => Slot(false, false, false, 0))

  const NoSlots: Slots := seq(6, _ => Slot(false, false, false, 0))

  ghost function Claimed(slots: Slots): set<Key> { set k: Key | slots[SlotOf(k)].valueSet }

  ghost function Processed(slots: Slots): set<Key> { set k: Key | slots[SlotOf(k)].processed }

  /** A text with its terminator, in the used part of the block. */
  ghost predicate Stored(block: seq<char>, used: nat, start: nat, text: CString) {
    && start + |text| + 1 <= used <= |block| && block[start + |text|] == '\0'
    && (forall i :: 0 <= i < |text| ==> block[start + i] == text[i])
  }

  ghost predicate Apart(start: nat, text: CString, start': nat, text': CString) {
    start + |text| + 1 <= start' || start' + |text'| + 1 <= start
  }

  /** The slots point at these texts, which do not overlap. */
  ghost predicate Layout(block: seq<char>, used: nat, slots: Slots, texts: map<Key, CString>) {
    && (forall k :: slots[SlotOf(k)].present <==> k in texts)
    && (forall k :: k in texts ==> slots[SlotOf(k)].valueSet && Stored(block, used, slots[SlotOf(k)].start, texts[k]))
    && (forall k, k' :: k in texts && k' in texts && k != k' ==>
          Apart(slots[SlotOf(k)].start, texts[k], slots[SlotOf(k')].start, texts[k']))
  }

  lemma DistinctSlots(k: Key, k': Key)
    ensures SlotOf(k) == SlotOf(k') <==> k == k'
  {
  }

  /** Flags may change as long as present slots stay claimed. */
  lemma LayoutFlags(block: seq<char>, used: nat, slots: Slots, texts: map<Key, CString>, k: Key, slot: Slot)
    requires Layout(block, used, slots, texts)
    requires var s := slots[SlotOf(k)]; slot.present == s.present && slot.start == s.start && (s.valueSet ==> slot.valueSet)
    ensures var s := slots[SlotOf(k) := slot];
            && Layout(block, used, s, texts)
            && Claimed(s) == (if slot.valueSet then Claimed(slots) + {k} else Claimed(slots))
            && (slot.processed == slots[SlotOf(k)].processed ==> Processed(s) == Processed(slots))
            && (slot.processed ==> Processed(s) == Processed(slots) + {k})
  {
    hide SlotOf, KeyOf;
    var s := slots[SlotOf(k) := slot];
    forall k' ensures s[SlotOf(k')] == (if k' == k then slot else slots[SlotOf(k')]) {
      DistinctSlots(k, k');
    }
  }

  lemma StoredKept(block: seq<char>, used: nat, block': seq<char>, used': nat, start: nat, text: CString)
    requires Stored(block, used, start, text)
    requires used <= used' <= |block'| && |block'| == |block| && block'[..used] == block[..used]
    ensures Stored(block', used', start, text) && start + |text| + 1 <= used
  {
    assert block'[..used][start + |text|] == block[..used][start + |text|];
    forall i | 0 <= i < |text| ensures block'[start + i] == text[i] {
      assert block'[..used][start + i] == block[..used][start + i];
    }
  }

  /** A text written behind the others joins them without touching them. */
  lemma LayoutExtended(block: seq<char>, used: nat, slots: Slots, texts: map<Key, CString>,
                       block': seq<char>, k: Key, text: CString, slot: Slot)
    requires Layout(block, used, slots, texts) && k !in texts
    requires |block'| == |block| && used <= |block| && block'[..used] == block[..used]
    requires Stored(block', used + |text| + 1, used, text)
    requires slot.present && slot.valueSet && slots[SlotOf(k)].valueSet && slot.start == used
    requires slot.processed == slots[SlotOf(k)].processed
    ensures var s := slots[SlotOf(k) := slot];
            && Layout(block', used + |text| + 1, s, texts[k := text])
            && Claimed(s) == Claimed(slots) && Processed(s) == Processed(slots)
  {
    hide SlotOf, KeyOf, Stored, Claimed, Processed;
    var s := slots[SlotOf(k) := slot];
    FlagsKept(slots, k, slot);
    StoredFits(block', used + |text| + 1, used, text);
    forall k' ensures s[SlotOf(k')] == (if k' == k then slot else slots[SlotOf(k')]) {
      DistinctSlots(k, k');
    }
    forall k' | k' in texts
      ensures Stored(block', used + |text| + 1, slots[SlotOf(k')].start, texts[k']) && slots[SlotOf(k')].start + |texts[k']| + 1 <= used
    {
      StoredKept(block, used, block', used + |text| + 1, slots[SlotOf(k')].start, texts[k']);
    }
  }

  lemma StoredFits(block: seq<char>, used: nat, start: nat, text: CString)
    requires Stored(block, used, start, text)
    ensures start + |text| + 1 <= used <= |block|
  {
  }

  lemma FlagsKept(slots: Slots, k: Key, slot: Slot)
    requires slot.valueSet == slots[SlotOf(k)].valueSet && slot.processed == slots[SlotOf(k)].processed
    ensures var s := slots[SlotOf(k) := slot]; Claimed(s) == Claimed(slots) && Processed(s) == Processed(slots)
  {
    hide SlotOf, KeyOf;
    var s := slots[SlotOf(k) := slot];
    forall k' ensures s[SlotOf(k')] == (if k' == k then slot else slots[SlotOf(k')]) {
      DistinctSlots(k, k');
    }
  }

  class KeyArena {
    const strBlock: array<char>
    var slots: Slots
    var blkLength: nat
    var transitBit: bool
    var dupSet: bool
    var strTooLong: bool
    var tooMuchData: bool
    ghost var texts: map<Key, CString>

    ghost predicate Valid()
      reads this, strBlock
    {
      && strBlock.Length == STR_BLOCK_MAX_LEN && blkLength <= STR_BLOCK_MAX_LEN
      && Layout(strBlock[..], blkLength, slots, texts)
    }

    ghost function View(): Block
      reads this
    {
      Block(transitBit, dupSet, strTooLong, tooMuchData, blkLength, texts, Claimed(slots), Processed(slots))
    }

    constructor ()
      ensures Valid() && View() == EmptyBlock && fresh(strBlock)
    {
      strBlock := new char[STR_BLOCK_MAX_LEN](_ => '\0');
      slots, blkLength := NoSlots, 0;
      transitBit, dupSet, strTooLong, tooMuchData := false, false, false, false;
      texts := map[];
    }

    /** acl_init_key_blk */
    method Clear()
      requires Valid()
      modifies this
      ensures Valid() && View() == EmptyBlock
    {
      slots, blkLength := NoSlots, 0;
      transitBit, dupSet, strTooLong, tooMuchData := false, false, false, false;
      texts := map[];
    }

    method SetTransitBit(on: bool)
      requires Valid()
      modifies this
      ensures Valid() && View() == old(View()).(transitBit := on)
    {
      transitBit := on;
    }

    /** acl_set_key_value */
    method SetKeyValue(k: Key, text: Option<CString>)
      requires Valid()
      modifies this, strBlock
      ensures Valid() && View() == old(View()).Set(k, text)
    {
      hide Layout, Claimed, Processed, Stored;
      var i := SlotOf(k);
      ClaimedAt(slots, k);
      if slots[i].valueSet {
        dupSet := true;
        return;
      }
      UnclaimedAbsent(strBlock[..], blkLength, slots, texts, k);
      LayoutFlags(strBlock[..], blkLength, slots, texts, k, slots[i].(valueSet := true));
      slots := slots[i := slots[i].(valueSet := true)];
      if text.None? {
        return;
      }
      if |text.value| >= STR_MAX_LEN {
        strTooLong := true;
        return;
      }
      var length := |text.value| + 1;
      if blkLength + length > STR_BLOCK_MAX_LEN {
        tooMuchData := true;
        return;
      }
      StoreText(k, text.value);
    }

    /** The text goes behind the used part, and its slot points there. */
    method StoreText(k: Key, text: CString)
      requires Valid() && slots[SlotOf(k)].valueSet && k !in texts && blkLength + |text| + 1 <= STR_BLOCK_MAX_LEN
      modifies this, strBlock
      ensures Valid()
      ensures var b := old(View()); View() == b.(values := b.values[k := text], blkLength := b.blkLength + |text| + 1)
    {
      hide Layout, Claimed, Processed, Stored, SlotOf;
      ghost var before := strBlock[..];
      var i := SlotOf(k);
      CopyText(text);
      LayoutExtended(before, blkLength, slots, texts, strBlock[..], k, text, slots[i].(start := blkLength, present := true));
      slots := slots[i := slots[i].(start := blkLength, present := true)];
      blkLength := blkLength + |text| + 1;
      texts := texts[k := text];
    }

    /** An empty block with one key. */
    method Restart(transit: bool, k: Key, text: Option<CString>)
      requires Valid()
      modifies this, strBlock
      ensures Valid() && View() == EmptyBlock.(transitBit := transit).Set(k, text)
    {
      hide Valid, View;
      Clear();
      SetTransitBit(transit);
      SetKeyValue(k, text);
    }

    /** strlcpy into the unused part of the block */
    method CopyText(text: CString)
      requires blkLength + |text| < strBlock.Length
      modifies strBlock
      ensures Stored(strBlock[..], blkLength + |text| + 1, blkLength, text)
      ensures strBlock[..][..blkLength] == old(strBlock[..])[..blkLength]
    {
      for j := 0 to |text|
        invariant forall i :: 0 <= i < j ==> strBlock[blkLength + i] == text[i]
        invariant forall i :: 0 <= i < blkLength ==> strBlock[i] == old(strBlock[i])
      {
        strBlock[blkLength + j] := text[j];
      }
      strBlock[blkLength + |text|] := '\0';
    }

    /** acl_get_key_val */
    method GetKeyVal(k: Key) returns (text: Option<CString>)
      requires Valid()
      modifies this
      ensures Valid() && View() == old(View()).Seen(k) && text == old(View()).Value(k)
    {
      var i := SlotOf(k);
      LayoutFlags(strBlock[..], blkLength, slots, texts, k, slots[i].(processed := true));
      slots := slots[i := slots[i].(processed := true)];
      if !slots[i].present {
        return None;
      }
      var t := ReadText(slots[i].start, texts[k]);
      return Some(t);
    }

    method Has(k: Key) returns (present: bool)
      requires Valid()
      ensures present == (k in View().values)
    {
      present := slots[SlotOf(k)].present;
    }

    /** The characters up to the terminator. */
    method ReadText(start: nat, ghost expected: CString) returns (text: CString)
      requires Stored(strBlock[..], blkLength, start, expected)
      ensures text == expected
    {
      var n := 0;
      assert expected != "" ==> strBlock[..][start + 0] == expected[0];
      while strBlock[start + n] != '\0'
        invariant n <= |expected| && strBlock[start + n] == (if n < |expected| then expected[n] else '\0')
        decreases |expected| - n
      {
        n := n + 1;
        assert n < |expected| ==> strBlock[..][start + n] == expected[n];
      }
      assert strBlock[start..start + n] == expected;
      text := strBlock[start..start + n];
    }
  }

  lemma ClaimedAt(slots: Slots, k: Key)
    ensures k in Claimed(slots) <==> slots[SlotOf(k)].valueSet
  {
  }

  lemma UnclaimedAbsent(block: seq<char>, used: nat, slots: Slots, texts: map<Key, CString>, k: Key)
    requires Layout(block, used, slots, texts) && !slots[SlotOf(k)].valueSet
    ensures k !in texts && !slots[SlotOf(k)].present
  {
  }
}
