/** The key block of usr/auth.c as a value: the text keys of one security message. */
module KeyBlocks {
  import opened CText

  const STR_MAX_LEN := 256
  const STR_BLOCK_MAX_LEN := 1024

  datatype Key = AuthMethod | ChapAlg | ChapUsername | ChapRsp | ChapIdentifier | ChapChallenge

  /** enum auth_key_type; numbers outside the enumeration name no key */
  function KeyOf(keyType: int): Option<Key> {
    if keyType == 0 then Some(AuthMethod)
    else if keyType == 1 then Some(ChapAlg)
    else if keyType == 2 then Some(ChapUsername)
    else if keyType == 3 then Some(ChapRsp)
    else if keyType == 4 then Some(ChapIdentifier)
    else if keyType == 5 then Some(ChapChallenge)
    else None
  }

  /** The number of a key, which is also its slot. */
  function SlotOf(k: Key): (i: nat)
    ensures i < 6 && KeyOf(i) == Some(k)
  {
    match k
    case AuthMethod => 0 case ChapAlg => 1 case ChapUsername => 2
    case ChapRsp => 3 case ChapIdentifier => 4 case ChapChallenge => 5
  }

  /** `values` holds the keys that are present, `claimed` those whose value_set flag is
      up (present or refused), `processed` those the machine has looked at. */
  datatype Block = Block(
    transitBit: bool,
    dupSet: bool,
    strTooLong: bool,
    tooMuchData: bool,
    blkLength: nat,
    values: map<Key, CString>,
    claimed: set<Key>,
    processed: set<Key>)
  {
    /** acl_set_key_value */
    function Set(k: Key, v: Option<CString>): (b: Block)
      ensures b.processed == processed && b.transitBit == transitBit
      ensures k in b.claimed && (k in claimed ==> b.values == values)
      ensures !b.Defective() && v.Some? ==> b.values == values[k := v.value]
    {
      if k in claimed then this.(dupSet := true)
      else
        var b := this.(claimed := claimed + {k});
        if v.None? then b
        else if |v.value| >= STR_MAX_LEN then b.(strTooLong := true)
        else if blkLength + |v.value| + 1 > STR_BLOCK_MAX_LEN then b.(tooMuchData := true)
        else b.(blkLength := blkLength + |v.value| + 1, values := values[k := v.value])
    }

    /** acl_get_key_val: what it returns, and the block it leaves behind */
    function Value(k: Key): Option<CString> {
      if k in values then Some(values[k]) else None
    }

    function Seen(k: Key): Block {
      this.(processed := processed + {k})
    }

    predicate Defective() { dupSet || strTooLong || tooMuchData }

    /** Some key of the message was never looked at. */
    predicate HasUnprocessed() { !(values.Keys <= processed) }
  }

  const EmptyBlock := Block(false, false, false, false, 0, map[], {}, {})

  // ---------- sequences of writes ----------

  datatype KeyWrite = KeyWrite(key: Key, text: Option<CString>)

  function SetAll(b: Block, writes: seq<KeyWrite>): Block {
    if writes == [] then b
    else
      var w := writes[|writes| - 1];
      SetAll(b, writes[..|writes| - 1]).Set(w.key, w.text)
  }

  /** The first text written under a key. */
  function FirstWrite(writes: seq<KeyWrite>, k: Key): Option<KeyWrite> {
    if writes == [] then None
    else
      match FirstWrite(writes[..|writes| - 1], k)
      case Some(w) => Some(w)
      case None => if writes[|writes| - 1].key == k then Some(writes[|writes| - 1]) else None
  }

  /** The room a text takes, with its terminator. */
  function Room(values: map<Key, CString>, k: Key): nat {
    if k in values then |values[k]| + 1 else 0
  }

  function TotalRoom(values: map<Key, CString>): nat {
    Room(values, AuthMethod) + Room(values, ChapAlg) + Room(values, ChapUsername)
    + Room(values, ChapRsp) + Room(values, ChapIdentifier) + Room(values, ChapChallenge)
  }

  lemma RoomGrows(values: map<Key, CString>, k: Key, v: CString)
    requires k !in values
    ensures TotalRoom(values[k := v]) == TotalRoom(values) + |v| + 1
  {
  }

  /** A key is claimed by its first write, and holds that text or none. */
  ghost predicate HoldsFirst(writes: seq<KeyWrite>, b: Block) {
    forall k :: (k in b.claimed <==> FirstWrite(writes, k).Some?) &&
                (k in b.values ==> FirstWrite(writes, k) == Some(KeyWrite(k, Some(b.values[k]))))
  }

  /** The texts with their terminators are what the block has used. */
  ghost predicate Measured(b: Block) {
    b.blkLength == TotalRoom(b.values) <= 1024 && forall k :: k in b.values ==> |b.values[k]| < 256
  }

  /** No text that was written first is missing. */
  ghost predicate NothingLost(writes: seq<KeyWrite>, b: Block) {
    forall k :: FirstWrite(writes, k).Some? && FirstWrite(writes, k).value.text.Some? ==> k in b.values
  }

  predicate HasDuplicate(writes: seq<KeyWrite>) {
    exists i, j :: 0 <= i < j < |writes| && writes[i].key == writes[j].key
  }

  /** Over any sequence of writes the block is a first-write-wins map of limited size: a
      second write under a key only raises the duplicate flag, and without a defect nothing
      is lost. */
  lemma {:induction false} FirstWriteWins(writes: seq<KeyWrite>)
    ensures var b := SetAll(EmptyBlock, writes);
            && HoldsFirst(writes, b) && Measured(b)
            && (!b.Defective() ==> NothingLost(writes, b))
            && (b.dupSet <==> HasDuplicate(writes))
  {
    if writes != [] {
      hide FirstWrite, TotalRoom, HasDuplicate, Block.Set, Block.Defective;
      var before, w := writes[..|writes| - 1], writes[|writes| - 1];
      FirstWriteWins(before);
      assert writes == before + [w];
      WriteStep(before, w, SetAll(EmptyBlock, before));
      SizeStep(before, w, SetAll(EmptyBlock, before));
      LossStep(before, w, SetAll(EmptyBlock, before));
      DuplicateNow(before, w);
      WrittenBefore(before, w.key);
    }
  }

  /** What one more write does: it is refused as a duplicate, as too long with 256 characters
      or more, or for want of room behind the texts that are there, and each refusal shows in
      a flag of its own; otherwise the text is stored. */
  lemma NextWrite(writes: seq<KeyWrite>, w: KeyWrite)
    ensures var b, d := SetAll(EmptyBlock, writes), SetAll(EmptyBlock, writes + [w]);
            var again := exists i :: 0 <= i < |writes| && writes[i].key == w.key;
            var tooLong := !again && w.text.Some? && |w.text.value| >= 256;
            var tooMuch := !again && w.text.Some? && !tooLong && TotalRoom(b.values) + |w.text.value| + 1 > 1024;
            && d.dupSet == (b.dupSet || again)
            && d.strTooLong == (b.strTooLong || tooLong)
            && d.tooMuchData == (b.tooMuchData || tooMuch)
            && d.values == (if again || w.text.None? || tooLong || tooMuch then b.values else b.values[w.key := w.text.value])
  {
    hide FirstWrite, TotalRoom;
    assert (writes + [w])[..|writes|] == writes;
    FirstWriteWins(writes);
    WrittenBefore(writes, w.key);
  }

  lemma FirstWriteMore(before: seq<KeyWrite>, w: KeyWrite, k: Key)
    ensures FirstWrite(before + [w], k) ==
            if FirstWrite(before, k).Some? then FirstWrite(before, k) else if w.key == k then Some(w) else None
  {
    assert (before + [w])[..|before|] == before;
  }

  lemma WriteStep(before: seq<KeyWrite>, w: KeyWrite, b: Block)
    requires HoldsFirst(before, b)
    ensures var d := b.Set(w.key, w.text);
            && HoldsFirst(before + [w], d)
            && d.dupSet == (b.dupSet || FirstWrite(before, w.key).Some?)
  {
    hide FirstWrite;
    forall k ensures FirstWrite(before + [w], k) ==
                     if FirstWrite(before, k).Some? then FirstWrite(before, k) else if w.key == k then Some(w) else None {
      FirstWriteMore(before, w, k);
    }
  }

  lemma SizeStep(before: seq<KeyWrite>, w: KeyWrite, b: Block)
    requires HoldsFirst(before, b) && Measured(b)
    ensures Measured(b.Set(w.key, w.text))
  {
    hide FirstWrite, TotalRoom;
    if w.key !in b.claimed && w.text.Some? {
      assert w.key !in b.values;
      RoomGrows(b.values, w.key, w.text.value);
    }
  }

  lemma LossStep(before: seq<KeyWrite>, w: KeyWrite, b: Block)
    requires HoldsFirst(before, b) && (!b.Defective() ==> NothingLost(before, b))
    ensures var d := b.Set(w.key, w.text); !d.Defective() ==> NothingLost(before + [w], d)
  {
    hide FirstWrite;
    forall k ensures FirstWrite(before + [w], k) ==
                     if FirstWrite(before, k).Some? then FirstWrite(before, k) else if w.key == k then Some(w) else None {
      FirstWriteMore(before, w, k);
    }
  }

  lemma {:induction false} WrittenBefore(writes: seq<KeyWrite>, k: Key)
    ensures FirstWrite(writes, k).Some? <==> exists i :: 0 <= i < |writes| && writes[i].key == k
    ensures FirstWrite(writes, k).Some? ==> FirstWrite(writes, k).value.key == k
  {
    if writes != [] {
      var before := writes[..|writes| - 1];
      WrittenBefore(before, k);
      assert writes == before + [writes[|writes| - 1]];
    }
  }

  lemma DuplicateNow(before: seq<KeyWrite>, w: KeyWrite)
    ensures HasDuplicate(before + [w]) <==> HasDuplicate(before) || exists i :: 0 <= i < |before| && before[i].key == w.key
  {
    var all := before + [w];
    if HasDuplicate(before) {
      var i, j :| 0 <= i < j < |before| && before[i].key == before[j].key;
      assert all[i].key == all[j].key;
    }
    if i :| 0 <= i < |before| && before[i].key == w.key {
      assert all[i].key == all[|before|].key;
    }
  }
}
