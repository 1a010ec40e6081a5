/** The encoders and decoders of usr/auth.c as they work: cursors over a text and a
    buffer of limited size. */
module CodecBuffers {
  import opened CText
  import opened Codec

  lemma {:induction false} HexDigitsAt(data: seq<byte>, i: nat)
    requires i < |data|
    ensures HexDigits(data)[2 * i] == HexDigit(data[i] / 16) && HexDigits(data)[2 * i + 1] == HexDigit(data[i] % 16)
  {
    hide HexDigit;
    if i > 0 {
      HexDigitsAt(data[1..], i - 1);
    }
  }

  /** acl_data_to_text: the buffer always ends up with a terminated prefix of the text. */
  method DataToTextBuffer(data: seq<byte>, text: array<char>) returns (err: bool)
    modifies text
    ensures !err <==> DataToText(data, text.Length).Some?
    ensures !err ==> text[..2 + 2 * |data|] == HexText(data) && text[2 + 2 * |data|] == '\0'
    ensures err && text.Length > 0 ==>
              exists m | 0 <= m < text.Length :: text[m] == '\0' && text[..m] <= HexText(data)
  {
    hide HexDigit, HexDigits;
    if text.Length == 0 {
      return true;
    }
    if data == [] || text.Length < 3 {
      text[0] := '\0';
      assert text[..0] <= HexText(data);
      return true;
    }
    text[0], text[1] := '0', 'x';
    var c, i := 2, 0;
    while i < |data|
      invariant 0 <= i <= |data| && c == 2 + 2 * i && c < text.Length
      invariant text[..c] == HexText(data)[..c]
    {
      if text.Length - c < 3 {
        text[c] := '\0';
        assert text[..c] <= HexText(data);
        return true;
      }
      HexDigitsAt(data, i);
      text[c], text[c + 1] := HexDigit(data[i] / 16), HexDigit(data[i] % 16);
      assert text[..c + 2] == text[..c] + [text[c], text[c + 1]];
      assert HexText(data)[..c + 2] == HexText(data)[..c] + [HexText(data)[c], HexText(data)[c + 1]];
      c, i := c + 2, i + 1;
    }
    text[c] := '\0';
    assert HexText(data)[..c] == HexText(data);
    return false;
  }

  lemma PrependNone(rest: Option<seq<byte>>)
    ensures Prepend([], rest) == rest
  {
    if rest.Some? {
      assert [] + rest.value == rest.value;
    }
  }

  lemma PrependBoth(a: seq<byte>, b: seq<byte>, rest: Option<seq<byte>>)
    ensures Prepend(a, Prepend(b, rest)) == Prepend(a + b, rest)
  {
    if rest.Some? {
      assert a + (b + rest.value) == (a + b) + rest.value;
    }
  }

  lemma PrependLength(a: seq<byte>, rest: Option<seq<byte>>)
    ensures Prepend(a, rest).Some? == rest.Some?
    ensures rest.Some? ==> |Prepend(a, rest).value| == |a| + |rest.value|
  {
  }

  /** The bytes a decoder delivers into a buffer of `room` bytes. */
  function Fitting(d: Option<seq<byte>>, room: nat): Option<seq<byte>> {
    if d.Some? && 1 <= |d.value| <= room then d else None
  }

  lemma HexPairsFrom(text: string, pos: nat)
    requires pos + 2 <= |text|
    ensures var hi, lo := DigitValue(text[pos], 16), DigitValue(text[pos + 1], 16);
            HexPairs(text[pos..]) == if hi.None? || lo.None? then None
                                     else Prepend([16 * hi.value + lo.value], HexPairs(text[pos + 2..]))
  {
    hide DigitValue;
    assert text[pos..][2..] == text[pos + 2..];
  }

  /** acl_hex_to_data once the number of digits left is even. */
  method StoreHexPairs(text: CString, start: nat, data: array<byte>, room: nat) returns (len: Option<nat>)
    requires start <= |text| && (|text| - start) % 2 == 0 && room <= data.Length
    modifies data
    ensures len.Some? <==> HexPairs(text[start..]).Some? && (|text| - start) / 2 <= data.Length - room
    ensures len.Some? ==> len.value <= data.Length
    ensures len.Some? ==> Prepend(old(data[..room]), HexPairs(text[start..])) == Some(data[..len.value])
  {
    hide DigitValue, HexPairs, Prepend;
    var pos, k := start, room;
    ghost var left := (|text| - start) / 2;
    PrependNone(HexPairs(text[start..]));
    while pos < |text|
      invariant pos + 2 * left == |text| && 0 <= left && start <= pos <= |text| && room <= k <= data.Length
      invariant k + left == room + (|text| - start) / 2
      invariant HexPairs(text[pos..]).Some? <==> HexPairs(text[start..]).Some?
      invariant Prepend(data[..k], HexPairs(text[pos..])) == Prepend(old(data[..room]), HexPairs(text[start..]))
      decreases |text| - pos
    {
      HexPairsFrom(text, pos);
      var hi, lo := DigitValue(text[pos], 16), DigitValue(text[pos + 1], 16);
      if hi.None? || lo.None? || data.Length - k < 1 {
        return None;
      }
      ghost var front, one := data[..k], [16 * hi.value + lo.value];
      PrependLength(one, HexPairs(text[pos + 2..]));
      data[k] := 16 * hi.value + lo.value;
      assert data[..k + 1] == front + one;
      PrependBoth(front, one, HexPairs(text[pos + 2..]));
      pos, k, left := pos + 2, k + 1, left - 1;
    }
    HexPairsDone(text[pos..], data[..k]);
    return Some(k);
  }

  lemma HexPairsDone(rest: string, front: seq<byte>)
    requires rest == ""
    ensures HexPairs(rest).Some? && Prepend(front, HexPairs(rest)) == Some(front)
  {
    assert front + [] == front;
  }

  /** acl_hex_to_data */
  method HexToDataBuffer(text: CString, data: array<byte>) returns (len: Option<nat>)
    modifies data
    ensures len.Some? <==> Fitting(HexDecode(text), data.Length).Some?
    ensures len.Some? ==> len.value <= data.Length && HexDecode(text) == Some(data[..len.value])
  {
    hide DigitValue, HexPairs;
    if |text| % 2 == 1 {
      var d := DigitValue(text[0], 16);
      if d.None? || data.Length < 1 {
        return None;
      }
      data[0] := d.value;
      assert data[..1] == [d.value];
      len := StoreHexPairs(text, 1, data, 1);
    } else {
      assert text[0..] == text;
      PrependNone(HexPairs(text));
      len := StoreHexPairs(text, 0, data, 0);
      if len == Some(0) {
        len := None;
      }
    }
  }

  /** The value of the sextets read since the last whole group. */
  function Bits(text: string): int
    requires forall i :: 0 <= i < |text| ==> SextetValue(text[i]).Some?
  {
    if text == "" then 0 else Bits(text[..|text| - 1]) * 64 + SextetValue(text[|text| - 1]).value
  }

  lemma BitsNone()
    ensures Bits("") == 0
  {
  }

  lemma BitsMore(text: string, c: char)
    requires forall i :: 0 <= i < |text| ==> SextetValue(text[i]).Some?
    requires SextetValue(c).Some?
    ensures Bits(text + [c]) == Bits(text) * 64 + SextetValue(c).value
  {
    hide SextetValue;
    assert (text + [c])[..|text|] == text;
  }

  /** acl_base64_to_data */
  method Base64ToDataBuffer(text: CString, data: array<byte>) returns (len: Option<nat>)
    modifies data
    ensures len.Some? <==> Fitting(Base64Decode(text), data.Length).Some?
    ensures len.Some? ==> len.value <= data.Length && Base64Decode(text) == Some(data[..len.value])
  {
    hide SextetValue, Base64Decode, Bits, ThreeBytes, OneByte, TwoBytes;
    BitsNone();
    var pos, k, count := 0, 0, 0;
    var n: int := 0;
    PrependNone(Base64Decode(text));
    assert text[0..] == text;
    while pos < |text| && text[pos] != '='
      invariant 0 <= count <= 3 && count <= pos <= |text| && k <= data.Length
      invariant forall i :: pos - count <= i < pos ==> text[i] != '=' && SextetValue(text[i]).Some?
      invariant n == Bits(text[pos - count..pos])
      invariant Base64Decode(text) == Prepend(data[..k], Base64Decode(text[pos - count..]))
    {
      var x := SextetValue(text[pos]);
      if x.None? {
        BadSextet(text[pos - count..], count);
        return None;
      }
      ghost var group := text[pos - count..pos + 1];
      assert group == text[pos - count..pos] + [text[pos]];
      BitsMore(text[pos - count..pos], text[pos]);
      n := n * 64 + x.value;
      count, pos := count + 1, pos + 1;
      if count >= 4 {
        ghost var rest := text[pos - 4..];
        assert rest[..4] == group && rest[4..] == text[pos..];
        WholeGroup(rest);
        if data.Length - k < 3 {
          return None;
        }
        ghost var front := data[..k];
        var b := ThreeBytes(n);
        data[k], data[k + 1], data[k + 2] := b[0], b[1], b[2];
        assert data[..k + 3] == front + b;
        PrependBoth(front, b, Base64Decode(text[pos..]));
        assert text[pos..pos] == "";
        k, n, count := k + 3, 0, 0;
      }
    }
    ghost var rest := text[pos - count..];
    assert rest[..count] == text[pos - count..pos] && rest[count..] == text[pos..];
    LastGroup(rest, count);
    var padded := PaddingFrom(text, pos);
    if !padded {
      return None;
    }
    len := StoreTail(data, k, n, count);
  }

  /** The bytes of a last group of zero, two or three characters. */
  method StoreTail(data: array<byte>, k: nat, n: int, count: nat) returns (len: Option<nat>)
    requires k <= data.Length && count <= 3
    modifies data
    ensures var tail := if count == 2 then OneByte(n) else if count == 3 then TwoBytes(n) else [];
            && (len.Some? <==> count != 1 && 1 <= k + |tail| <= data.Length)
            && (len.Some? ==> len.value == k + |tail| && data[..len.value] == old(data[..k]) + tail)
  {
    hide OneByte, TwoBytes;
    if count == 1 || (count == 2 && data.Length - k < 1) || (count == 3 && data.Length - k < 2) {
      return None;
    }
    var m := k;
    if count == 2 {
      data[k] := OneByte(n)[0];
      m := k + 1;
    } else if count == 3 {
      data[k], data[k + 1] := TwoBytes(n)[0], TwoBytes(n)[1];
      m := k + 2;
    }
    return if m == 0 then None else Some(m);
  }

  method PaddingFrom(text: CString, start: nat) returns (padded: bool)
    requires start <= |text|
    ensures padded <==> OnlyPadding(text[start..])
  {
    var pos := start;
    while pos < |text|
      invariant start <= pos <= |text|
      invariant forall i :: start <= i < pos ==> text[i] == '='
    {
      if text[pos] != '=' {
        assert text[start..][pos - start] == text[pos];
        return false;
      }
      pos := pos + 1;
    }
    return true;
  }

  lemma BadSextet(t: string, i: nat)
    requires i < |t| && i < 4 && t[i] != '=' && SextetValue(t[i]).None?
    requires forall j :: 0 <= j < i ==> t[j] != '=' && SextetValue(t[j]).Some?
    ensures Base64Decode(t) == None
  {
    hide SextetValue;
  }

  lemma WholeGroup(t: string)
    requires |t| >= 4 && forall j :: 0 <= j < 4 ==> t[j] != '=' && SextetValue(t[j]).Some?
    ensures Base64Decode(t) == Prepend(ThreeBytes(Bits(t[..4])), Base64Decode(t[4..]))
  {
    hide SextetValue, ThreeBytes, Bits;
    BitsNone();
    assert t[..1] == "" + [t[0]] && t[..2] == t[..1] + [t[1]] && t[..3] == t[..2] + [t[2]] && t[..4] == t[..3] + [t[3]];
    BitsMore("", t[0]);
    BitsMore(t[..1], t[1]);
    BitsMore(t[..2], t[2]);
    BitsMore(t[..3], t[3]);
  }

  lemma LastGroup(t: string, count: nat)
    requires count <= 3 && count <= |t| && (count < |t| ==> t[count] == '=')
    requires forall j :: 0 <= j < count ==> t[j] != '=' && SextetValue(t[j]).Some?
    ensures Base64Decode(t) == if !OnlyPadding(t[count..]) || count == 1 then None
                               else if count == 0 then Some([])
                               else if count == 2 then Some(OneByte(Bits(t[..count])))
                               else Some(TwoBytes(Bits(t[..count])))
  {
    hide SextetValue, OneByte, TwoBytes, Bits, OnlyPadding;
    BitsNone();
    if count == 0 {
      assert t[0..] == t;
    }
    if count >= 1 {
      assert t[..1] == "" + [t[0]];
      BitsMore("", t[0]);
    }
    if count >= 2 {
      assert t[..2] == t[..1] + [t[1]];
      BitsMore(t[..1], t[1]);
    }
    if count == 3 {
      assert t[..3] == t[..2] + [t[2]];
      BitsMore(t[..2], t[2]);
    }
  }

  /** acl_text_to_data */
  method TextToDataBuffer(text: Option<CString>, data: array<byte>) returns (len: Option<nat>)
    modifies data
    ensures len.Some? <==> TextToData(text, data.Length).Some?
    ensures len.Some? ==> len.value <= data.Length && TextToData(text, data.Length) == Some(data[..len.value])
  {
    hide HexDecode, Base64Decode;
    if text.None? || |text.value| >= 2 + 2 * LARGE_BINARY_MAX_LEN + 1 {
      return None;
    }
    var t := text.value;
    if |t| >= 2 && t[0] == '0' && (t[1] == 'x' || t[1] == 'X') {
      len := HexToDataBuffer(t[2..], data);
    } else if |t| >= 2 && t[0] == '0' && (t[1] == 'b' || t[1] == 'B') {
      len := Base64ToDataBuffer(t[2..], data);
    } else {
      len := None;
    }
  }
}
