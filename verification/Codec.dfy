/** The text encodings of binary values (section 5.1 of RFC 3720) in usr/auth.c: what
    the texts stand for, and that decoding undoes encoding. */
module Codec {
  import opened CText

  const LARGE_BINARY_MAX_LEN := 1024

  // ---------- hexadecimal ----------

  function HexDigit(d: nat): (c: char)
    requires d < 16
    ensures DigitValue(c, 16) == Some(d) && c != '\0'
  {
    "0123456789abcdef"[d]
  }

  function HexDigits(data: seq<byte>): (s: CString)
    ensures |s| == 2 * |data|
  {
    if data == [] then ""
    else [HexDigit(data[0] / 16), HexDigit(data[0] % 16)] + HexDigits(data[1..])
  }

  function HexText(data: seq<byte>): (s: CString)
    ensures |s| == 2 + 2 * |data|
  {
    "0x" + HexDigits(data)
  }

  /** acl_data_to_text into a buffer of `room` characters: the hexadecimal text when
      there is data and the text fits with its terminator. */
  function DataToText(data: seq<byte>, room: nat): Option<CString> {
    if data != [] && |data| * 2 + 3 <= room then Some(HexText(data)) else None
  }

  function Prepend(front: seq<byte>, rest: Option<seq<byte>>): Option<seq<byte>> {
    match rest case Some(r) => Some(front + r) case None => None
  }

  /** An even number of hexadecimal digits as bytes, most significant digit first. */
  function HexPairs(text: string): (r: Option<seq<byte>>)
    ensures r.Some? ==> |text| == 2 * |r.value|
  {
    if text == "" then Some([])
    else if |text| == 1 || DigitValue(text[0], 16).None? || DigitValue(text[1], 16).None? then None
    else Prepend([16 * DigitValue(text[0], 16).value + DigitValue(text[1], 16).value], HexPairs(text[2..]))
  }

  /** An odd number of digits stands for one with a leading zero. */
  function HexDecode(text: string): Option<seq<byte>> {
    if |text| % 2 == 0 then HexPairs(text)
    else if DigitValue(text[0], 16).None? then None
    else Prepend([DigitValue(text[0], 16).value], HexPairs(text[1..]))
  }

  lemma {:induction false} SamePairs(s: string, t: string)
    requires SameLetters(s, t)
    ensures HexPairs(s) == HexPairs(t)
    decreases |s|
  {
    hide DigitValue, Lower;
    if |s| >= 2 {
      SameDigit(s[0], t[0], 16);
      SameDigit(s[1], t[1], 16);
      SameRest(s, t, 2);
      SamePairs(s[2..], t[2..]);
    }
  }

  /** A zero in front of an odd number of digits makes no difference. */
  lemma OddHex(text: string)
    requires |text| % 2 == 1
    ensures HexDecode(text) == HexDecode("0" + text)
  {
    assert ("0" + text)[2..] == text[1..];
  }

  /** Decoding does not look at the case of the digits. */
  lemma SameHex(s: string, t: string)
    requires SameLetters(s, t)
    ensures HexDecode(s) == HexDecode(t)
  {
    hide HexPairs, DigitValue, Lower;
    SamePairs(s, t);
    if |s| % 2 == 1 {
      SameDigit(s[0], t[0], 16);
      SameRest(s, t, 1);
      SamePairs(s[1..], t[1..]);
    }
  }

  // ---------- base 64 ----------

  type sextet = x: int | 0 <= x < 64

  /** The alphabet of section 4 of RFC 4648. */
  function SextetChar(x: sextet): (c: char) {
    if x < 26 then ('A' as int + x) as char
    else if x < 52 then ('a' as int + x - 26) as char
    else if x < 62 then ('0' as int + x - 52) as char
    else if x == 62 then '+' else '/'
  }

  function SextetValue(c: char): (v: Option<sextet>)
    ensures v.Some? ==> SextetChar(v.value) == c
  {
    if 'A' <= c <= 'Z' then Some(c as int - 'A' as int)
    else if 'a' <= c <= 'z' then Some(c as int - 'a' as int + 26)
    else if '0' <= c <= '9' then Some(c as int - '0' as int + 52)
    else if c == '+' then Some(62)
    else if c == '/' then Some(63)
    else None
  }

  lemma SextetInverse(x: sextet)
    ensures SextetValue(SextetChar(x)) == Some(x) && SextetChar(x) != '=' && SextetChar(x) != '\0'
  {
  }

  /** A to Z, a to z and 0 to 9 in order, then the plus sign and the slash. */
  lemma Alphabet(x: sextet, y: sextet)
    ensures [SextetChar(0), SextetChar(26), SextetChar(52), SextetChar(62), SextetChar(63)] == "Aa0+/"
    ensures x <= y && (y < 26 || 26 <= x <= y < 52 || 52 <= x <= y < 62) ==>
              SextetChar(y) as int == SextetChar(x) as int + y - x
  {
  }

  function Quad(a: int, b: int, c: int, d: int): int { ((a * 64 + b) * 64 + c) * 64 + d }

  /** The three low bytes of a number, high byte first. */
  function ThreeBytes(n: int): (s: seq<byte>)
    ensures |s| == 3
  {
    [n / 0x1_0000 % 256, n / 256 % 256, n % 256]
  }

  /** The bytes of a last group of two or three sextets. */
  function OneByte(n: int): (s: seq<byte>)
    ensures |s| == 1
  {
    [n / 16 % 256]
  }

  function TwoBytes(n: int): (s: seq<byte>)
    ensures |s| == 2
  {
    [n / 4 / 256 % 256, n / 4 % 256]
  }

  /** Bits are taken six at a time; whatever follows the first '=' must be '='.  Four
      characters are three bytes; a last group of two or three is one or two bytes,
      and a last group of one is not an encoding. */
  function Base64Decode(text: string): Option<seq<byte>> {
    if text == "" || text[0] == '=' then (if OnlyPadding(text) then Some([]) else None)
    else if |text| == 1 || text[1] == '=' then None
    else if SextetValue(text[0]).None? || SextetValue(text[1]).None? then None
    else
      var a, b: int := SextetValue(text[0]).value, SextetValue(text[1]).value;
      if |text| == 2 || text[2] == '=' then
        (if OnlyPadding(text[2..]) then Some(OneByte(a * 64 + b)) else None)
      else if SextetValue(text[2]).None? then None
      else
        var c: int := SextetValue(text[2]).value;
        if |text| == 3 || text[3] == '=' then
          (if OnlyPadding(text[3..]) then Some(TwoBytes((a * 64 + b) * 64 + c)) else None)
        else if SextetValue(text[3]).None? then None
        else
          Prepend(ThreeBytes(Quad(a, b, c, SextetValue(text[3]).value)), Base64Decode(text[4..]))
  }

  predicate OnlyPadding(text: string) {
    forall i :: 0 <= i < |text| ==> text[i] == '='
  }

  /** acl_text_to_data into a buffer of `room` bytes; a missing text is an error. */
  function TextToData(text: Option<CString>, room: nat): (r: Option<seq<byte>>)
    ensures r.Some? ==> 1 <= |r.value| <= room
  {
    if text.None? || |text.value| >= 2 + 2 * LARGE_BINARY_MAX_LEN + 1 then None
    else
      var t := text.value;
      var d := if |t| >= 2 && t[0] == '0' && (t[1] == 'x' || t[1] == 'X') then HexDecode(t[2..])
               else if |t| >= 2 && t[0] == '0' && (t[1] == 'b' || t[1] == 'B') then Base64Decode(t[2..])
               else None;
      if d.Some? && 1 <= |d.value| <= room then d else None
  }

  // ---------- round trips ----------

  lemma NoHexPairs()
    ensures HexPairs("") == Some([])
  {
  }

  lemma HexPairStep(x: byte, rest: string)
    ensures HexPairs([HexDigit(x / 16), HexDigit(x % 16)] + rest) == Prepend([x], HexPairs(rest))
  {
    hide HexDigit, DigitValue, Prepend;
    var t := [HexDigit(x / 16), HexDigit(x % 16)] + rest;
    assert t[2..] == rest;
  }

  lemma {:induction false} HexPairsOfDigits(data: seq<byte>)
    ensures HexPairs(HexDigits(data)) == Some(data)
  {
    hide HexPairs;
    if data == [] {
      NoHexPairs();
    } else {
      HexPairsOfDigits(data[1..]);
      HexPairStep(data[0], HexDigits(data[1..]));
      assert data == [data[0]] + data[1..];
    }
  }

  /** The text that acl_data_to_text writes: two digits for every byte, if there is data and
      room for the text with its terminator. */
  lemma HexTextIs(data: seq<byte>, room: nat)
    ensures DataToText(data, room).Some? <==> |data| >= 1 && room >= 2 * |data| + 3
    ensures DataToText(data, room).Some? ==>
              var t := DataToText(data, room).value;
              && |t| == 2 + 2 * |data| && t[..2] == "0x"
              && forall i :: 0 <= i < |data| ==>
                   && t[2 + 2 * i] == "0123456789abcdef"[data[i] / 16]
                   && t[2 + 2 * i + 1] == "0123456789abcdef"[data[i] % 16]
  {
    hide HexDigits;
    forall i | 0 <= i < |data|
      ensures HexText(data)[2 + 2 * i] == "0123456789abcdef"[data[i] / 16]
      ensures HexText(data)[2 + 2 * i + 1] == "0123456789abcdef"[data[i] % 16]
    {
      HexDigitsAt(data, i);
    }
  }

  lemma {:induction false} HexDigitsAt(data: seq<byte>, i: nat)
    requires i < |data|
    ensures HexDigits(data)[2 * i] == HexDigit(data[i] / 16) && HexDigits(data)[2 * i + 1] == HexDigit(data[i] % 16)
  {
    if i > 0 {
      hide HexDigit;
      HexDigitsAt(data[1..], i - 1);
      assert HexDigits(data)[2..] == HexDigits(data[1..]);
      assert HexDigits(data)[2..][2 * (i - 1)] == HexDigits(data)[2 * i];
    }
  }

  /** acl_text_to_data undoes acl_data_to_text, exactly for values that are not empty and fit
      both the caller's room and the limit of 1024 bytes. */
  lemma HexRoundTrip(data: seq<byte>, room: nat)
    ensures TextToData(Some(HexText(data)), room) ==
            if 1 <= |data| <= 1024 && |data| <= room then Some(data) else None
  {
    hide HexPairs, HexDigits;
    HexPairsOfDigits(data);
    assert HexText(data)[2..] == HexDigits(data);
  }

  /** Base 64 with padding, section 4 of RFC 4648. */
  function Base64Encode(data: seq<byte>): string {
    if data == [] then ""
    else if |data| == 1 then
      var n: int := data[0];
      [SextetChar(n / 4), SextetChar(n % 4 * 16), '=', '=']
    else if |data| == 2 then
      var n: int := data[0] as int * 256 + data[1];
      [SextetChar(n / 0x400), SextetChar(n / 16 % 64), SextetChar(n % 16 * 4), '=']
    else
      EncodeTriple(data[0], data[1], data[2]) + Base64Encode(data[3..])
  }

  function FourSextets(n: int): (s: seq<sextet>)
    ensures |s| == 4
  {
    [n / 0x4_0000 % 64, n / 0x1000 % 64, n / 64 % 64, n % 64]
  }

  function EncodeTriple(a: byte, b: byte, c: byte): (s: string)
    ensures |s| == 4
  {
    var q := FourSextets((a as int * 256 + b) * 256 + c);
    [SextetChar(q[0]), SextetChar(q[1]), SextetChar(q[2]), SextetChar(q[3])]
  }

  lemma DecodeQuad(w: sextet, x: sextet, y: sextet, z: sextet, rest: string)
    ensures Base64Decode([SextetChar(w), SextetChar(x), SextetChar(y), SextetChar(z)] + rest)
            == Prepend(ThreeBytes(Quad(w, x, y, z)), Base64Decode(rest))
  {
    hide SextetChar, SextetValue, Quad, ThreeBytes;
    var t := [SextetChar(w), SextetChar(x), SextetChar(y), SextetChar(z)] + rest;
    SextetInverse(w);
    SextetInverse(x);
    SextetInverse(y);
    SextetInverse(z);
    assert t[4..] == rest;
  }

  lemma TripleBytes(a: byte, b: byte, c: byte)
    ensures ThreeBytes((a as int * 256 + b) * 256 + c) == [a, b, c]
  {
    var m: int := a as int * 256 + b;
    var n: int := m * 256 + c;
    assert n / 256 == m && n % 256 == c;
    assert n / 0x1_0000 == n / 256 / 256;
    assert m / 256 == a && m % 256 == b;
  }

  lemma QuadOfSextets(n: int)
    requires 0 <= n < 0x100_0000
    ensures var q := FourSextets(n); Quad(q[0], q[1], q[2], q[3]) == n
  {
    var m := n / 64;
    var k := m / 64;
    assert n / 0x1000 == k;
    assert n / 0x4_0000 == k / 64;
    assert k == k / 64 * 64 + k % 64;
    assert m == k * 64 + m % 64;
  }

  lemma DecodeTriple(a: byte, b: byte, c: byte, rest: string)
    ensures Base64Decode(EncodeTriple(a, b, c) + rest) == Prepend([a, b, c], Base64Decode(rest))
  {
    hide Base64Decode, SextetChar, ThreeBytes, FourSextets, Quad;
    TripleBytes(a, b, c);
    var n: int := (a as int * 256 + b) * 256 + c;
    QuadOfSextets(n);
    var q := FourSextets(n);
    DecodeQuad(q[0], q[1], q[2], q[3], rest);
  }

  lemma PairSextets(a: byte, b: byte)
    ensures var n := a as int * 256 + b;
            TwoBytes((n / 0x400 * 64 + n / 16 % 64) * 64 + n % 16 * 4) == [a, b] && n / 0x400 < 64
  {
    var n: int := a as int * 256 + b;
    var m := n / 16;
    assert n / 0x400 == m / 64;
    assert m / 64 * 64 + m % 64 == m;
    assert (m * 64 + n % 16 * 4) == n * 4;
    assert n / 256 == a && n % 256 == b;
  }

  lemma DecodePair(a: byte, b: byte)
    ensures Base64Decode(Base64Encode([a, b])) == Some([a, b])
  {
    hide SextetChar, SextetValue, TwoBytes;
    PairSextets(a, b);
    var n: int := a as int * 256 + b;
    SextetInverse(n / 0x400);
    SextetInverse(n / 16 % 64);
    SextetInverse(n % 16 * 4);
  }

  lemma DecodeSingle(a: byte)
    ensures Base64Decode(Base64Encode([a])) == Some([a])
  {
    hide SextetChar, SextetValue;
    SextetInverse(a as int / 4);
    SextetInverse(a as int % 4 * 16);
    assert (a as int / 4 * 64 + a as int % 4 * 16) / 16 == a;
  }

  lemma {:induction false} Base64Inverse(data: seq<byte>)
    ensures Base64Decode(Base64Encode(data)) == Some(data)
  {
    if |data| == 1 {
      assert data == [data[0]];
      DecodeSingle(data[0]);
    } else if |data| == 2 {
      assert data == [data[0], data[1]];
      DecodePair(data[0], data[1]);
    } else if |data| > 2 {
      hide Base64Decode, EncodeTriple;
      Base64Inverse(data[3..]);
      DecodeTriple(data[0], data[1], data[2], Base64Encode(data[3..]));
      assert data == [data[0], data[1], data[2]] + data[3..];
    } else {
      assert OnlyPadding("");
    }
  }

  lemma {:induction false} Base64Length(data: seq<byte>)
    ensures |Base64Encode(data)| == (|data| + 2) / 3 * 4
  {
    hide SextetChar, EncodeTriple;
    if |data| > 2 {
      Base64Length(data[3..]);
      assert (|data| - 3 + 2) / 3 + 1 == (|data| + 2) / 3;
    }
  }

  lemma {:induction false} Base64NoNul(data: seq<byte>)
    ensures forall i :: 0 <= i < |Base64Encode(data)| ==> Base64Encode(data)[i] != '\0'
  {
    if |data| > 2 {
      Base64NoNul(data[3..]);
    }
  }

  /** acl_text_to_data accepts the base 64 encoding of a value, exactly if it is not empty,
      there is room for it, and the text has no more than 2048 characters. */
  lemma Base64RoundTrip(data: seq<byte>, text: CString, room: nat)
    requires text == "0b" + Base64Encode(data) || text == "0B" + Base64Encode(data)
    ensures TextToData(Some(text), room) == if 1 <= |data| <= 1536 && |data| <= room then Some(data) else None
  {
    hide Base64Decode, Base64Encode;
    Base64Inverse(data);
    Base64Length(data);
    assert text[2..] == Base64Encode(data);
  }

  /** The hexadecimal text of a value is accepted with its digits and its x in either case. */
  lemma HexAnyCase(data: seq<byte>, text: CString, room: nat)
    requires SameLetters(text, HexText(data))
    ensures TextToData(Some(text), room) == TextToData(Some(HexText(data)), room)
  {
    hide HexDecode, HexDigits, Base64Decode, Lower;
    var t := HexText(data);
    SameDigit(text[0], t[0], 10);
    SameDigit(t[0], text[0], 10);
    SameX(text[1], t[1]);
    SameRest(text, t, 2);
    SameHex(text[2..], t[2..]);
  }
}
