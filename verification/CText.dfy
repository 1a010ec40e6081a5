/** C strings and the C library's decimal and hexadecimal conversions, as far as
    the authentication code and the record database use them. */
module CText {

  datatype Option<+T> = None | Some(value: T)

  type byte = b: int | 0 <= b < 256

  /** The text of a NUL-terminated string, without its terminator. */
  type CString = s: string | forall i :: 0 <= i < |s| ==> s[i] != '\0'

  const ULONG_MAX := 0xFFFF_FFFF_FFFF_FFFF

  // ---------- printing ----------

  function Digit(d: nat): (c: char)
    requires d < 10
    ensures DigitValue(c, 10) == Some(d)
  {
    "0123456789"[d]
  }

  /** The "%lu" conversion. */
  function Decimal(n: nat): (s: CString)
    ensures |s| >= 1 && forall i :: 0 <= i < |s| ==> DigitValue(s[i], 10).Some?
  {
    if n < 10 then [Digit(n)] else Decimal(n / 10) + [Digit(n % 10)]
  }

  /** The "%d" conversion. */
  function SignedDecimal(n: int): CString {
    if n < 0 then "-" + Decimal(-n) else Decimal(n)
  }

  /** strlcpy into `size` characters: what fits before the terminator */
  function Fit(s: string, size: nat): string {
    if size == 0 then "" else if |s| < size then s else s[..size - 1]
  }

  /** Items separated by commas. */
  function Join(items: seq<string>): (r: string)
    ensures (forall i :: 0 <= i < |items| ==> '\0' !in items[i]) ==> '\0' !in r
  {
    if items == [] then "" else if |items| == 1 then items[0] else items[0] + "," + Join(items[1..])
  }

  // ---------- strtoul ----------

  predicate IsSpace(c: char) {
    c == ' ' || '\t' <= c <= '\r'
  }

  function DigitValue(c: char, base: int): (v: Option<nat>)
    ensures v.Some? ==> v.value < base && v.value < 16
  {
    var d := if '0' <= c <= '9' then c as int - '0' as int
             else if 'a' <= c <= 'f' then c as int - 'a' as int + 10
             else if 'A' <= c <= 'F' then c as int - 'A' as int + 10
             else 99;
    if d < base && d < 16 then Some(d) else None
  }

  predicate AllDigits(s: string, base: int) {
    forall i :: 0 <= i < |s| ==> DigitValue(s[i], base).Some?
  }

  function SkipSpaces(s: string): (r: string)
    ensures |r| <= |s|
  {
    if s != "" && IsSpace(s[0]) then SkipSpaces(s[1..]) else s
  }

  function CountDigits(s: string, base: int): (n: nat)
    ensures n <= |s| && AllDigits(s[..n], base)
    ensures n < |s| ==> DigitValue(s[n], base).None?
  {
    if s == "" || DigitValue(s[0], base).None? then 0
    else
      var n := 1 + CountDigits(s[1..], base);
      assert forall i :: 1 <= i < n ==> s[i] == s[1..][i - 1];
      n
  }

  function DigitsValue(s: string, base: nat): nat
    requires AllDigits(s, base)
  {
    if s == "" then 0
    else DigitsValue(s[..|s| - 1], base) * base + DigitValue(s[|s| - 1], base).value
  }

  datatype Parsed = Parsed(value: nat, rest: string)

  /** An optional 0x in base 16 that has a digit behind it. */
  predicate HasPrefix(u: string) {
    |u| >= 3 && u[0] == '0' && (u[1] == 'x' || u[1] == 'X') && DigitValue(u[2], 16).Some?
  }

  /** The digits at the front, without limit, and what follows them. */
  function Numeral(u: string, base: nat): Option<Parsed>
    requires base == 10 || base == 16
  {
    var v := if base == 16 && HasPrefix(u) then u[2..] else u;
    var n := CountDigits(v, base);
    if n == 0 then None else Some(Parsed(DigitsValue(v[..n], base), v[n..]))
  }

  predicate Signed(t: string) { t != "" && (t[0] == '-' || t[0] == '+') }

  /** strtoul: white space, an optional sign, an optional 0x in base 16, digits.  A
      negative number is negated in unsigned arithmetic and an overflow saturates.
      `rest` is where the end pointer points; with no digits that is the whole text. */
  function Strtoul(s: string, base: nat): (p: Parsed)
    requires base == 10 || base == 16
    ensures p.value <= ULONG_MAX
  {
    var t := SkipSpaces(s);
    match Numeral(if Signed(t) then t[1..] else t, base)
    case None => Parsed(0, s)
    case Some(p) =>
      Parsed(if p.value > ULONG_MAX then ULONG_MAX
             else if Signed(t) && t[0] == '-' && p.value > 0 then ULONG_MAX + 1 - p.value
             else p.value,
             p.rest)
  }

  /** acl_text_to_number */
  function TextToNumber(text: CString): Option<nat> {
    var p := if |text| >= 2 && text[0] == '0' && (text[1] == 'x' || text[1] == 'X')
             then Strtoul(text[2..], 16) else Strtoul(text, 10);
    if text != "" && p.rest == "" then Some(p.value) else None
  }

  // ---------- round trips ----------

  lemma CountAllDigits(s: string, base: int)
    requires AllDigits(s, base)
    ensures CountDigits(s, base) == |s|
  {
  }

  lemma {:induction false} DecimalValue(n: nat)
    ensures DigitsValue(Decimal(n), 10) == n
  {
    if n >= 10 {
      DecimalValue(n / 10);
      var s := Decimal(n);
      assert s[..|s| - 1] == Decimal(n / 10);
    } else {
      assert Decimal(n)[..0] == "";
    }
  }

  lemma {:induction false} DecimalLength(n: nat)
    ensures n < 10 ==> |Decimal(n)| == 1
    ensures n < 100 ==> |Decimal(n)| <= 2
    ensures n < 1000 ==> |Decimal(n)| <= 3
  {
    if n >= 10 {
      DecimalLength(n / 10);
    }
  }

  /** A text of digits only. */
  lemma AllNumeral(s: string, base: nat)
    requires s != "" && AllDigits(s, base) && (base == 10 || base == 16)
    ensures Numeral(s, base) == Some(Parsed(DigitsValue(s, base), ""))
  {
    hide DigitsValue, CountDigits;
    if |s| >= 2 {
      assert DigitValue(s[1], base).Some?;
      assert !HasPrefix(s);
    }
    CountAllDigits(s, base);
    assert s[..|s|] == s && s[|s|..] == "";
  }

  lemma NoSign(s: string, base: nat)
    requires s != "" && AllDigits(s, base)
    ensures SkipSpaces(s) == s && !Signed(s)
  {
    assert DigitValue(s[0], base).Some?;
  }

  lemma StrtoulDigits(s: string, base: nat)
    requires s != "" && AllDigits(s, base) && (base == 10 || base == 16)
    ensures Strtoul(s, base) == Parsed(Saturated(DigitsValue(s, base)), "")
  {
    hide DigitsValue, Numeral, SkipSpaces, AllDigits;
    NoSign(s, base);
    AllNumeral(s, base);
  }

  /** The nearest number of 64 bits. */
  function Saturated(n: nat): nat {
    if n < 0x1_0000_0000_0000_0000 then n else 0xFFFF_FFFF_FFFF_FFFF
  }

  lemma StrtoulDecimal(n: nat)
    ensures Strtoul(Decimal(n), 10) == Parsed(Saturated(n), "")
  {
    hide Decimal, DigitsValue, Strtoul;
    DecimalValue(n);
    StrtoulDigits(Decimal(n), 10);
  }

  /** A number printed with "%lu" is read back by acl_text_to_number; a larger one reads as
      the largest. */
  lemma NumberRoundTrip(n: nat)
    ensures TextToNumber(Decimal(n)) == Some(Saturated(n))
  {
    hide Decimal, Strtoul;
    var s := Decimal(n);
    assert |s| >= 2 ==> DigitValue(s[1], 10).Some?;
    StrtoulDecimal(n);
  }

  /** A number printed with "%d" is read back by strtoul, modulo 2^64. */
  lemma SignedRoundTrip(n: int)
    requires -0x1_0000_0000_0000_0000 < n < 0x1_0000_0000_0000_0000
    ensures Strtoul(SignedDecimal(n), 10).value == n % 0x1_0000_0000_0000_0000
    ensures Strtoul(SignedDecimal(n), 10).rest == ""
  {
    hide Decimal, DigitsValue, Numeral;
    if n < 0 {
      var d := Decimal(-n);
      var s := SignedDecimal(n);
      assert SkipSpaces(s) == s;
      assert s[1..] == d;
      AllNumeral(d, 10);
      DecimalValue(-n);
    } else {
      StrtoulDecimal(n);
    }
  }

  /** A plus sign in front does not matter. */
  lemma PlusSign(n: nat)
    ensures Strtoul("+" + Decimal(n), 10) == Strtoul(Decimal(n), 10)
  {
    hide Decimal, DigitsValue, Numeral;
    var d := Decimal(n);
    var s := "+" + d;
    assert SkipSpaces(s) == s && s[1..] == d;
    NoSign(d, 10);
    AllNumeral(d, 10);
  }

  lemma {:induction false} CountUpTo(s: string, rest: string, base: int)
    requires AllDigits(s, base) && rest != "" && DigitValue(rest[0], base).None?
    ensures CountDigits(s + rest, base) == |s|
  {
    if s == "" {
      assert s + rest == rest;
    } else {
      assert (s + rest)[0] == s[0] && (s + rest)[1..] == s[1..] + rest;
      CountUpTo(s[1..], rest, base);
    }
  }

  /** Text behind the number makes acl_text_to_number refuse it, and so does no text. */
  lemma NumberOnly(n: nat, rest: CString)
    requires rest != "" && DigitValue(rest[0], 10).None? && rest[0] != 'x' && rest[0] != 'X'
    ensures TextToNumber(Decimal(n) + rest) == None && TextToNumber("") == None
  {
    hide Decimal, DigitsValue, DigitValue, CountDigits;
    var d := Decimal(n);
    var s := d + rest;
    assert s[0] == d[0] && DigitValue(d[0], 10).Some?;
    FirstDigit(s[0]);
    if |d| >= 2 {
      assert s[1] == d[1] && DigitValue(d[1], 10).Some?;
      FirstDigit(s[1]);
    }
    CountUpTo(d, rest, 10);
    assert s[..|d|] == d && s[|d|..] == rest;
  }

  lemma FirstDigit(c: char)
    requires DigitValue(c, 10).Some?
    ensures !IsSpace(c) && c != '-' && c != '+' && c != 'x' && c != 'X'
  {
  }

  // ---------- the case of digits ----------

  function Lower(c: char): char {
    if 'A' <= c <= 'Z' then (c as int + 32) as char else c
  }

  /** The same text but for the case of its letters. */
  predicate SameLetters(s: string, t: string) {
    |s| == |t| && forall i :: 0 <= i < |s| ==> Lower(s[i]) == Lower(t[i])
  }

  lemma SameDigit(c: char, d: char, base: int)
    requires Lower(c) == Lower(d)
    ensures DigitValue(c, base) == DigitValue(d, base) && IsSpace(c) == IsSpace(d)
    ensures (c == '-' || c == '+' || c == '0') ==> d == c
  {
  }

  lemma SameRest(s: string, t: string, n: nat)
    requires SameLetters(s, t) && n <= |s|
    ensures SameLetters(s[n..], t[n..]) && SameLetters(s[..n], t[..n])
  {
  }

  lemma {:induction false} SameSkip(s: string, t: string)
    requires SameLetters(s, t)
    ensures SameLetters(SkipSpaces(s), SkipSpaces(t))
  {
    hide IsSpace, Lower;
    if s != "" {
      SameDigit(s[0], t[0], 10);
      SameRest(s, t, 1);
      SameSkip(s[1..], t[1..]);
    }
  }

  lemma {:induction false} SameCount(s: string, t: string, base: int)
    requires SameLetters(s, t)
    ensures CountDigits(s, base) == CountDigits(t, base)
  {
    hide DigitValue, Lower;
    if s != "" {
      SameDigit(s[0], t[0], base);
      SameRest(s, t, 1);
      SameCount(s[1..], t[1..], base);
    }
  }

  lemma {:induction false} SameValue(s: string, t: string, base: nat)
    requires SameLetters(s, t) && AllDigits(s, base)
    ensures AllDigits(t, base) && DigitsValue(s, base) == DigitsValue(t, base)
  {
    hide DigitValue, Lower;
    forall i | 0 <= i < |t| ensures DigitValue(t[i], base) == DigitValue(s[i], base) {
      SameDigit(s[i], t[i], base);
    }
    if s != "" {
      var k := |s| - 1;
      SameRest(s, t, k);
      SameValue(s[..k], t[..k], base);
    }
  }

  lemma SameDigits(v: string, w: string, base: nat)
    requires SameLetters(v, w)
    ensures var n, m := CountDigits(v, base), CountDigits(w, base);
            n == m && DigitsValue(v[..n], base) == DigitsValue(w[..m], base) && SameLetters(v[n..], w[m..])
  {
    hide CountDigits, DigitsValue, Lower;
    SameCount(v, w, base);
    SameRest(v, w, CountDigits(v, base));
    SameValue(v[..CountDigits(v, base)], w[..CountDigits(v, base)], base);
  }

  lemma SameNumeral(u: string, w: string, base: nat)
    requires SameLetters(u, w) && (base == 10 || base == 16)
    ensures var p, q := Numeral(u, base), Numeral(w, base);
            && (p.Some? <==> q.Some?)
            && (p.Some? ==> p.value.value == q.value.value && SameLetters(p.value.rest, q.value.rest))
  {
    hide CountDigits, DigitsValue, AllDigits, SameLetters;
    SamePrefix(u, w);
    var v := if base == 16 && HasPrefix(u) then u[2..] else u;
    var x := if base == 16 && HasPrefix(w) then w[2..] else w;
    SameDigits(v, x, base);
  }

  lemma SameSign(a: string, b: string)
    requires SameLetters(a, b)
    ensures Signed(a) == Signed(b) && (Signed(a) ==> a[0] == b[0] && SameLetters(a[1..], b[1..]))
  {
    hide Lower, DigitValue, IsSpace;
    if a != "" {
      SameDigit(a[0], b[0], 10);
      SameDigit(b[0], a[0], 10);
      SameRest(a, b, 1);
    }
  }

  /** strtoul does not look at the case of a digit or of an x. */
  lemma SameStrtoul(s: string, t: string, base: nat)
    requires SameLetters(s, t) && (base == 10 || base == 16)
    ensures Strtoul(s, base).value == Strtoul(t, base).value
    ensures Strtoul(s, base).rest == "" <==> Strtoul(t, base).rest == ""
  {
    hide SkipSpaces, Numeral, Lower;
    SameSkip(s, t);
    var a, b := SkipSpaces(s), SkipSpaces(t);
    SameSign(a, b);
    SameNumeral(if Signed(a) then a[1..] else a, if Signed(b) then b[1..] else b, base);
  }

  lemma SamePrefix(u: string, w: string)
    requires SameLetters(u, w)
    ensures HasPrefix(u) == HasPrefix(w) && (HasPrefix(u) ==> SameLetters(u[2..], w[2..]))
  {
    hide DigitValue, Lower;
    if |u| >= 3 {
      SameDigit(u[0], w[0], 16);
      SameDigit(w[0], u[0], 16);
      SameDigit(u[2], w[2], 16);
      SameX(u[1], w[1]);
      SameRest(u, w, 2);
    }
  }

  lemma SameX(c: char, d: char)
    requires Lower(c) == Lower(d)
    ensures (c == 'x' || c == 'X') <==> (d == 'x' || d == 'X')
  {
  }

  /** acl_text_to_number neither. */
  lemma SameNumber(s: CString, t: CString)
    requires SameLetters(s, t)
    ensures TextToNumber(s) == TextToNumber(t)
  {
    hide Strtoul, Lower;
    SameStrtoul(s, t, 10);
    if |s| >= 2 {
      SameDigit(s[0], t[0], 10);
      SameDigit(t[0], s[0], 10);
      SameX(s[1], t[1]);
      SameRest(s, t, 2);
      SameStrtoul(s[2..], t[2..], 16);
    }
  }

  // ---------- hexadecimal numbers ----------

  /** The digits of a number in base 16. */
  function HexNumeral(n: nat): (s: CString)
    ensures |s| >= 1 && AllDigits(s, 16)
  {
    var d := "0123456789abcdef"[n % 16];
    if n < 16 then [d] else HexNumeral(n / 16) + [d]
  }

  lemma {:induction false} HexNumeralValue(n: nat)
    ensures DigitsValue(HexNumeral(n), 16) == n
  {
    hide DigitValue;
    HexDigitIs(n % 16);
    var s := HexNumeral(n);
    if n >= 16 {
      HexNumeralValue(n / 16);
      assert s[..|s| - 1] == HexNumeral(n / 16);
    } else {
      assert s[..0] == "";
    }
  }

  lemma HexDigitIs(d: nat)
    requires d < 16
    ensures DigitValue("0123456789abcdef"[d], 16) == Some(d)
  {
  }

  /** Hexadecimal digits behind 0x, in either case, are read as their number. */
  lemma HexNumberRoundTrip(n: nat, text: CString)
    requires SameLetters(text, "0x" + HexNumeral(n))
    ensures TextToNumber(text) == Some(Saturated(n))
  {
    hide HexNumeral, DigitsValue, CountDigits, Lower, Strtoul;
    var s := HexNumeral(n);
    SameNumber(text, "0x" + s);
    assert ("0x" + s)[2..] == s;
    HexNumeralValue(n);
    StrtoulDigits(s, 16);
  }
}
