/** The text of a value is read back as the value. */
module RecordValues {
  import opened CText
  import opened RecordDb
  import opened RecordLines

  // ---------- integers ----------

  function Pow10(k: nat): (p: nat)
    ensures p > 0
  {
    if k == 0 then 1 else 10 * Pow10(k - 1)
  }

  lemma {:induction false} DecimalShort(n: nat, k: nat)
    requires k > 0 && n < Pow10(k)
    ensures |Decimal(n)| <= k
  {
    if n >= 10 {
      assert k > 1 by { Pow10Small(); }
      DecimalShort(n / 10, k - 1);
    }
  }

  lemma Pow10Small()
    ensures Pow10(1) == 10
  {
    assert Pow10(0) == 1;
  }

  lemma Pow10Ten()
    ensures Pow10(10) == 10_000_000_000
  {
    assert Pow10(2) == 100;
    assert Pow10(4) == 10_000;
    assert Pow10(6) == 1_000_000;
    assert Pow10(8) == 100_000_000;
  }

  lemma DigitsGood(s: string)
    requires s != "" && |s| <= 11 && DigitValue(s[|s| - 1], 10).Some?
    requires DigitValue(s[0], 10).Some? || s[0] == '-'
    requires forall i :: 1 <= i < |s| ==> DigitValue(s[i], 10).Some?
    ensures GoodText(s)
  {
  }

  lemma SignedGood(n: int)
    requires -0x8000_0000 <= n < 0x1_0000_0000
    ensures GoodText(SignedDecimal(n))
    ensures n >= 0 ==> SignedDecimal(n) == Decimal(n)
  {
    hide Decimal;
    Pow10Ten();
    if n < 0 {
      DecimalShort(-n, 10);
      var d := Decimal(-n);
      var s := SignedDecimal(n);
      assert forall i :: 1 <= i < |s| ==> s[i] == d[i - 1];
      DigitsGood(s);
    } else {
      DecimalShort(n, 10);
      DigitsGood(Decimal(n));
    }
  }

  /** An integer field takes any number modulo 2^32, and so itself if it has 32 bits. */
  lemma SignedRestored(n: int)
    requires -0x1_0000_0000_0000_0000 < n < 0x1_0000_0000_0000_0000
    ensures exists m :: ReadValue(SignedInt, SignedDecimal(n)) == Some(IntValue(m)) && Wrapped(n, m)
    ensures -0x8000_0000 <= n < 0x8000_0000 ==> ReadValue(SignedInt, SignedDecimal(n)) == Some(IntValue(n))
  {
    hide Strtoul, SignedDecimal, Wrapped, ToSigned32;
    SignedRoundTrip(n);
    Wraps(n);
    assert ReadValue(SignedInt, SignedDecimal(n)) == Some(IntValue(ToSigned32(n % 0x1_0000_0000_0000_0000)));
    if -0x8000_0000 <= n < 0x8000_0000 {
      WrappedOnce(n, ToSigned32(n % 0x1_0000_0000_0000_0000));
    }
  }

  /** `m` is `n` in 32 bits. */
  predicate Wrapped(n: int, m: int) {
    -0x8000_0000 <= m < 0x8000_0000 && (n - m) % 0x1_0000_0000 == 0
  }

  lemma WrappedOnce(n: int, m: int)
    requires Wrapped(n, m) && -0x8000_0000 <= n < 0x8000_0000
    ensures m == n
  {
  }

  lemma Wraps(n: int)
    ensures Wrapped(n, ToSigned32(n % 0x1_0000_0000_0000_0000))
  {
    var k, r := n / 0x1_0000_0000_0000_0000, n % 0x1_0000_0000_0000_0000;
    var q, m := r / 0x1_0000_0000, r % 0x1_0000_0000;
    var z := k * 0x1_0000_0000 + q;
    assert n == z * 0x1_0000_0000 + m;
    MultipleOf(z);
    MultipleOf(z + 1);
  }

  lemma MultipleOf(z: int)
    ensures z * 0x1_0000_0000 % 0x1_0000_0000 == 0
  {
  }

  /** How many values an unsigned field has. */
  function Limit(w: Width): nat {
    match w case Bits8 => 256 case Bits16 => 65536 case Bits32 => 4294967296
  }

  /** An unsigned field takes any number modulo its width. */
  lemma UnsignedRestored(n: nat, w: Width)
    ensures n < 0x1_0000_0000_0000_0000 ==> ReadValue(UnsignedInt(w), Decimal(n)) == Some(IntValue(n % Limit(w)))
    ensures n < Limit(w) ==> ReadValue(UnsignedInt(w), Decimal(n)) == Some(IntValue(n))
  {
    hide Strtoul, Decimal;
    StrtoulDecimal(n);
    if n < Limit(w) {
      assert n % Limit(w) == n;
    }
  }

  // ---------- lengths of passwords ----------

  lemma {:induction false} LeadingZeros(k: nat, s: string)
    requires AllDigits(s, 10)
    ensures var z := seq(k, _ => '0'); AllDigits(z + s, 10) && DigitsValue(z + s, 10) == DigitsValue(s, 10)
    decreases k + |s|
  {
    var z := seq(k, _ => '0');
    var t := z + s;
    if s == "" {
      assert t == z;
      if k > 0 {
        assert z[..k - 1] == seq(k - 1, _ => '0') + "";
        LeadingZeros(k - 1, "");
      }
    } else {
      assert t[..|t| - 1] == z + s[..|s| - 1];
      LeadingZeros(k, s[..|s| - 1]);
    }
  }

  lemma LengthRestored(n: nat)
    ensures ReadValue(SignedInt, LengthText(n)) == Some(IntValue(n % 0x1_0000))
  {
    hide Decimal, DigitsValue, Strtoul;
    var m := n % 0x1_0000;
    var d := Decimal(m);
    LeadingZeros(if |d| < 7 then 7 - |d| else 0, d);
    DecimalValue(m);
    StrtoulDigits(LengthText(n), 10);
  }

  // ---------- options ----------

  predicate AllDistinct(s: seq<string>) {
    forall i, j :: 0 <= i < j < |s| ==> s[i] != s[j]
  }

  lemma {:induction false} IndexRestored(opts: seq<string>, i: nat)
    requires i < |opts| && AllDistinct(opts)
    ensures IndexOf(opts, opts[i]) == Some(i)
  {
    if i > 0 {
      IndexRestored(opts[1..], i - 1);
    }
  }

  // ---------- lists ----------

  predicate Plain(s: string) {
    s != "" && forall i :: 0 <= i < |s| ==> !IsSep(s[i]) && !IsSpace(s[i])
  }

  lemma TokenThen(name: string, rest: string)
    requires Plain(name)
    ensures Tokens(name) == [name] && Tokens(name + "," + rest) == [name] + Tokens(rest)
  {
    hide Tokens;
    TokensUnfold(name, |name|);
    assert name[..|name|] == name;
    var s := name + "," + rest;
    assert s[..|name|] == name && s[|name| + 1..] == rest;
    TokensUnfold(s, |name|);
  }

  /** A separator: any number of commas, blanks and newlines. */
  predicate Separator(s: string) {
    s != "" && forall i :: 0 <= i < |s| ==> s[i] == ',' || s[i] == ' ' || s[i] == '\n'
  }

  /** Every name with the separator behind it. */
  function Spread(names: seq<string>, seps: seq<string>): string
    requires |names| == |seps|
  {
    if names == [] then "" else names[0] + seps[0] + Spread(names[1..], seps[1..])
  }

  lemma {:induction false} TokensSkip(sep: string, rest: string)
    requires sep == "" || Separator(sep)
    ensures Tokens(sep + rest) == Tokens(rest)
  {
    if sep == "" {
      assert sep + rest == rest;
    } else {
      var s := sep + rest;
      assert s[0] == sep[0] && s[1..] == sep[1..] + rest;
      TokensUnfold(s, 0);
      TokensSkip(sep[1..], rest);
    }
  }

  /** Whatever separates the names of a list, they are its tokens. */
  lemma {:induction false} AnySeparators(names: seq<string>, seps: seq<string>)
    requires |names| == |seps| && forall i :: 0 <= i < |names| ==> Plain(names[i]) && Separator(seps[i])
    ensures Tokens(Spread(names, seps)) == names
  {
    hide Tokens;
    if names == [] {
      TokensUnfold("", 0);
    } else {
      var name, sep, rest := names[0], seps[0], Spread(names[1..], seps[1..]);
      var s := Spread(names, seps);
      assert Plain(name) && Separator(sep) && s == name + sep + rest;
      assert s[..|name|] == name && s[|name| + 1..] == sep[1..] + rest && s[|name|] == sep[0];
      TokensUnfold(s, |name|);
      TokensSkip(sep[1..], rest);
      AnySeparators(names[1..], seps[1..]);
    }
  }

  lemma {:induction false} TokensOfJoin(names: seq<string>)
    requires forall i :: 0 <= i < |names| ==> Plain(names[i])
    ensures Tokens(Join(names)) == names
  {
    hide Tokens, Plain;
    if names == [] {
      TokensUnfold("", 0);
    } else if |names| == 1 {
      TokenThen(names[0], "");
    } else {
      TokensOfJoin(names[1..]);
      TokenThen(names[0], Join(names[1..]));
    }
  }

  /** Table names are plain and distinct. */
  predicate GoodTable(tbl: seq<Choice>) {
    && (forall i :: 0 <= i < |tbl| ==> Plain(tbl[i].name))
    && (forall i, j :: 0 <= i < j < |tbl| ==> tbl[i].name != tbl[j].name)
  }

  lemma {:induction false} LookupName(tbl: seq<Choice>, v: int)
    requires GoodTable(tbl) && NameOf(tbl, v).Some?
    ensures Lookup(tbl, NameOf(tbl, v).value) == Some(v) && Plain(NameOf(tbl, v).value)
    ensures exists i :: 0 <= i < |tbl| && tbl[i].name == NameOf(tbl, v).value
  {
    hide Plain;
    if tbl[0].value != v {
      LookupName(tbl[1..], v);
      var i :| 0 <= i < |tbl[1..]| && tbl[1..][i].name == NameOf(tbl[1..], v).value;
      assert tbl[i + 1].name == NameOf(tbl, v).value;
    }
  }

  /** The values that are set and in the table. */
  ghost function Known(tbl: seq<Choice>, l: seq<int>): seq<int> {
    if l == [] then []
    else if l[0] != -1 && InTable(tbl, l[0]) then [l[0]] + Known(tbl, l[1..])
    else Known(tbl, l[1..])
  }

  ghost predicate InTable(tbl: seq<Choice>, v: int) {
    exists i :: 0 <= i < |tbl| && tbl[i].value == v
  }

  lemma {:induction false} NameOfIs(tbl: seq<Choice>, v: int)
    ensures NameOf(tbl, v).Some? <==> InTable(tbl, v)
  {
    if tbl != [] {
      NameOfIs(tbl[1..], v);
      if InTable(tbl, v) && tbl[0].value != v {
        var i :| 0 <= i < |tbl| && tbl[i].value == v;
        assert tbl[1..][i - 1].value == v;
      }
    }
  }

  /** Each value where it first occurs. */
  function Unique(l: seq<int>, taken: seq<int>): seq<int> {
    if l == [] then []
    else if l[0] in taken then Unique(l[1..], taken)
    else [l[0]] + Unique(l[1..], taken + [l[0]])
  }

  predicate Match(tbl: seq<Choice>, names: seq<string>, values: seq<int>) {
    |names| == |values| && forall i :: 0 <= i < |names| ==> NameOf(tbl, values[i]) == Some(names[i])
  }

  lemma {:induction false} NamesMatch(tbl: seq<Choice>, l: seq<int>)
    ensures Match(tbl, Names(tbl, l), Known(tbl, l)) && |Known(tbl, l)| <= |l|
  {
    hide InTable;
    if l != [] {
      NameOfIs(tbl, l[0]);
      NamesMatch(tbl, l[1..]);
    }
  }

  /** The values, then unset entries, which are all ones. */
  ghost function Padded(l: seq<int>, len: nat): seq<int> {
    seq(len, i => if 0 <= i < |l| then l[i] else -1)
  }

  lemma {:induction false} UniqueLength(l: seq<int>, taken: seq<int>)
    ensures |Unique(l, taken)| <= |l|
  {
    if l != [] {
      UniqueLength(l[1..], taken);
      UniqueLength(l[1..], taken + [l[0]]);
    }
  }

  lemma TakenMatch(tbl: seq<Choice>, names: seq<string>, values: seq<int>, name: string, v: int)
    requires GoodTable(tbl) && Match(tbl, names, values) && NameOf(tbl, v) == Some(name)
    ensures name in names <==> v in values
  {
    hide GoodTable;
    LookupName(tbl, v);
    forall i | 0 <= i < |names| ensures names[i] == name <==> values[i] == v {
      LookupName(tbl, values[i]);
    }
  }

  lemma {:induction false} GatherIs(tbl: seq<Choice>, names: seq<string>, values: seq<int>,
                                    takenNames: seq<string>, taken: seq<int>, room: nat)
    requires GoodTable(tbl) && Match(tbl, names, values) && Match(tbl, takenNames, taken) && room >= |names|
    ensures Gather(tbl, names, takenNames, room) == Unique(values, taken)
    decreases |names|
  {
    hide GoodTable, Lookup;
    if names != [] {
      LookupName(tbl, values[0]);
      TakenMatch(tbl, takenNames, taken, names[0], values[0]);
      if names[0] in takenNames {
        GatherIs(tbl, names[1..], values[1..], takenNames, taken, room);
      } else {
        GatherIs(tbl, names[1..], values[1..], takenNames + [names[0]], taken + [values[0]], room - 1);
      }
    }
  }

  /** A list is read back as its known values, each once, padded with unset entries. */
  lemma ListRestored(tbl: seq<Choice>, l: seq<int>, len: nat)
    requires GoodTable(tbl) && |l| == len
    ensures ReadValue(List(tbl, len), Join(Names(tbl, l))) == Some(ListValue(Padded(Unique(Known(tbl, l), []), len)))
  {
    hide GoodTable, Join, Tokens, Gather, Unique;
    UniqueLength(Known(tbl, l), []);
    NamesMatch(tbl, l);
    assert PadList(Unique(Known(tbl, l), []), len) == Padded(Unique(Known(tbl, l), []), len);
    var names := Names(tbl, l);
    forall i | 0 <= i < |names| ensures Plain(names[i]) {
      LookupName(tbl, Known(tbl, l)[i]);
    }
    TokensOfJoin(names);
    GatherIs(tbl, names, Known(tbl, l), [], [], len);
  }
}
