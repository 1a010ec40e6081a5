/** The recinfo table of usr/idbm.c at work: printing, and the cursor loops of the parser,
    which update the table in place. */
module RecordTables {
  import opened CText
  import opened RecordDb

  // ---------- texts ----------

  function Cat(names: seq<string>): string {
    if names == [] then "" else names[0] + "," + Cat(names[1..])
  }

  lemma {:induction false} CatMore(names: seq<string>, name: string)
    ensures Cat(names + [name]) == Cat(names) + name + ","
  {
    if names == [] {
      assert [] + [name] == [name];
      assert [name][1..] == [];
    } else {
      CatMore(names[1..], name);
      assert (names + [name])[1..] == names[1..] + [name];
    }
  }

  lemma {:induction false} CatJoin(names: seq<string>)
    requires names != []
    ensures Cat(names) == Join(names) + ","
  {
    if |names| > 1 {
      CatJoin(names[1..]);
    } else {
      assert names[1..] == [];
    }
  }

  lemma NamesFrom(tbl: seq<Choice>, l: seq<int>, i: nat)
    requires i < |l|
    ensures Names(tbl, l[i..]) ==
            (if l[i] != UNSET && NameOf(tbl, l[i]).Some? then [NameOf(tbl, l[i]).value] else []) + Names(tbl, l[i + 1..])
  {
    assert l[i..][1..] == l[i + 1..];
  }

  /** The inner loop of the list macro. */
  method FindName(tbl: seq<Choice>, v: int) returns (name: Option<string>)
    ensures name == NameOf(tbl, v)
  {
    for j := 0 to |tbl|
      invariant NameOf(tbl, v) == NameOf(tbl[j..], v)
    {
      assert tbl[j..][1..] == tbl[j + 1..];
      if tbl[j].value == v {
        return Some(tbl[j].name);
      }
    }
    return None;
  }

  /** The list macro: names with a comma each, and the last comma deleted */
  method ListText(tbl: seq<Choice>, l: seq<int>) returns (text: string)
    ensures text == Join(Names(tbl, l))
  {
    hide Names, Join, Cat;
    text := "";
    ghost var done: seq<string> := [];
    NoText();
    assert l[0..] == l && [] + Names(tbl, l) == Names(tbl, l);
    for i := 0 to |l|
      invariant text == Cat(done) && done + Names(tbl, l[i..]) == Names(tbl, l)
    {
      NamesFrom(tbl, l, i);
      if l[i] != UNSET {
        var name := FindName(tbl, l[i]);
        if name.Some? {
          CatMore(done, name.value);
          assert done + ([name.value] + Names(tbl, l[i + 1..])) == done + [name.value] + Names(tbl, l[i + 1..]);
          text := text + name.value + ",";
          done := done + [name.value];
        }
      }
    }
    NoNamesLeft(tbl, l[|l|..]);
    assert done == Names(tbl, l);
    if done != [] {
      CatJoin(done);
    }
    if text != "" {
      text := text[..|text| - 1];
    }
  }

  lemma NoText()
    ensures Cat([]) == "" && Join([]) == ""
  {
  }

  lemma NoNamesLeft(tbl: seq<Choice>, l: seq<int>)
    requires l == []
    ensures Names(tbl, l) == []
  {
  }

  // ---------- list values ----------

  method FindSep(s: string, lo: nat) returns (e: nat)
    requires lo <= |s|
    ensures lo <= e <= |s| && e - lo == SepAt(s[lo..])
  {
    e := lo;
    while e < |s| && !IsSep(s[e])
      invariant lo <= e <= |s| && SepAt(s[lo..]) == e - lo + SepAt(s[e..])
    {
      assert s[e..][1..] == s[e + 1..];
      e := e + 1;
    }
  }

  /** The loop over the table for one token: a known one that is new is taken. */
  method TakeToken(tbl: seq<Choice>, token: string, found: seq<bool>, ghost taken: seq<string>)
    returns (v: Option<int>, found': seq<bool>)
    requires Flags(tbl, found, taken)
    ensures v == if Lookup(tbl, token).None? || token in taken then None else Lookup(tbl, token)
    ensures Flags(tbl, found', if v.Some? then taken + [token] else taken)
  {
    found' := found;
    for j := 0 to |tbl|
      invariant Lookup(tbl, token) == Lookup(tbl[j..], token) && found' == found
      invariant forall k :: 0 <= k < j ==> tbl[k].name != token
    {
      assert tbl[j..][1..] == tbl[j + 1..];
      if tbl[j].name == token {
        assert First(tbl, j);
        if found[j] {
          return None, found;
        }
        return Some(tbl[j].value), found[j := true];
      }
    }
    return None, found;
  }

  /** No entry before `j` has its name. */
  predicate First(tbl: seq<Choice>, j: nat)
    requires j < |tbl|
  {
    forall k :: 0 <= k < j ==> tbl[k].name != tbl[j].name
  }

  /** The flags say which names have been taken. */
  predicate Flags(tbl: seq<Choice>, found: seq<bool>, taken: seq<string>) {
    |found| == |tbl| && forall j :: 0 <= j < |tbl| && First(tbl, j) ==> (found[j] <==> tbl[j].name in taken)
  }

  lemma GatherStep(tbl: seq<Choice>, s: string, lo: nat, e: nat, taken: seq<string>, room: nat)
    requires lo <= e <= |s| && e - lo == SepAt(s[lo..])
    ensures var more := if e < |s| then Tokens(s[e + 1..]) else []; var token := s[lo..e];
            Gather(tbl, Tokens(s[lo..]), taken, room) ==
            if e == lo then Gather(tbl, more, taken, room)
            else if room == 0 then []
            else if Lookup(tbl, token).None? || token in taken then Gather(tbl, more, taken, room)
            else [Lookup(tbl, token).value] + Gather(tbl, more, taken + [token], room - 1)
  {
    hide Lookup, SepAt, Tokens, Gather;
    TokensFrom(s, lo, e);
    var more := if e < |s| then Tokens(s[e + 1..]) else [];
    if e > lo {
      GatherOne(tbl, s[lo..e], more, taken, room);
    } else {
      assert [] + more == more;
    }
  }

  lemma TokensFrom(s: string, lo: nat, e: nat)
    requires lo <= e <= |s| && e - lo == SepAt(s[lo..])
    ensures Tokens(s[lo..]) == (if e == lo then [] else [s[lo..e]]) + (if e < |s| then Tokens(s[e + 1..]) else [])
  {
    hide SepAt, Tokens;
    var t := s[lo..];
    TokensUnfold(t, e - lo);
    assert t[..e - lo] == s[lo..e];
    if e < |s| {
      assert t[e - lo + 1..] == s[e + 1..];
    }
  }

  lemma GatherOne(tbl: seq<Choice>, token: string, more: seq<string>, taken: seq<string>, room: nat)
    ensures Gather(tbl, [token] + more, taken, room) ==
            if room == 0 then []
            else if Lookup(tbl, token).None? || token in taken then Gather(tbl, more, taken, room)
            else [Lookup(tbl, token).value] + Gather(tbl, more, taken + [token], room - 1)
  {
    hide Lookup;
    assert ([token] + more)[1..] == more;
  }

  /** What is left to gather behind position `lo`; strsep is done behind the end. */
  ghost function Remaining(tbl: seq<Choice>, s: string, lo: nat, taken: seq<string>, room: nat): seq<int> {
    Gather(tbl, if lo <= |s| then Tokens(s[lo..]) else [], taken, room)
  }

  /** The INT_LIST case of idbm_rec_update_param */
  method ReadListValue(tbl: seq<Choice>, len: nat, value: string) returns (l: seq<int>)
    ensures l == PadList(Gather(tbl, Tokens(value), [], len), len)
  {
    hide Gather, Tokens, Lookup, Flags;
    ghost var goal := Gather(tbl, Tokens(value), [], len);
    l := [];
    var found := seq(|tbl|, _ => false);
    ghost var taken: seq<string> := [];
    assert Flags(tbl, found, taken) by { NoFlags(tbl); }
    var pos := 0;
    assert value[0..] == value;
    assert l + goal == goal;
    while pos <= |value|
      invariant 0 <= pos <= |value| + 1 && |l| <= len && Flags(tbl, found, taken)
      invariant goal == l + Remaining(tbl, value, pos, taken, len - |l|)
    {
      var e := FindSep(value, pos);
      GatherStep(tbl, value, pos, e, taken, len - |l|);
      if pos < e {
        if |l| >= len {
          break;
        }
        var v: Option<int>;
        v, found := TakeToken(tbl, value[pos..e], found, taken);
        if v.Some? {
          TakenMore(tbl, value, e + 1, taken, value[pos..e], len - |l|, l, v.value);
          l, taken := l + [v.value], taken + [value[pos..e]];
        }
      }
      pos := e + 1;
    }
    assert goal == l by { NothingRemains(tbl, value, pos, taken, len - |l|); }
    if |l| < len {
      l := l + seq(len - |l|, _ => UNSET);
    }
  }

  lemma NoFlags(tbl: seq<Choice>)
    ensures Flags(tbl, seq(|tbl|, _ => false), [])
  {
  }

  lemma TakenMore(tbl: seq<Choice>, s: string, lo: nat, taken: seq<string>, token: string, room: nat, l: seq<int>, v: int)
    requires room > 0
    ensures var r := Remaining(tbl, s, lo, taken + [token], room - 1); l + ([v] + r) == (l + [v]) + r
  {
  }

  lemma NothingRemains(tbl: seq<Choice>, s: string, lo: nat, taken: seq<string>, room: nat)
    requires room == 0 || lo > |s|
    ensures Remaining(tbl, s, lo, taken, room) == []
  {
  }

  // ---------- the table ----------

  class RecordTable {
    const info: array<Field>

    constructor (fields: seq<Field>)
      ensures info[..] == fields && fresh(info)
    {
      info := new Field[|fields|](i requires 0 <= i < |fields| => fields[i]);
    }

    /** The text of an entry, as the recinfo macros fill it in. */
    method FieldText(f: Field) returns (text: string)
      ensures text == TextOf(f.kind, f.data)
    {
      hide Join, Names;
      if f.kind.List? && f.data.ListValue? {
        text := ListText(f.kind.tbl, f.data.l);
      } else {
        text := TextOf(f.kind, f.data);
      }
    }

    /** idbm_print into a record file */
    method PrintRecord() returns (out: string)
      ensures out == Print(info[..])
    {
      hide TextOf, Body;
      out := BEGIN_REC;
      BodyNone(info[..]);
      for i := 0 to info.Length
        invariant out == BEGIN_REC + Body(info[..i])
      {
        BodyMore(info[..], i);
        var text := FieldText(info[i]);
        if info[i].visible != Hide && text != "" {
          out := out + (info[i].name + " = " + text + "\n");
        }
      }
      assert info[..info.Length] == info[..];
      out := out + END_REC;
    }

    /** One type's case of idbm_rec_update_param. */
    method Convert(kind: Kind, value: string) returns (v: Option<Value>)
      ensures v == ReadValue(kind, value)
    {
      hide Gather, Tokens, Strtoul;
      match kind
      case List(tbl, len) =>
        var l := ReadListValue(tbl, len, value);
        return Some(ListValue(l));
      case Option_(opts) =>
        for j := 0 to |opts|
          invariant IndexOf(opts, value) == Shift(IndexOf(opts[j..], value), j)
        {
          assert opts[j..][1..] == opts[j + 1..];
          if opts[j] == value {
            return Some(IntValue(j));
          }
        }
        return None;
      case _ => return ReadValue(kind, value);
    }

    /** The search of idbm_rec_update_param, and the update of the entry it finds */
    method SetEntry(name: string, value: string) returns (ok: bool)
      modifies info
      ensures (info[..], ok) == SetField(old(info[..]), name, value)
    {
      hide ReadValue, Find;
      for i := 0 to info.Length
        invariant info[..] == old(info[..])
        invariant forall k :: 0 <= k < i ==> info[k].name != name
      {
        if info[i].name == name {
          FindFirst(info[..], name, i);
          var v := Convert(info[i].kind, value);
          if v.None? {
            return false;
          }
          info[i] := info[i].(data := v.value);
          assert info[..] == old(info[..])[i := old(info[..])[i].(data := v.value)];
          return true;
        }
      }
      return false;
    }

    /** idbm_rec_update_param */
    method UpdateParam(name: string, value: string)
      modifies info
      ensures info[..] == Update(old(info[..]), name, value)
    {
      hide SetField, LengthText, IsPassword;
      var ok := SetEntry(name, value);
      if ok && IsPassword(name) {
        var _ := SetEntry(name + "_length", LengthText(|value|));
      }
    }

    /** One line of a file. */
    method ParseLine(line: string)
      modifies info
      ensures info[..] == ProcessLine(old(info[..]), line)
    {
      hide Update;
      if line == "" || line[|line| - 1] != '\n' {
        return;
      }
      var s := StripText(line);
      if s == "" || s[0] == '#' {
        return;
      }
      var p := SplitText(s);
      if p.Some? {
        UpdateParam(p.value.0, p.value.1);
      }
    }

    /** idbm_recinfo_config */
    method ParseFile(text: string)
      modifies info
      ensures info[..] == ReadConfig(old(info[..]), text)
    {
      hide ProcessLine, LineLength;
      var pos := 0;
      assert text[0..] == text;
      while pos < |text|
        invariant 0 <= pos <= |text| && ReadConfig(info[..], text[pos..]) == ReadConfig(old(info[..]), text)
      {
        var n := LineEnd(text, pos);
        FileStep(info[..], text, pos, n);
        ParseLine(text[pos..n]);
        pos := n;
      }
      assert text[pos..] == "";
    }
  }

  function Shift(r: Option<nat>, j: nat): Option<nat> {
    match r case Some(i) => Some(i + j) case None => None
  }

  lemma BodyNone(fields: seq<Field>)
    ensures Body(fields[..0]) == ""
  {
  }

  lemma {:induction false} BodyMore(fields: seq<Field>, i: nat)
    requires i < |fields|
    ensures Body(fields[..i + 1]) == Body(fields[..i]) + if Printed(fields[i]) then LineOf(fields[i]) else ""
  {
    hide TextOf, LineOf, Printed;
    var a := fields[..i + 1];
    if i == 0 {
      assert a == [fields[0]] && a[1..] == [];
    } else {
      BodyMore(fields[1..], i - 1);
      assert a[1..] == fields[1..][..i] && fields[..i][1..] == fields[1..][..i - 1];
    }
  }

  lemma {:induction false} FindFirst(fields: seq<Field>, name: string, i: nat)
    requires i < |fields| && fields[i].name == name && forall k :: 0 <= k < i ==> fields[k].name != name
    ensures Find(fields, name) == Some(i)
  {
    if i > 0 {
      FindFirst(fields[1..], name, i - 1);
    }
  }

  lemma FileStep(fields: seq<Field>, text: string, pos: nat, n: nat)
    requires pos < n <= |text| && n - pos == LineLength(text[pos..], LINE_MAX)
    ensures ReadConfig(fields, text[pos..]) == ReadConfig(ProcessLine(fields, text[pos..n]), text[n..])
  {
    hide ProcessLine, LineLength;
    var t := text[pos..];
    assert t[..n - pos] == text[pos..n] && t[n - pos..] == text[n..];
  }

  // ---------- cursors over a line ----------

  /** fgets */
  method LineEnd(text: string, pos: nat) returns (n: nat)
    requires pos < |text|
    ensures pos < n <= |text| && n - pos == LineLength(text[pos..], LINE_MAX)
  {
    n := pos;
    while n < |text| && n - pos < LINE_MAX
      invariant pos <= n <= |text| && n - pos <= LINE_MAX
      invariant LineLength(text[pos..], LINE_MAX) == n - pos + LineLength(text[n..], LINE_MAX - (n - pos))
    {
      assert text[n..][1..] == text[n + 1..];
      n := n + 1;
      if text[n - 1] == '\n' {
        return;
      }
    }
  }

  method SkipFrom(s: string, lo: nat) returns (e: nat)
    requires lo <= |s|
    ensures lo <= e <= |s| && SkipSpaces(s[lo..]) == s[e..]
  {
    e := lo;
    while e < |s| && IsSpace(s[e])
      invariant lo <= e <= |s| && SkipSpaces(s[lo..]) == SkipSpaces(s[e..])
    {
      assert s[e..][1..] == s[e + 1..];
      e := e + 1;
    }
  }

  /** strstrip */
  method StripText(s: string) returns (r: string)
    ensures r == Strip(s)
  {
    var end := |s|;
    assert s[..end] == s;
    while end > 0 && IsSpace(s[end - 1])
      invariant 0 <= end <= |s| && StripEnd(s) == StripEnd(s[..end])
    {
      assert s[..end][..end - 1] == s[..end - 1];
      end := end - 1;
    }
    var t := s[..end];
    var from := SkipFrom(t, 0);
    assert t[0..] == t;
    return t[from..];
  }

  /** The name, the separator and the value. */
  method SplitText(s: string) returns (p: Option<(string, string)>)
    ensures p == NameAndValue(s)
  {
    hide SkipSpaces;
    var n := 0;
    assert s[0..] == s;
    while n < |s| && !IsSpace(s[n]) && s[n] != '='
      invariant 0 <= n <= |s| && NameLength(s) == n + NameLength(s[n..])
    {
      assert s[n..][1..] == s[n + 1..];
      n := n + 1;
    }
    if n == |s| {
      return None;
    }
    var u := SkipFrom(s, n + 1);
    if u == |s| || s[u] != '=' {
      return None;
    }
    assert s[u..][1..] == s[u + 1..];
    var v := SkipFrom(s, u + 1);
    if v == |s| {
      return None;
    }
    return Some((s[..n], s[v..]));
  }
}
