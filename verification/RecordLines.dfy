/** A printed line is read back as the name and the value it was made of. */
module RecordLines {
  import opened CText
  import opened RecordDb

  predicate GoodName(name: string) {
    && name != "" && |name| < 128 && name[0] != '#'
    && forall i :: 0 <= i < |name| ==> !IsSpace(name[i]) && name[i] != '='
  }

  /** A text that fits a value, on one line and without white space at its edges. */
  predicate GoodText(t: string) {
    && t != "" && |t| < 256
    && !IsSpace(t[0]) && !IsSpace(t[|t| - 1])
    && forall i :: 0 <= i < |t| ==> t[i] != '\n'
  }

  lemma NoSkip(s: string)
    requires s != "" ==> !IsSpace(s[0])
    ensures SkipSpaces(s) == s
  {
  }

  lemma SkipOne(s: string)
    requires s != "" && !IsSpace(s[0])
    ensures SkipSpaces(" " + s) == s
  {
    assert (" " + s)[1..] == s;
    NoSkip(s);
  }

  lemma StripNewline(s: string)
    requires s != "" && !IsSpace(s[|s| - 1]) && !IsSpace(s[0])
    ensures Strip(s + "\n") == s
  {
    assert (s + "\n")[..|s|] == s;
    assert StripEnd(s) == s;
    NoSkip(s);
  }

  lemma {:induction false} NameEnds(name: string, rest: string)
    requires forall i :: 0 <= i < |name| ==> !IsSpace(name[i]) && name[i] != '='
    requires rest != "" && (IsSpace(rest[0]) || rest[0] == '=')
    ensures NameLength(name + rest) == |name|
  {
    if name == "" {
      assert name + rest == rest;
    } else {
      NameEnds(name[1..], rest);
      assert (name + rest)[1..] == name[1..] + rest;
    }
  }

  lemma SplitPrinted(name: string, t: string)
    requires GoodName(name) && GoodText(t)
    ensures NameAndValue(name + " = " + t) == Some((name, t))
  {
    hide SkipSpaces, NameLength;
    var s := name + " = " + t;
    assert s == name + (" = " + t);
    NameEnds(name, " = " + t);
    var u := "= " + t;
    assert s[|name| + 1..] == u && s[..|name|] == name;
    NoSkip(u);
    assert u[1..] == " " + t;
    SkipOne(t);
  }

  /** A printed line sets its field. */
  lemma PrintedLine(fields: seq<Field>, name: string, t: string)
    requires GoodName(name) && GoodText(t)
    ensures ProcessLine(fields, name + " = " + t + "\n") == Update(fields, name, t)
  {
    hide Strip, NameAndValue, Update;
    var s := name + " = " + t;
    assert s[0] == name[0] && s[|s| - 1] == t[|t| - 1];
    StripNewline(s);
    SplitPrinted(name, t);
  }

  lemma CommentLine(fields: seq<Field>, c: string)
    requires c != "" && !IsSpace(c[|c| - 1]) && c[0] == '#'
    ensures ProcessLine(fields, c + "\n") == fields
  {
    hide Strip;
    StripNewline(c);
  }

  lemma {:induction false} LineEnds(s: string, rest: string, room: nat)
    requires |s| < room && forall i :: 0 <= i < |s| ==> s[i] != '\n'
    ensures LineLength(s + "\n" + rest, room) == |s| + 1
  {
    if s == "" {
      assert s + "\n" + rest == "\n" + rest;
    } else {
      LineEnds(s[1..], rest, room - 1);
      assert (s + "\n" + rest)[1..] == s[1..] + "\n" + rest;
    }
  }

  /** The first line of a file is processed, then the rest. */
  lemma ReadLine(fields: seq<Field>, s: string, rest: string)
    requires |s| < 2047 && forall i :: 0 <= i < |s| ==> s[i] != '\n'
    ensures ReadConfig(fields, s + "\n" + rest) == ReadConfig(ProcessLine(fields, s + "\n"), rest)
  {
    hide ProcessLine, LineLength;
    var text := s + "\n" + rest;
    LineEnds(s, rest, LINE_MAX);
    assert text[..|s| + 1] == s + "\n" && text[|s| + 1..] == rest;
  }

  lemma {:induction false} LineFills(s: string, room: nat)
    requires |s| >= room && forall i :: 0 <= i < room ==> s[i] != '\n'
    ensures LineLength(s, room) == room
  {
    if room > 0 {
      LineFills(s[1..], room - 1);
    }
  }

  /** What the buffer cannot hold of a long line is read as if it began a line, and what it
      holds sets nothing. */
  lemma LongLine(fields: seq<Field>, text: string)
    requires |text| >= 2047 && '\n' !in text[..2047]
    ensures ReadConfig(fields, text) == ReadConfig(fields, text[2047..])
  {
    hide LineLength;
    forall i | 0 <= i < 2047 ensures text[i] != '\n' {
      assert text[i] == text[..2047][i];
    }
    LineFills(text, 2047);
  }

  // ---------- white space at the edges ----------

  lemma {:induction false} StripEndCons(c: char, t: string)
    ensures StripEnd([c] + t) == if StripEnd(t) != "" then [c] + StripEnd(t) else StripEnd([c])
    decreases |t|
  {
    if t == "" {
      assert [c] + t == [c];
    } else if IsSpace(t[|t| - 1]) {
      assert ([c] + t)[..|t|] == [c] + t[..|t| - 1];
      StripEndCons(c, t[..|t| - 1]);
    }
  }

  lemma StripOne(c: char)
    requires !IsSpace(c)
    ensures StripEnd([c]) == [c]
  {
  }

  lemma {:induction false} StripEndTail(p: string, x: string)
    requires p != "" && !IsSpace(p[|p| - 1])
    ensures StripEnd(p + x) == p + StripEnd(x)
    decreases |p|
  {
    hide IsSpace, StripEnd;
    var c, q := p[0], p[1..];
    assert p == [c] + q;
    assert p + x == [c] + (q + x);
    StripEndCons(c, q + x);
    if q == "" {
      assert q + x == x;
      StripOne(c);
    } else {
      assert q[|q| - 1] == p[|p| - 1];
      StripEndTail(q, x);
      assert p + StripEnd(x) == [c] + (q + StripEnd(x));
    }
  }

  lemma StripAround(t: string)
    ensures SkipSpaces(StripEnd(" " + t + "\n")) == Strip(t)
  {
    var x := " " + t + "\n";
    assert x[..|x| - 1] == " " + t;
    StripEndCons(' ', t);
    assert StripEnd(" ") == "";
    assert (" " + StripEnd(t))[1..] == StripEnd(t);
  }

  /** A line with any value that has no newline: the value loses the white space at its
      edges, and if nothing is left the line sets nothing. */
  lemma AnyLine(name: string, t: string)
    requires GoodName(name)
    ensures NameAndValue(Strip(name + " = " + t + "\n")) == if Strip(t) == "" then None else Some((name, Strip(t)))
  {
    hide SkipSpaces, NameLength, StripEnd;
    var p, x := name + " =", " " + t + "\n";
    assert name + " = " + t + "\n" == p + x;
    StripEndTail(p, x);
    var s := p + StripEnd(x);
    NoSkip(s);
    assert s == name + (" =" + StripEnd(x));
    NameEnds(name, " =" + StripEnd(x));
    var u := "=" + StripEnd(x);
    assert s[|name| + 1..] == u && s[..|name|] == name;
    NoSkip(u);
    assert u[1..] == StripEnd(x);
    StripAround(t);
  }

  lemma {:induction false} SkipShorter(s: string)
    ensures |SkipSpaces(s)| <= |s| && (|SkipSpaces(s)| == |s| ==> SkipSpaces(s) == s)
  {
    if s != "" && IsSpace(s[0]) {
      SkipShorter(s[1..]);
    }
  }

  lemma {:induction false} StripEndShorter(s: string)
    ensures |StripEnd(s)| <= |s| && (|StripEnd(s)| == |s| ==> StripEnd(s) == s)
    decreases |s|
  {
    if s != "" && IsSpace(s[|s| - 1]) {
      StripEndShorter(s[..|s| - 1]);
    }
  }

  // ---------- whole files ----------

  predicate GoodField(f: Field) {
    GoodName(f.name) && (Printed(f) ==> GoodText(TextOf(f.kind, f.data)))
  }

  predicate GoodFields(fields: seq<Field>) {
    forall i :: 0 <= i < |fields| ==> GoodField(fields[i])
  }

  /** Setting every printed field in turn. */
  function Apply(target: seq<Field>, fields: seq<Field>): (r: seq<Field>)
    ensures |r| == |target|
    decreases |fields|
  {
    if fields == [] then target
    else Apply(if Printed(fields[0]) then Update(target, fields[0].name, TextOf(fields[0].kind, fields[0].data)) else target,
               fields[1..])
  }

  lemma {:induction false} ReadBody(target: seq<Field>, fields: seq<Field>, rest: string)
    requires GoodFields(fields)
    ensures ReadConfig(target, Body(fields) + rest) == ReadConfig(Apply(target, fields), rest)
    decreases |fields|
  {
    hide ReadConfig, Update, TextOf;
    if fields == [] {
      assert Body(fields) + rest == rest;
    } else {
      var f := fields[0];
      assert GoodField(f);
      if Printed(f) {
        ReadPrinted(target, f, Body(fields[1..]) + rest);
        assert Body(fields) + rest == LineOf(f) + (Body(fields[1..]) + rest);
        ReadBody(Update(target, f.name, TextOf(f.kind, f.data)), fields[1..], rest);
      } else {
        assert Body(fields) == Body(fields[1..]);
        ReadBody(target, fields[1..], rest);
      }
    }
  }

  lemma ReadPrinted(target: seq<Field>, f: Field, rest: string)
    requires GoodField(f) && Printed(f)
    ensures ReadConfig(target, LineOf(f) + rest) == ReadConfig(Update(target, f.name, TextOf(f.kind, f.data)), rest)
  {
    hide ReadConfig, Update, TextOf, ProcessLine;
    var t := TextOf(f.kind, f.data);
    var s := f.name + " = " + t;
    NoNewline(f.name, t);
    assert LineOf(f) + rest == s + "\n" + rest;
    ReadLine(target, s, rest);
    PrintedLine(target, f.name, t);
  }

  lemma NoNewline(name: string, t: string)
    requires GoodName(name) && GoodText(t)
    ensures var s := name + " = " + t; |s| < 2047 && forall i :: 0 <= i < |s| ==> s[i] != '\n'
  {
  }

  /** Reading what was printed sets every printed field. */
  lemma ReadPrint(target: seq<Field>, fields: seq<Field>)
    requires GoodFields(fields)
    ensures ReadConfig(target, Print(fields)) == Apply(target, fields)
  {
    hide ReadConfig, ProcessLine, Apply, Body;
    var first, last := "# BEGIN RECORD 2.1.6", "# END RECORD";
    assert BEGIN_REC == first + "\n" && END_REC == last + "\n" + "";
    assert Print(fields) == first + "\n" + (Body(fields) + END_REC);
    ReadLine(target, first, Body(fields) + END_REC);
    CommentLine(target, first);
    ReadBody(target, fields, END_REC);
    ReadLine(Apply(target, fields), last, "");
    CommentLine(Apply(target, fields), last);
    ReadNothing(Apply(target, fields));
  }

  lemma ReadNothing(fields: seq<Field>)
    ensures ReadConfig(fields, "") == fields
  {
  }

  // ---------- strings ----------

  /** Setting the one string field of a table. */
  lemma UpdateText(t: Field, v: string)
    requires t.kind.Text?
    ensures Update([t], t.name, v) == [t.(data := TextValue(Fit(v, t.kind.size)))]
  {
    hide LengthText, IsPassword;
    assert Find([t], t.name) == Some(0);
    assert t.name != t.name + "_length";
  }

  /** A file of one line between the marks. */
  lemma ReadOneLine(t: Field, name: string, p: string)
    requires GoodName(name) && |p| < 256 && '\n' !in p && t.name == name && t.kind.Text?
    ensures var line := name + " = " + p;
            ReadConfig([t], BEGIN_REC + (line + "\n") + END_REC) ==
            if Strip(p) == "" then [t] else [t.(data := TextValue(Fit(Strip(p), t.kind.size)))]
  {
    hide ReadConfig, ProcessLine;
    var line := name + " = " + p;
    var d := if Strip(p) == "" then [t] else [t.(data := TextValue(Fit(Strip(p), t.kind.size)))];
    assert BEGIN_REC + (line + "\n") + END_REC == "# BEGIN RECORD 2.1.6" + "\n" + (line + "\n" + END_REC);
    ReadMark([t], "# BEGIN RECORD 2.1.6", line + "\n" + END_REC);
    assert forall i :: 0 <= i < |line| ==> line[i] != '\n';
    ReadLine([t], line, END_REC);
    ValueLine(t, name, p);
    assert END_REC == "# END RECORD" + "\n" + "";
    ReadMark(d, "# END RECORD", "");
    ReadNothing(d);
  }

  lemma ReadMark(fields: seq<Field>, c: string, rest: string)
    requires 0 < |c| < 2047 && !IsSpace(c[|c| - 1]) && c[0] == '#' && forall i :: 0 <= i < |c| ==> c[i] != '\n'
    ensures ReadConfig(fields, c + "\n" + rest) == ReadConfig(fields, rest)
  {
    hide ReadConfig, ProcessLine;
    ReadLine(fields, c, rest);
    CommentLine(fields, c);
  }

  lemma ValueLine(t: Field, name: string, p: string)
    requires GoodName(name) && t.name == name && t.kind.Text?
    ensures ProcessLine([t], name + " = " + p + "\n") ==
            if Strip(p) == "" then [t] else [t.(data := TextValue(Fit(Strip(p), t.kind.size)))]
  {
    hide SkipSpaces, StripEnd, NameAndValue, Update;
    AnyLine(name, p);
    LineBegins(name, p);
    UpdateText(t, Strip(p));
  }

  lemma LineBegins(name: string, p: string)
    requires GoodName(name)
    ensures var s := Strip(name + " = " + p + "\n"); s != "" && s[0] == name[0]
  {
    hide StripEnd;
    var q, x := name + " =", " " + p + "\n";
    assert name + " = " + p + "\n" == q + x;
    StripEndTail(q, x);
    NoSkip(q + StripEnd(x));
  }

  // A value read from a file has no newline.

  lemma {:induction false} LineInside(s: string, room: nat)
    ensures forall i :: 0 <= i < LineLength(s, room) - 1 ==> s[i] != '\n'
  {
    if s != "" && room > 0 && s[0] != '\n' {
      LineInside(s[1..], room - 1);
    }
  }

  lemma {:induction false} StripEndPart(s: string)
    ensures StripEnd(s) <= s
    ensures s != "" && IsSpace(s[|s| - 1]) ==> |StripEnd(s)| < |s|
    decreases |s|
  {
    if s != "" && IsSpace(s[|s| - 1]) {
      StripEndPart(s[..|s| - 1]);
    }
  }

  lemma {:induction false} SkipPart(s: string)
    ensures var n := |s| - |SkipSpaces(s)|; 0 <= n && SkipSpaces(s) == s[n..]
  {
    if s != "" && IsSpace(s[0]) {
      SkipPart(s[1..]);
    }
  }

  lemma SkipNone(s: string, c: char)
    requires c !in s
    ensures c !in SkipSpaces(s)
  {
    hide SkipSpaces;
    SkipPart(s);
  }

  lemma ValueOneLine(line: string)
    requires line != "" && line[|line| - 1] == '\n' && forall i :: 0 <= i < |line| - 1 ==> line[i] != '\n'
    ensures var p := NameAndValue(Strip(line)); p.Some? ==> '\n' !in p.value.1
  {
    hide SkipSpaces, StripEnd, NameLength;
    StripEndPart(line);
    SkipNone(StripEnd(line), '\n');
    var s := Strip(line);
    var n := NameLength(s);
    if n < |s| {
      SkipNone(s[n + 1..], '\n');
      var u := SkipSpaces(s[n + 1..]);
      if u != "" {
        SkipNone(u[1..], '\n');
      }
    }
  }

  /** `d` is `t` as it was or with a string of one line. */
  predicate OneLined(t: Field, d: seq<Field>) {
    && |d| == 1 && d[0] == t.(data := d[0].data)
    && (d[0].data == t.data || (d[0].data.TextValue? && '\n' !in d[0].data.s))
  }

  lemma UpdateOneLined(t: Field, d: seq<Field>, name: string, v: string)
    requires t.kind.Text? && OneLined(t, d) && '\n' !in v
    ensures OneLined(t, Update(d, name, v))
  {
    hide LengthText, IsPassword;
    if d[0].name == name {
      UpdateText(d[0], v);
    } else {
      assert Find(d, name) == None;
    }
  }

  lemma LineOneLined(t: Field, d: seq<Field>, line: string)
    requires t.kind.Text? && OneLined(t, d) && forall i :: 0 <= i < |line| - 1 ==> line[i] != '\n'
    ensures OneLined(t, ProcessLine(d, line))
  {
    hide Strip, NameAndValue, Update, OneLined;
    if line != "" && line[|line| - 1] == '\n' {
      ValueOneLine(line);
      var p := NameAndValue(Strip(line));
      if p.Some? {
        UpdateOneLined(t, d, p.value.0, p.value.1);
      }
    }
  }

  lemma {:induction false} FileOneLined(t: Field, d: seq<Field>, text: string)
    requires t.kind.Text? && OneLined(t, d)
    ensures OneLined(t, ReadConfig(d, text))
    decreases |text|
  {
    hide ProcessLine, LineLength, OneLined;
    if text != "" {
      var n := LineLength(text, LINE_MAX);
      LineInside(text, LINE_MAX);
      LineOneLined(t, d, text[..n]);
      FileOneLined(t, ProcessLine(d, text[..n]), text[n..]);
    }
  }

  lemma FitExact(p: string, s: string, size: nat)
    requires p == Fit(s, VALUE_MAXVAL)
    ensures Fit(Strip(p), size) == s && Strip(p) != "" <==>
            s != "" && Strip(s) == s && |s| < 256 && |s| < size
  {
    hide SkipSpaces, StripEnd;
    StripEndShorter(p);
    SkipShorter(StripEnd(p));
  }

  /** A string field comes back from a record file exactly if it is not empty, has no white
      space at its edges and no newline, and fits both the printer's value and the field. */
  lemma TextExact(f: Field, t: Field)
    requires GoodName(f.name) && f.kind.Text? && f.visible != Hide && f.data.TextValue?
    requires t.name == f.name && t.kind == f.kind && t.data != f.data
    ensures var s := f.data.s;
            ReadConfig([t], Print([f])) == [t.(data := f.data)] <==>
            s != "" && Strip(s) == s && '\n' !in s && |s| < 256 && |s| < f.kind.size
  {
    hide ReadConfig, Strip;
    var s, p := f.data.s, Fit(f.data.s, VALUE_MAXVAL);
    if '\n' in p {
      FileOneLined(t, [t], Print([f]));
    } else if p == "" {
      assert Body([f]) == "";
      ReadPrint([t], [f]);
    } else {
      OneBody(f);
      ReadOneLine(t, f.name, p);
      FitExact(p, s, f.kind.size);
    }
  }

  lemma OneBody(f: Field)
    requires Printed(f)
    ensures Print([f]) == BEGIN_REC + (f.name + " = " + TextOf(f.kind, f.data) + "\n") + END_REC
  {
    hide TextOf;
    assert [f][1..] == [];
    assert Body([f]) == LineOf(f) + "";
  }

  /** A string with a newline comes back as its first line, the rest is lost. */
  lemma NewlineCuts()
    ensures var f := Field("k", Text(10), Show, TextValue("a\nb"));
            ReadConfig([f], Print([f])) == [f.(data := TextValue("a"))]
  {
    hide ReadConfig, ProcessLine, Print, Update, IsSpace;
    var f := Field("k", Text(10), Show, TextValue("a\nb"));
    var d := [f.(data := TextValue("a"))];
    OneBody(f);
    NoSpaces();
    assert Print([f]) == "# BEGIN RECORD 2.1.6" + "\n" + ("k = a" + "\n" + ("b" + "\n" + ("# END RECORD" + "\n" + "")));
    ReadMark([f], "# BEGIN RECORD 2.1.6", "k = a" + "\n" + ("b" + "\n" + ("# END RECORD" + "\n" + "")));
    ReadLine([f], "k = a", "b" + "\n" + ("# END RECORD" + "\n" + ""));
    PrintedLine([f], "k", "a");
    assert "k" + " = " + "a" + "\n" == "k = a" + "\n";
    UpdateText(f, "a");
    ReadLine(d, "b", "# END RECORD" + "\n" + "");
    NoEquals(d);
    ReadMark(d, "# END RECORD", "");
    ReadNothing(d);
  }

  lemma NoSpaces()
    ensures !IsSpace('k') && !IsSpace('a') && !IsSpace('b') && !IsSpace('6') && !IsSpace('D')
  {
  }

  lemma NoEquals(d: seq<Field>)
    ensures ProcessLine(d, "b" + "\n") == d
  {
    hide Strip;
    StripNewline("b");
    assert "b"[1..] == "";
  }

  // ---------- what may stand between a name and its value ----------

  predicate Blank(w: string) {
    forall i :: 0 <= i < |w| ==> IsSpace(w[i])
  }

  lemma {:induction false} SkipBlanks(w: string, rest: string)
    requires Blank(w) && (rest != "" ==> !IsSpace(rest[0]))
    ensures SkipSpaces(w + rest) == rest
  {
    if w == "" {
      assert w + rest == rest;
    } else {
      SkipBlanks(w[1..], rest);
      assert (w + rest)[1..] == w[1..] + rest;
    }
  }

  /** The first equals sign, or the end. */
  function EqualsAt(w: string): (e: nat)
    ensures e <= |w| && '=' !in w[..e] && (e < |w| ==> w[e] == '=')
  {
    if w == "" || w[0] == '=' then 0
    else
      var e := EqualsAt(w[1..]) + 1;
      assert w[..e] == [w[0]] + w[1..][..e - 1];
      e
  }

  /** Behind the name one character is passed over, then blanks. */
  lemma ParseRest(name: string, c: char, b: string, u: string)
    requires forall i :: 0 <= i < |name| ==> !IsSpace(name[i]) && name[i] != '='
    requires (IsSpace(c) || c == '=') && Blank(b) && u != "" && !IsSpace(u[0])
    ensures NameAndValue(name + ([c] + b + u)) ==
            if u[0] != '=' || SkipSpaces(u[1..]) == "" then None else Some((name, SkipSpaces(u[1..])))
  {
    hide SkipSpaces, NameLength, IsSpace;
    var s := name + ([c] + b + u);
    NameEnds(name, [c] + b + u);
    assert s[..|name|] == name && s[|name| + 1..] == b + u;
    SkipBlanks(b, u);
  }

  /** Behind the equals sign: further ones belong to the value. */
  lemma AfterEquals(x: string, v: string)
    requires forall i :: 0 <= i < |x| ==> IsSpace(x[i]) || x[i] == '='
    requires v != "" && !IsSpace(v[0]) && v[0] != '='
    ensures SkipSpaces(x + v) != ""
    ensures SkipSpaces(x + v) == v <==> '=' !in x
  {
    hide SkipSpaces, EqualsAt;
    var e := EqualsAt(x);
    if e == |x| {
      assert x[..e] == x;
      SkipBlanks(x, v);
    } else {
      var rest := x[e..] + v;
      assert x + v == x[..e] + rest && rest[0] == '=';
      SkipBlanks(x[..e], rest);
    }
  }

  /** A name and a value with blanks and equals signs between them.  Whatever the first of
      these characters is, it is passed over: the line is read as that name and that value
      if and only if there is exactly one equals sign among the others, and is refused if
      and only if there is none. */
  lemma Separators(name: string, c: char, w: string, v: string)
    requires name != "" && (forall i :: 0 <= i < |name| ==> !IsSpace(name[i]) && name[i] != '=')
    requires (IsSpace(c) || c == '=') && forall i :: 0 <= i < |w| ==> IsSpace(w[i]) || w[i] == '='
    requires v != "" && !IsSpace(v[0]) && v[0] != '='
    ensures NameAndValue(name + ([c] + w + v)) == Some((name, v)) <==> multiset(w)['='] == 1
    ensures NameAndValue(name + ([c] + w + v)) == None <==> multiset(w)['='] == 0
  {
    hide NameAndValue, EqualsAt, SkipSpaces;
    var e := EqualsAt(w);
    if e == |w| {
      assert w[..e] == w;
      ParseRest(name, c, w, v);
    } else {
      var b, x := w[..e], w[e + 1..];
      var u := "=" + x + v;
      assert w == b + "=" + x;
      assert [c] + w + v == [c] + b + u && u[1..] == x + v;
      ParseRest(name, c, b, u);
      AfterEquals(x, v);
    }
  }

  lemma {:induction false} StripBlanks(b: string)
    requires Blank(b)
    ensures StripEnd(b) == ""
    decreases |b|
  {
    if b != "" {
      StripBlanks(b[..|b| - 1]);
    }
  }

  /** White space: horizontal tab to carriage return, and the blank. */
  predicate White(w: string) {
    forall i :: 0 <= i < |w| ==> 9 <= w[i] as int <= 13 || w[i] as int == 32
  }

  lemma WhiteIs(w: string)
    requires White(w)
    ensures Blank(w) && Blank(w + "\n") && (w != "" ==> IsSpace(w[0]) && Blank(w[1..]))
  {
  }

  /** White space does not matter before the name, around the equals sign, of which one
      character at least must come first, and behind the value. */
  lemma AnySpacing(fields: seq<Field>, lead: string, name: string, gap: string, gap': string, value: string, trail: string)
    requires GoodName(name) && value != "" && !IsSpace(value[0]) && !IsSpace(value[|value| - 1])
    requires White(lead) && White(gap) && gap != "" && White(gap') && White(trail)
    ensures ProcessLine(fields, lead + (name + (gap + ("=" + (gap' + value)))) + trail + "\n") == Update(fields, name, value)
  {
    hide StripEnd, SkipSpaces, NameAndValue, Update, IsSpace, Blank, White;
    WhiteIs(lead);
    WhiteIs(gap);
    WhiteIs(gap');
    WhiteIs(trail);
    var u := "=" + (gap' + value);
    var s := name + (gap + u);
    var p, x := lead + s, trail + "\n";
    StripBlanks(x);
    StripEndTail(p, x);
    assert p + x == lead + s + trail + "\n" && p + "" == p && s[0] == name[0];
    SkipBlanks(lead, s);
    assert [gap[0]] + gap[1..] + u == gap + u && u[1..] == gap' + value && !IsSpace('=') by { hide *; NotSpace(); }
    ParseRest(name, gap[0], gap[1..], u);
    SkipBlanks(gap', value);
  }

  lemma NotSpace()
    ensures !IsSpace('=')
  {
  }

  /** So a blank is not needed, but something is. */
  lemma SeparatorExamples()
    ensures NameAndValue("k=v") == None
    ensures NameAndValue("k==v") == Some(("k", "v"))
    ensures NameAndValue("k = v") == Some(("k", "v"))
  {
    hide NameAndValue;
    assert "k" + ("=" + "" + "v") == "k=v" && "k" + ("=" + "=" + "v") == "k==v" && "k" + (" " + "= " + "v") == "k = v";
    Separators("k", '=', "", "v");
    Separators("k", '=', "=", "v");
    assert "= " == "=" + " ";
    Separators("k", ' ', "= ", "v");
  }
}
