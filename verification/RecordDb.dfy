/** Records of usr/idbm.c: typed fields printed as "name = value" lines, and a parser that
    updates fields by name. */
module RecordDb {
  import opened CText

  const VALUE_MAXVAL := 256
  const LINE_MAX := 2047
  const UNSET := -1
  const BEGIN_REC := "# BEGIN RECORD 2.1.6\n"
  const END_REC := "# END RECORD\n"

  datatype Choice = Choice(name: string, value: int)

  datatype Width = Bits8 | Bits16 | Bits32

  function Span(w: Width): (n: nat)
    ensures n > 0
  {
    match w case Bits8 => 0x100 case Bits16 => 0x1_0000 case Bits32 => 0x1_0000_0000
  }

  /** The types of a recinfo entry: a 32-bit integer, an unsigned one, a string buffer, an
      index into options, and a list of values from a table. */
  datatype Kind =
    | SignedInt
    | UnsignedInt(width: Width)
    | Text(size: nat)
    | Option_(opts: seq<string>)
    | List(tbl: seq<Choice>, len: nat)

  datatype Value = IntValue(n: int) | TextValue(s: string) | ListValue(l: seq<int>)

  datatype Visible = Hide | Show | Masked

  datatype Field = Field(name: string, kind: Kind, visible: Visible, data: Value)

  // ---------- printing ----------

  function NameOf(tbl: seq<Choice>, v: int): Option<string> {
    if tbl == [] then None else if tbl[0].value == v then Some(tbl[0].name) else NameOf(tbl[1..], v)
  }

  /** The table's names of the values that are set and known. */
  function Names(tbl: seq<Choice>, l: seq<int>): seq<string> {
    if l == [] then []
    else
      var rest := Names(tbl, l[1..]);
      if l[0] != UNSET && NameOf(tbl, l[0]).Some? then [NameOf(tbl, l[0]).value] + rest else rest
  }

  /** The text of a field, as the recinfo macros make it. */
  function TextOf(kind: Kind, data: Value): string {
    match kind
    case SignedInt => if data.IntValue? then SignedDecimal(data.n) else ""
    case UnsignedInt(_) => if data.IntValue? && data.n >= 0 then Decimal(data.n) else ""
    case Text(_) => if data.TextValue? then Fit(data.s, VALUE_MAXVAL) else ""
    case Option_(opts) => if data.IntValue? && 0 <= data.n < |opts| then Fit(opts[data.n], VALUE_MAXVAL) else ""
    case List(tbl, _) => if data.ListValue? then Join(Names(tbl, data.l)) else ""
  }

  /** A field whose line goes into the file: visible, and not empty. */
  predicate Printed(f: Field) { f.visible != Hide && TextOf(f.kind, f.data) != "" }

  function LineOf(f: Field): string { f.name + " = " + TextOf(f.kind, f.data) + "\n" }

  function Body(fields: seq<Field>): string {
    if fields == [] then "" else (if Printed(fields[0]) then LineOf(fields[0]) else "") + Body(fields[1..])
  }

  /** idbm_print into a record file */
  function Print(fields: seq<Field>): string { BEGIN_REC + Body(fields) + END_REC }

  // ---------- reading values ----------

  function ToSigned32(n: nat): int {
    var m := n % 0x1_0000_0000;
    if m < 0x8000_0000 then m else m - 0x1_0000_0000
  }

  function IndexOf(opts: seq<string>, value: string): Option<nat> {
    if opts == [] then None
    else if opts[0] == value then Some(0)
    else match IndexOf(opts[1..], value) case Some(i) => Some(i + 1) case None => None
  }

  predicate IsSep(c: char) { c == ',' || c == ' ' || c == '\n' }

  function SepAt(s: string): (n: nat)
    ensures n <= |s| && (n < |s| ==> IsSep(s[n])) && forall i :: 0 <= i < n ==> !IsSep(s[i])
  {
    if s == "" || IsSep(s[0]) then 0 else 1 + SepAt(s[1..])
  }

  /** strsep at commas, blanks and newlines, without empty tokens */
  function Tokens(s: string): seq<string>
    decreases |s|
  {
    var n := SepAt(s);
    (if n == 0 then [] else [s[..n]]) + (if n < |s| then Tokens(s[n + 1..]) else [])
  }

  lemma {:induction false} SepAtIs(s: string, n: nat)
    requires n <= |s| && (n < |s| ==> IsSep(s[n])) && forall i :: 0 <= i < n ==> !IsSep(s[i])
    ensures SepAt(s) == n
  {
    if n > 0 {
      SepAtIs(s[1..], n - 1);
    }
  }

  lemma TokensUnfold(s: string, n: nat)
    requires n <= |s| && (n < |s| ==> IsSep(s[n])) && forall i :: 0 <= i < n ==> !IsSep(s[i])
    ensures Tokens(s) == (if n == 0 then [] else [s[..n]]) + (if n < |s| then Tokens(s[n + 1..]) else [])
  {
    hide SepAt;
    SepAtIs(s, n);
  }

  function Lookup(tbl: seq<Choice>, token: string): Option<int> {
    if tbl == [] then None else if tbl[0].name == token then Some(tbl[0].value) else Lookup(tbl[1..], token)
  }

  /** The known tokens, each once, as far as there is room. */
  function Gather(tbl: seq<Choice>, tokens: seq<string>, taken: seq<string>, room: nat): seq<int> {
    if tokens == [] || room == 0 then []
    else if Lookup(tbl, tokens[0]).None? || tokens[0] in taken then Gather(tbl, tokens[1..], taken, room)
    else [Lookup(tbl, tokens[0]).value] + Gather(tbl, tokens[1..], taken + [tokens[0]], room - 1)
  }

  function PadList(l: seq<int>, len: nat): seq<int> {
    if |l| < len then l + seq(len - |l|, _ => UNSET) else l
  }

  /** idbm_rec_update_param, for one type */
  function ReadValue(kind: Kind, value: string): Option<Value> {
    match kind
    case SignedInt => Some(IntValue(ToSigned32(Strtoul(value, 10).value)))
    case UnsignedInt(w) => Some(IntValue(Strtoul(value, 10).value % Span(w)))
    case Text(size) => Some(TextValue(Fit(value, size)))
    case Option_(opts) => (match IndexOf(opts, value) case Some(i) => Some(IntValue(i)) case None => None)
    case List(tbl, len) => Some(ListValue(PadList(Gather(tbl, Tokens(value), [], len), len)))
  }

  // ---------- updating ----------

  function Find(fields: seq<Field>, name: string): (r: Option<nat>)
    ensures r.Some? ==> r.value < |fields| && fields[r.value].name == name
    ensures r.None? ==> forall i :: 0 <= i < |fields| ==> fields[i].name != name
  {
    if fields == [] then None
    else if fields[0].name == name then Some(0)
    else
      match Find(fields[1..], name)
      case Some(i) => Some(i + 1)
      case None =>
        assert forall i :: 1 <= i < |fields| ==> fields[i] == fields[1..][i - 1];
        None
  }

  const PASSWORDS := [
    "node.session.auth.password", "node.session.auth.password_in",
    "discovery.sendtargets.auth.password", "discovery.sendtargets.auth.password_in",
    "discovery.slp.auth.password", "discovery.slp.auth.password_in",
    "host.auth.password", "host.auth.password_in"]

  predicate IsPassword(name: string) { name in PASSWORDS }

  /** "%.7d" of the length of a password */
  function LengthText(n: nat): string {
    var d := Decimal(n % 0x1_0000);
    seq(if |d| < 7 then 7 - |d| else 0, _ => '0') + d
  }

  function SetField(fields: seq<Field>, name: string, value: string): (r: (seq<Field>, bool))
    ensures |r.0| == |fields|
  {
    match Find(fields, name)
    case None => (fields, false)
    case Some(i) =>
      (match ReadValue(fields[i].kind, value)
       case None => (fields, false)
       case Some(v) => (fields[i := fields[i].(data := v)], true))
  }

  /** idbm_rec_update_param: setting a password also sets its length */
  function Update(fields: seq<Field>, name: string, value: string): (r: seq<Field>)
    ensures |r| == |fields|
  {
    var r := SetField(fields, name, value);
    if r.1 && IsPassword(name) then SetField(r.0, name + "_length", LengthText(|value|)).0 else r.0
  }

  // ---------- reading files ----------

  /** fgets: up to and with the next newline, but at most a buffer */
  function LineLength(s: string, room: nat): (n: nat)
    ensures n <= |s| && n <= room
    ensures s != "" && room > 0 ==> n > 0
  {
    if s == "" || room == 0 then 0 else if s[0] == '\n' then 1 else 1 + LineLength(s[1..], room - 1)
  }

  function StripEnd(s: string): (r: string)
    ensures |r| <= |s|
  {
    if s != "" && IsSpace(s[|s| - 1]) then StripEnd(s[..|s| - 1]) else s
  }

  function Strip(s: string): string { SkipSpaces(StripEnd(s)) }

  function NameLength(s: string): (n: nat)
    ensures n <= |s|
  {
    if s == "" || IsSpace(s[0]) || s[0] == '=' then 0 else 1 + NameLength(s[1..])
  }

  /** A line's name and value.  One character behind the name is passed over unseen, be it a
      blank or an equals sign. */
  function NameAndValue(s: string): Option<(string, string)> {
    var n := NameLength(s);
    if n == |s| then None
    else
      var u := SkipSpaces(s[n + 1..]);
      if u == "" || u[0] != '=' then None
      else
        var v := SkipSpaces(u[1..]);
        if v == "" then None else Some((s[..n], v))
  }

  function ProcessLine(fields: seq<Field>, line: string): (r: seq<Field>)
    ensures |r| == |fields|
  {
    if line == "" || line[|line| - 1] != '\n' then fields
    else
      var s := Strip(line);
      if s == "" || s[0] == '#' then fields
      else match NameAndValue(s) case None => fields case Some(p) => Update(fields, p.0, p.1)
  }

  /** idbm_recinfo_config */
  function ReadConfig(fields: seq<Field>, text: string): (r: seq<Field>)
    ensures |r| == |fields|
    decreases |text|
  {
    if text == "" then fields
    else
      var n := LineLength(text, LINE_MAX);
      ReadConfig(ProcessLine(fields, text[..n]), text[n..])
  }
}
