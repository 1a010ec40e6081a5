/** Printing a record and reading it back through the same table. */
module RecordRoundTrips {
  import opened CText
  import opened RecordDb
  import opened RecordLines
  import opened RecordValues

  /** A field whose value its text can carry. */
  predicate Carried(f: Field) {
    match f.kind
    case SignedInt => f.data.IntValue? && -0x8000_0000 <= f.data.n < 0x8000_0000
    case UnsignedInt(w) => f.data.IntValue? && 0 <= f.data.n < Limit(w)
    case Text(size) => f.data.TextValue? && (f.data.s == "" || (GoodText(f.data.s) && |f.data.s| < size))
    case Option_(opts) =>
      && f.data.IntValue? && 0 <= f.data.n < |opts| && AllDistinct(opts) && GoodText(opts[f.data.n])
    case List(tbl, len) =>
      && f.data.ListValue? && |f.data.l| == len && GoodTable(tbl)
      && |Join(Names(tbl, f.data.l))| < 256
  }

  /** What becomes of a value: itself, except that a list keeps its known values only, each
      once. */
  ghost function Restored(kind: Kind, data: Value): Value {
    if kind.List? && data.ListValue? then ListValue(Padded(Unique(Known(kind.tbl, data.l), []), kind.len)) else data
  }

  lemma ValueRestored(f: Field)
    requires Carried(f) && Printed(f)
    ensures ReadValue(f.kind, TextOf(f.kind, f.data)) == Some(Restored(f.kind, f.data))
  {
    hide Join, Names, Known, Unique, GoodTable, Strtoul, Decimal, SignedDecimal, Gather, Tokens, IndexOf, AllDistinct;
    match f.kind
    case SignedInt => SignedRestored(f.data.n);
    case UnsignedInt(w) => UnsignedRestored(f.data.n, w);
    case Text(size) =>
    case Option_(opts) => IndexRestored(opts, f.data.n);
    case List(tbl, len) => ListRestored(tbl, f.data.l, len);
  }

  lemma TextGood(f: Field)
    requires Carried(f) && Printed(f)
    ensures GoodText(TextOf(f.kind, f.data))
  {
    hide Join, Names, GoodTable, Decimal, SignedDecimal;
    match f.kind
    case SignedInt => SignedGood(f.data.n);
    case UnsignedInt(w) => SignedGood(f.data.n);
    case Text(size) =>
    case Option_(opts) =>
    case List(tbl, len) => ListGood(tbl, f.data.l);
  }

  predicate Tight(s: string) {
    s != "" && !IsSpace(s[0]) && !IsSpace(s[|s| - 1]) && forall i :: 0 <= i < |s| ==> s[i] != '\n'
  }

  lemma {:induction false} JoinTight(names: seq<string>)
    requires names != [] && forall i :: 0 <= i < |names| ==> Plain(names[i])
    ensures Tight(Join(names))
  {
    if |names| > 1 {
      JoinTight(names[1..]);
    }
  }

  lemma ListGood(tbl: seq<Choice>, l: seq<int>)
    requires GoodTable(tbl) && Join(Names(tbl, l)) != "" && |Join(Names(tbl, l))| < 256
    ensures GoodText(Join(Names(tbl, l)))
  {
    hide GoodTable;
    NamesMatch(tbl, l);
    var names := Names(tbl, l);
    forall i | 0 <= i < |names| ensures Plain(names[i]) {
      LookupName(tbl, Known(tbl, l)[i]);
    }
    JoinTight(names);
  }

  // ---------- tables ----------

  /** Distinct good names, values that can be carried, and lengths of passwords hidden. */
  predicate Printable(fields: seq<Field>) {
    && (forall i :: 0 <= i < |fields| ==> GoodName(fields[i].name) && (Printed(fields[i]) ==> Carried(fields[i])))
    && (forall i, j :: 0 <= i < j < |fields| ==> fields[i].name != fields[j].name)
    && (forall i, j :: 0 <= i < |fields| && 0 <= j < |fields| && LengthOf(fields[i], fields[j]) ==>
          !Printed(fields[i]) && fields[i].kind == SignedInt)
  }

  /** `f` is the length of the printed password `p`. */
  predicate LengthOf(f: Field, p: Field) {
    Printed(p) && IsPassword(p.name) && f.name == p.name + "_length"
  }

  predicate SameTable(a: seq<Field>, b: seq<Field>) {
    |a| == |b| && forall i :: 0 <= i < |a| ==> a[i].name == b[i].name && a[i].kind == b[i].kind
  }

  lemma PrintableGood(fields: seq<Field>)
    requires Printable(fields)
    ensures GoodFields(fields)
  {
    forall i | 0 <= i < |fields| ensures GoodField(fields[i]) {
      if Printed(fields[i]) {
        TextGood(fields[i]);
      }
    }
  }

  lemma {:induction false} FindIs(fields: seq<Field>, k: nat)
    requires k < |fields| && forall i, j :: 0 <= i < j < |fields| ==> fields[i].name != fields[j].name
    ensures Find(fields, fields[k].name) == Some(k)
  {
    if k > 0 {
      FindIs(fields[1..], k - 1);
    }
  }

  lemma NamesDiffer(a: seq<Field>, b: seq<Field>)
    requires Printable(a) && SameTable(a, b)
    ensures forall i, j :: 0 <= i < j < |b| ==> b[i].name != b[j].name
  {
  }

  /** Setting the field at `k` to the text of `fields[k]`. */
  lemma SetPrinted(fields: seq<Field>, target: seq<Field>, k: nat)
    requires Printable(fields) && SameTable(fields, target) && k < |fields| && Printed(fields[k])
    ensures var f := fields[k];
            SetField(target, f.name, TextOf(f.kind, f.data)) == (target[k := target[k].(data := Restored(f.kind, f.data))], true)
  {
    hide ReadValue, TextOf, Restored, Carried;
    NamesDiffer(fields, target);
    FindIs(target, k);
    ValueRestored(fields[k]);
  }

  lemma PrintedShort(fields: seq<Field>, k: nat)
    requires Printable(fields) && k < |fields| && Printed(fields[k])
    ensures |TextOf(fields[k].kind, fields[k].data)| < 256
  {
    hide TextOf, Carried;
    TextGood(fields[k]);
  }

  lemma SetLength(fields: seq<Field>, target: seq<Field>, k: nat, i: nat)
    requires Printable(fields) && SameTable(fields, target) && k < |fields| && i < |fields| && LengthOf(fields[i], fields[k])
    ensures var n := |TextOf(fields[k].kind, fields[k].data)|;
            SetField(target, fields[k].name + "_length", LengthText(n)).0 == target[i := target[i].(data := IntValue(n))]
  {
    hide ReadValue, TextOf, LengthText, Carried;
    NamesDiffer(fields, target);
    FindIs(target, i);
    PrintedShort(fields, k);
    LengthRestored(|TextOf(fields[k].kind, fields[k].data)|);
  }

  /** The value of field `i` once the fields from `k` on have been read. */
  ghost predicate ReadFrom(fields: seq<Field>, target: seq<Field>, k: nat, i: nat, data: Value)
    requires i < |fields| && i < |target|
  {
    && (i >= k && Printed(fields[i]) ==> data == Restored(fields[i].kind, fields[i].data))
    && (forall j :: k <= j < |fields| && LengthOf(fields[i], fields[j]) ==>
          data == IntValue(|TextOf(fields[j].kind, fields[j].data)|))
    && (!(i >= k && Printed(fields[i])) && (forall j :: k <= j < |fields| ==> !LengthOf(fields[i], fields[j])) ==>
          data == target[i].data)
  }

  /** What one update does to each field. */
  lemma UpdateOne(fields: seq<Field>, target: seq<Field>, k: nat)
    requires Printable(fields) && SameTable(fields, target) && k < |fields| && Printed(fields[k])
    ensures var f := fields[k]; var d := Update(target, f.name, TextOf(f.kind, f.data));
            && SameTable(fields, d)
            && (forall i :: 0 <= i < |d| ==>
                  d[i].data == if i == k then Restored(f.kind, f.data)
                               else if LengthOf(fields[i], f) then IntValue(|TextOf(f.kind, f.data)|)
                               else target[i].data)
  {
    hide TextOf, Restored, SetField, LengthText, Carried, IsPassword;
    var f := fields[k];
    SetPrinted(fields, target, k);
    var t := target[k := target[k].(data := Restored(f.kind, f.data))];
    if IsPassword(f.name) {
      if i :| 0 <= i < |fields| && LengthOf(fields[i], f) {
        SetLength(fields, t, k, i);
      } else {
        NoLength(fields, t, f);
      }
    }
  }

  lemma NoLength(fields: seq<Field>, target: seq<Field>, f: Field)
    requires SameTable(fields, target) && Printed(f) && IsPassword(f.name)
    requires forall i :: 0 <= i < |fields| ==> !LengthOf(fields[i], f)
    ensures SetField(target, f.name + "_length", LengthText(|TextOf(f.kind, f.data)|)).0 == target
  {
    hide TextOf, LengthText, ReadValue;
    forall i | 0 <= i < |target| ensures target[i].name != f.name + "_length" {
      assert !LengthOf(fields[i], f);
    }
  }

  lemma {:induction false} ApplyIs(fields: seq<Field>, target: seq<Field>, k: nat)
    requires Printable(fields) && SameTable(fields, target) && k <= |fields|
    ensures var r := Apply(target, fields[k..]);
            SameTable(fields, r) && forall i :: 0 <= i < |r| ==> ReadFrom(fields, target, k, i, r[i].data)
    decreases |fields| - k
  {
    hide TextOf, Restored, Update, Carried, IsPassword;
    if k < |fields| {
      var f := fields[k];
      assert fields[k..][0] == f && fields[k..][1..] == fields[k + 1..];
      if Printed(f) {
        UpdateOne(fields, target, k);
        var d := Update(target, f.name, TextOf(f.kind, f.data));
        ApplyIs(fields, d, k + 1);
        var r := Apply(d, fields[k + 1..]);
        forall i | 0 <= i < |r| ensures ReadFrom(fields, target, k, i, r[i].data) {
          ReadStep(fields, target, d, k, i, r[i].data);
        }
      } else {
        ApplyIs(fields, target, k + 1);
        var r := Apply(target, fields[k + 1..]);
        forall i | 0 <= i < |r| ensures ReadFrom(fields, target, k, i, r[i].data) {
          assert ReadFrom(fields, target, k + 1, i, r[i].data);
        }
      }
    }
  }

  lemma ReadStep(fields: seq<Field>, target: seq<Field>, d: seq<Field>, k: nat, i: nat, data: Value)
    requires Printable(fields) && k < |fields| && i < |fields| && |target| == |d| == |fields| && Printed(fields[k])
    requires d[i].data == if i == k then Restored(fields[k].kind, fields[k].data)
                          else if LengthOf(fields[i], fields[k]) then IntValue(|TextOf(fields[k].kind, fields[k].data)|)
                          else target[i].data
    requires ReadFrom(fields, d, k + 1, i, data)
    ensures ReadFrom(fields, target, k, i, data)
  {
    hide TextOf, Restored, Carried, IsPassword;
    if LengthOf(fields[i], fields[k]) {
      forall j | k + 1 <= j < |fields| ensures !LengthOf(fields[i], fields[j]) {
        SameOwner(fields[k].name, fields[j].name);
      }
    }
  }

  lemma SameOwner(a: string, b: string)
    ensures a + "_length" == b + "_length" ==> a == b
  {
    if a + "_length" == b + "_length" {
      assert (a + "_length")[..|a|] == a && (b + "_length")[..|b|] == b;
    }
  }

  /** Printing a record and reading the text back into any record of the same table restores
      every printed field, sets the length of every printed password, and changes nothing
      else. */
  lemma PrintedRoundTrip(fields: seq<Field>, target: seq<Field>)
    requires Printable(fields) && SameTable(fields, target)
    ensures var r := ReadConfig(target, Print(fields));
            && SameTable(fields, r)
            && (forall i :: 0 <= i < |r| && Printed(fields[i]) ==> r[i].data == Restored(fields[i].kind, fields[i].data))
            && (forall i, j :: 0 <= i < |r| && 0 <= j < |r| && LengthOf(fields[i], fields[j]) ==>
                  r[i].data == IntValue(|TextOf(fields[j].kind, fields[j].data)|))
            && (forall i :: 0 <= i < |r| && !Printed(fields[i]) && (forall j :: 0 <= j < |r| ==> !LengthOf(fields[i], fields[j]))
                  ==> r[i].data == target[i].data)
  {
    hide TextOf, Restored, Apply, ReadConfig, Print, Carried, IsPassword;
    PrintableGood(fields);
    ReadPrint(target, fields);
    ApplyIs(fields, target, 0);
    assert fields[0..] == fields;
    var r := ReadConfig(target, Print(fields));
    assert forall i :: 0 <= i < |r| ==> ReadFrom(fields, target, 0, i, r[i].data);
  }

  // ---------- in terms of the fields alone ----------

  /** The field has a value of its type: a number, a text that is not empty, an option or at
      least one entry of the table. */
  ghost predicate Valued(f: Field) {
    match f.kind
    case SignedInt => f.data.IntValue?
    case UnsignedInt(_) => f.data.IntValue? && f.data.n >= 0
    case Text(_) => f.data.TextValue? && f.data.s != ""
    case Option_(opts) => f.data.IntValue? && 0 <= f.data.n < |opts| && opts[f.data.n] != ""
    case List(tbl, _) => f.data.ListValue? && exists i :: 0 <= i < |f.data.l| && f.data.l[i] != -1 && InTable(tbl, f.data.l[i])
  }

  ghost predicate Shown(f: Field) { f.visible != Hide && Valued(f) }

  lemma {:induction false} SomeName(tbl: seq<Choice>, l: seq<int>)
    ensures Names(tbl, l) != [] <==> exists i :: 0 <= i < |l| && l[i] != -1 && InTable(tbl, l[i])
  {
    hide InTable, NameOf;
    if l != [] {
      NameOfIs(tbl, l[0]);
      SomeName(tbl, l[1..]);
      if i :| 0 <= i < |l| && l[i] != -1 && InTable(tbl, l[i]) {
        if i > 0 {
          assert l[1..][i - 1] == l[i];
        }
      }
      if i :| 0 <= i < |l[1..]| && l[1..][i] != -1 && InTable(tbl, l[1..][i]) {
        assert l[i + 1] == l[1..][i];
      }
    }
  }

  lemma JoinSome(tbl: seq<Choice>, l: seq<int>)
    requires GoodTable(tbl) && Names(tbl, l) != []
    ensures Join(Names(tbl, l)) != ""
  {
    hide GoodTable;
    NamesMatch(tbl, l);
    var names := Names(tbl, l);
    forall i | 0 <= i < |names| ensures Plain(names[i]) {
      LookupName(tbl, Known(tbl, l)[i]);
    }
    JoinTight(names);
  }

  lemma ShownIsPrinted(f: Field)
    requires Shown(f) ==> Carried(f)
    ensures Printed(f) <==> Shown(f)
  {
    hide Decimal, Join, Names, GoodTable, InTable;
    if f.kind.List? && f.data.ListValue? {
      SomeName(f.kind.tbl, f.data.l);
      if Shown(f) {
        JoinSome(f.kind.tbl, f.data.l);
      }
      NoneJoined();
    }
  }

  lemma NoneJoined()
    ensures Join([]) == ""
  {
  }

  /** The eight parameters that are passwords. */
  predicate Secret(name: string) {
    || name == "node.session.auth.password" || name == "node.session.auth.password_in"
    || name == "discovery.sendtargets.auth.password" || name == "discovery.sendtargets.auth.password_in"
    || name == "discovery.slp.auth.password" || name == "discovery.slp.auth.password_in"
    || name == "host.auth.password" || name == "host.auth.password_in"
  }

  lemma SecretIs(name: string)
    ensures IsPassword(name) <==> Secret(name)
  {
    var p := PASSWORDS;
    assert p[0] == "node.session.auth.password" && p[1] == "node.session.auth.password_in";
    assert p[2] == "discovery.sendtargets.auth.password" && p[3] == "discovery.sendtargets.auth.password_in";
    assert p[4] == "discovery.slp.auth.password" && p[5] == "discovery.slp.auth.password_in";
    assert p[6] == "host.auth.password" && p[7] == "host.auth.password_in";
    if IsPassword(name) {
      var i :| 0 <= i < |p| && p[i] == name;
    }
  }

  /** `f` holds the length of the password `p`, which is shown. */
  ghost predicate CountsSecret(f: Field, p: Field) {
    Shown(p) && Secret(p.name) && f.name == p.name + "_length"
  }

  /** A record of a table with distinct names: its values can be carried by their texts, and
      passwords are texts whose lengths are kept in hidden integers. */
  ghost predicate Storable(fields: seq<Field>) {
    && (forall i :: 0 <= i < |fields| ==> GoodName(fields[i].name) && (Shown(fields[i]) ==> Carried(fields[i])))
    && (forall i, j :: 0 <= i < j < |fields| ==> fields[i].name != fields[j].name)
    && (forall i :: 0 <= i < |fields| && Secret(fields[i].name) ==> fields[i].kind.Text?)
    && (forall i, j :: 0 <= i < |fields| && 0 <= j < |fields| && CountsSecret(fields[i], fields[j]) ==>
          !Shown(fields[i]) && fields[i].kind == SignedInt)
  }

  lemma CountsIs(fields: seq<Field>, i: nat, j: nat)
    requires Storable(fields) && i < |fields| && j < |fields|
    ensures LengthOf(fields[i], fields[j]) <==> CountsSecret(fields[i], fields[j])
    ensures CountsSecret(fields[i], fields[j]) ==>
              fields[j].data.TextValue? && TextOf(fields[j].kind, fields[j].data) == fields[j].data.s
  {
    hide IsPassword, Secret, Printed, Valued;
    ShownIsPrinted(fields[j]);
    SecretIs(fields[j].name);
    if CountsSecret(fields[i], fields[j]) {
      CarriedText(fields[j]);
    }
  }

  lemma CarriedText(f: Field)
    requires f.kind.Text? && Shown(f) && Carried(f)
    ensures f.data.TextValue? && TextOf(f.kind, f.data) == f.data.s
  {
  }

  lemma StorablePrintable(fields: seq<Field>)
    requires Storable(fields)
    ensures Printable(fields)
  {
    hide IsPassword, Secret, Printed, Valued, Carried, LengthOf, CountsSecret, GoodName;
    forall i | 0 <= i < |fields| ensures Printed(fields[i]) <==> Shown(fields[i]) {
      ShownIsPrinted(fields[i]);
    }
    forall i, j | 0 <= i < |fields| && 0 <= j < |fields| && LengthOf(fields[i], fields[j])
      ensures !Printed(fields[i]) && fields[i].kind == SignedInt
    {
      CountsIs(fields, i, j);
    }
  }

  /** Record round trip: printing a record and reading the text back into any record of the
      same table restores every visible field that has a value, a list as its known values,
      each once and padded; sets the hidden length of every such password; and changes
      nothing else. */
  lemma RecordRoundTrip(fields: seq<Field>, target: seq<Field>)
    requires Storable(fields) && SameTable(fields, target)
    ensures var r := ReadConfig(target, Print(fields));
            && SameTable(fields, r)
            && (forall i :: 0 <= i < |r| && Shown(fields[i]) ==> r[i].data == Restored(fields[i].kind, fields[i].data))
            && (forall i, j :: 0 <= i < |r| && 0 <= j < |r| && CountsSecret(fields[i], fields[j]) ==>
                  fields[j].data.TextValue? && r[i].data == IntValue(|fields[j].data.s|))
            && (forall i :: 0 <= i < |r| && !Shown(fields[i]) && (forall j :: 0 <= j < |r| ==> !CountsSecret(fields[i], fields[j]))
                  ==> r[i].data == target[i].data)
  {
    hide IsPassword, Secret, Printed, Valued, Carried, LengthOf, CountsSecret, GoodName, Restored, TextOf, ReadConfig, Print;
    StorablePrintable(fields);
    PrintedRoundTrip(fields, target);
    forall i | 0 <= i < |fields| ensures Printed(fields[i]) <==> Shown(fields[i]) {
      ShownIsPrinted(fields[i]);
    }
    forall i, j | 0 <= i < |fields| && 0 <= j < |fields|
      ensures LengthOf(fields[i], fields[j]) <==> CountsSecret(fields[i], fields[j])
      ensures CountsSecret(fields[i], fields[j]) ==>
                fields[j].data.TextValue? && TextOf(fields[j].kind, fields[j].data) == fields[j].data.s
    {
      CountsIs(fields, i, j);
    }
  }

  // ---------- one parameter ----------

  predicate Clean(s: string) {
    forall i :: 0 <= i < |s| ==> !IsSpace(s[i]) && s[i] != '='
  }

  lemma CleanBoth(s: string, t: string)
    requires Clean(s) && Clean(t)
    ensures Clean(s + t)
  {
  }

  lemma CleanParts()
    ensures Clean("node.session") && Clean("discovery.") && Clean("sendtargets") && Clean("slp") && Clean("host")
    ensures Clean(".auth.") && Clean("password") && Clean("_in") && Clean("")
  {
  }

  lemma SecretParts(owner: string, suffix: string)
    requires Clean(owner) && Clean(suffix) && owner != "" && owner[0] != '#' && |owner| < 40 && |suffix| < 10
    ensures GoodName(owner + ".auth." + "password" + suffix)
  {
    hide Clean;
    CleanParts();
    CleanBoth(owner, ".auth.");
    CleanBoth(owner + ".auth.", "password");
    CleanBoth(owner + ".auth." + "password", suffix);
    CleanIs(owner + ".auth." + "password" + suffix);
  }

  lemma CleanIs(s: string)
    requires Clean(s) && s != "" && s[0] != '#' && |s| < 128
    ensures GoodName(s)
  {
  }

  lemma GoodSecret(name: string)
    requires Secret(name)
    ensures GoodName(name)
  {
    hide GoodName;
    NodeAndHost();
    DiscoverySecrets();
  }

  lemma NodeAndHost()
    ensures GoodName("node.session.auth.password") && GoodName("node.session.auth.password_in")
    ensures GoodName("host.auth.password") && GoodName("host.auth.password_in")
  {
    hide Clean, GoodName;
    CleanParts();
    SecretParts("node.session", "");
    SecretParts("node.session", "_in");
    SecretParts("host", "");
    SecretParts("host", "_in");
    assert "node.session" + ".auth." + "password" + "" == "node.session.auth.password";
    assert "node.session" + ".auth." + "password" + "_in" == "node.session.auth.password_in";
    assert "host" + ".auth." + "password" + "" == "host.auth.password";
    assert "host" + ".auth." + "password" + "_in" == "host.auth.password_in";
  }

  lemma DiscoverySecrets()
    ensures GoodName("discovery.sendtargets.auth.password") && GoodName("discovery.sendtargets.auth.password_in")
    ensures GoodName("discovery.slp.auth.password") && GoodName("discovery.slp.auth.password_in")
  {
    hide Clean, GoodName;
    CleanParts();
    CleanBoth("discovery.", "sendtargets");
    CleanBoth("discovery.", "slp");
    SecretParts("discovery." + "sendtargets", "");
    SecretParts("discovery." + "sendtargets", "_in");
    SecretParts("discovery." + "slp", "");
    SecretParts("discovery." + "slp", "_in");
    assert "discovery." + "sendtargets" + ".auth." + "password" + "" == "discovery.sendtargets.auth.password";
    assert "discovery." + "sendtargets" + ".auth." + "password" + "_in" == "discovery.sendtargets.auth.password_in";
    assert "discovery." + "slp" + ".auth." + "password" + "" == "discovery.slp.auth.password";
    assert "discovery." + "slp" + ".auth." + "password" + "_in" == "discovery.slp.auth.password_in";
  }

  /** Setting a parameter that is not a password changes no other field. */
  lemma OthersKept(fields: seq<Field>, name: string, value: string)
    requires !Secret(name)
    ensures var r := Update(fields, name, value);
            forall i :: 0 <= i < |fields| && fields[i].name != name ==> r[i] == fields[i]
  {
    hide IsPassword, Secret, ReadValue;
    SecretIs(name);
  }

  /** An unknown parameter, or an option that is not one of its table, changes nothing. */
  lemma UnknownKept(fields: seq<Field>, name: string, value: string)
    requires forall i :: 0 <= i < |fields| && fields[i].name == name ==> fields[i].kind.Option_? && value !in fields[i].kind.opts
    ensures Update(fields, name, value) == fields
  {
    hide LengthText, IsPassword;
    if Find(fields, name).Some? {
      NotIndexed(fields[Find(fields, name).value].kind.opts, value);
    }
  }

  lemma {:induction false} NotIndexed(opts: seq<string>, value: string)
    requires value !in opts
    ensures IndexOf(opts, value) == None
  {
    if opts != [] {
      NotIndexed(opts[1..], value);
    }
  }

  /** Reading a password from a file sets its length, and nothing besides the two. */
  lemma PasswordLength(fields: seq<Field>, name: string, value: string, k: nat, j: nat)
    requires Secret(name) && GoodText(value) && forall i, j :: 0 <= i < j < |fields| ==> fields[i].name != fields[j].name
    requires k < |fields| && fields[k].name == name && fields[k].kind.Text?
    requires j < |fields| && fields[j].name == name + "_length" && fields[j].kind == SignedInt
    ensures var r := ReadConfig(fields, name + " = " + value + "\n");
            && r[k].data == TextValue(Fit(value, fields[k].kind.size)) && r[j].data == IntValue(|value|)
            && forall i :: 0 <= i < |fields| && i != k && i != j ==> r[i] == fields[i]
  {
    hide Secret, ReadConfig, Update, GoodText, GoodName;
    GoodSecret(name);
    ShortText(value);
    ReadParameter(fields, name, value);
    UpdateSecret(fields, name, value, k, j);
  }

  lemma ShortText(value: string)
    requires GoodText(value)
    ensures |value| % 0x1_0000 == |value|
  {
  }

  /** A file of one line. */
  lemma ReadParameter(fields: seq<Field>, name: string, value: string)
    requires GoodName(name) && GoodText(value)
    ensures ReadConfig(fields, name + " = " + value + "\n") == Update(fields, name, value)
  {
    hide ReadConfig, ProcessLine, Update;
    NoNewline(name, value);
    var s := name + " = " + value;
    assert s + "\n" == s + "\n" + "";
    ReadLine(fields, s, "");
    PrintedLine(fields, name, value);
    ReadNothing(Update(fields, name, value));
  }

  /** Setting a password, of any length, sets its length modulo 2^16. */
  lemma UpdateSecret(fields: seq<Field>, name: string, value: string, k: nat, j: nat)
    requires Secret(name) && forall i, j :: 0 <= i < j < |fields| ==> fields[i].name != fields[j].name
    requires k < |fields| && fields[k].name == name && fields[k].kind.Text?
    requires j < |fields| && fields[j].name == name + "_length" && fields[j].kind == SignedInt
    ensures var r := Update(fields, name, value);
            && r[k].data == TextValue(Fit(value, fields[k].kind.size)) && r[j].data == IntValue(|value| % 0x1_0000)
            && forall i :: 0 <= i < |fields| && i != k && i != j ==> r[i] == fields[i]
  {
    hide IsPassword, Secret, LengthText, Strtoul;
    SecretIs(name);
    FindIs(fields, k);
    var t := fields[k := fields[k].(data := TextValue(Fit(value, fields[k].kind.size)))];
    FindIs(t, j);
    LengthRestored(|value|);
  }
}
