/** A SendTargets response as a target writes it (Appendix D of RFC 3720), and the portals
    that come of it, however it is split into PDUs. */
module TargetResponses {
  import opened CText
  import opened SendTargets
  import opened TargetText
  import opened TargetAddresses

  /** A line behind a target's name: one of its addresses, or a key that is passed over. */
  datatype Item = Address(a: PortalAddress) | Other(text: string)

  datatype Target = Target(name: string, items: seq<Item>)

  function ItemText(item: Item): string {
    match item case Address(a) => "TargetAddress=" + Render(a) case Other(text) => text
  }

  predicate GoodAddress(a: PortalAddress) {
    GoodHost(a.host) && '\0' !in a.host && (a.port.Some? || ':' !in a.host)
  }

  predicate GoodItem(item: Item) {
    match item
    case Address(a) => GoodAddress(a)
    case Other(text) => text != "" && '\0' !in text && !("TargetName=" <= text) && !("TargetAddress=" <= text)
  }

  predicate GoodItems(items: seq<Item>) {
    forall i :: 0 <= i < |items| ==> GoodItem(items[i])
  }

  predicate GoodTarget(t: Target) {
    '\0' !in t.name && |t.name| <= 255 && GoodItems(t.items)
  }

  function ItemTexts(items: seq<Item>): (r: seq<string>)
    ensures |r| == |items| && forall i :: 0 <= i < |r| ==> r[i] == ItemText(items[i])
  {
    seq(|items|, i requires 0 <= i < |items| => ItemText(items[i]))
  }

  function TargetLines(t: Target): seq<string> { ["TargetName=" + t.name] + ItemTexts(t.items) }

  function AllLines(targets: seq<Target>): seq<string> {
    if targets == [] then [] else TargetLines(targets[0]) + AllLines(targets[1..])
  }

  /** Every line with its NUL. */
  function Written(lines: seq<string>): string {
    if lines == [] then "" else lines[0] + "\0" + Written(lines[1..])
  }

  function ResponseText(targets: seq<Target>): string { Written(AllLines(targets)) }

  // ---------- what should come of it ----------

  /** As much of a text as a field of `size` characters holds with its terminator. */
  function Cut(s: string, size: nat): string
    requires size > 0
  {
    if |s| < size then s else s[..size - 1]
  }

  function PortalFor(name: string, a: PortalAddress): Portal {
    Portal(Cut(name, 255), Cut(a.host, 1025),
           match a.port case Some(n) => n case None => 3260,
           match a.tag case Some(n) => n case None => -1)
  }

  function ItemPortals(name: string, items: seq<Item>): seq<Portal> {
    if items == [] then []
    else (if items[0].Address? then [PortalFor(name, items[0].a)] else []) + ItemPortals(name, items[1..])
  }

  /** A target without further lines is where the discovery went. */
  function TargetPortals(env: Env, t: Target): seq<Portal> {
    if t.items == [] then [Portal(Cut(t.name, 255), Cut(env.address, 1025), env.port, -1)]
    else ItemPortals(t.name, t.items)
  }

  function AllPortals(env: Env, targets: seq<Target>): seq<Portal> {
    if targets == [] then [] else TargetPortals(env, targets[0]) + AllPortals(env, targets[1..])
  }

  predicate Found(env: Env, item: Item) {
    item.Address? ==> env.resolves(item.a.host, Number(item.a.port))
  }

  predicate AllFound(env: Env, items: seq<Item>) {
    forall i :: 0 <= i < |items| ==> Found(env, items[i])
  }

  predicate Reachable(env: Env, t: Target) {
    if t.items == [] then env.address != "" && env.resolves(env.address, Some(SignedDecimal(env.port)))
    else AllFound(env, t.items)
  }

  // ---------- one target ----------

  lemma PortalIs(name: string, a: PortalAddress)
    requires GoodAddress(a)
    ensures ParseAddress(Render(a)) == Parts(a.host, Number(a.port), Number(a.tag))
    ensures MakePortal(name, Parts(a.host, Number(a.port), Number(a.tag))) == PortalFor(name, a)
  {
    hide ParseAddress, Render, Decimal, Atoi;
    AddressRoundTrip(a);
    if a.port.Some? { AtoiDecimal(a.port.value); }
    if a.tag.Some? { AtoiDecimal(a.tag.value); }
  }

  lemma LineIs(env: Env, name: string, item: Item)
    requires GoodItem(item)
    ensures AddLine(env, name, ItemText(item)) ==
            if !Found(env, item) then Added([], false)
            else Added(if item.Address? then [PortalFor(name, item.a)] else [], true)
  {
    hide ParseAddress, Render, MakePortal, Decimal;
    if item.Address? {
      PortalIs(name, item.a);
      assert ItemText(item)[14..] == Render(item.a);
    }
  }

  lemma {:induction false} ItemsAdded(env: Env, name: string, items: seq<Item>)
    requires GoodItems(items) && AllFound(env, items)
    ensures AddAddresses(env, name, ItemTexts(items)) == Added(ItemPortals(name, items), true)
  {
    hide AddLine, ItemText, Found, GoodItem;
    if items != [] {
      LineIs(env, name, items[0]);
      ItemsAdded(env, name, items[1..]);
      assert ItemTexts(items)[1..] == ItemTexts(items[1..]);
    }
  }

  /** The addresses before the first one that does not resolve are kept, and the target
      counts as failed. */
  lemma {:induction false} FirstUnresolved(env: Env, name: string, items: seq<Item>, k: nat)
    requires GoodItems(items) && k < |items| && AllFound(env, items[..k]) && !Found(env, items[k])
    ensures AddAddresses(env, name, ItemTexts(items)) == Added(ItemPortals(name, items[..k]), false)
  {
    hide AddLine, ItemText, Found, GoodItem;
    LineIs(env, name, items[0]);
    assert ItemTexts(items)[1..] == ItemTexts(items[1..]);
    if k == 0 {
      assert items[..0] == [];
    } else {
      assert items[..k][0] == items[0] && items[..k][1..] == items[1..][..k - 1];
      FirstUnresolved(env, name, items[1..], k - 1);
    }
  }

  lemma AtoiSigned(n: int)
    ensures Atoi(SignedDecimal(n)) == n
  {
    hide Decimal, DigitsValue, CountDigits;
    if n >= 0 {
      AtoiDecimal(n);
    } else {
      var d, s := Decimal(-n), SignedDecimal(n);
      assert s[1..] == d && SkipSpaces(s) == s;
      CountAllDigits(d, 10);
      DecimalValue(-n);
      assert d[..|d|] == d;
    }
  }

  /** Every address of a target, and nothing else, becomes a portal with its name; a target
      without further lines is at the default address and port. */
  lemma TargetAdded(env: Env, t: Target)
    requires GoodTarget(t) && Reachable(env, t)
    ensures AddTarget(env, t.name, ItemTexts(t.items)) == Added(TargetPortals(env, t), true)
  {
    hide AddAddresses, ItemPortals, Atoi, SignedDecimal;
    AtoiSigned(env.port);
    SignedSome(env.port);
    if t.items != [] {
      ItemsAdded(env, t.name, t.items);
    }
  }

  lemma SignedSome(n: int)
    ensures SignedDecimal(n) != ""
  {
    hide Decimal;
  }

  /** With an address that does not resolve, those before it are kept and the target fails. */
  lemma TargetFails(env: Env, t: Target, k: nat)
    requires GoodTarget(t) && k < |t.items| && AllFound(env, t.items[..k]) && !Found(env, t.items[k])
    ensures AddTarget(env, t.name, ItemTexts(t.items)) == Added(ItemPortals(t.name, t.items[..k]), false)
  {
    hide AddAddresses, ItemPortals;
    FirstUnresolved(env, t.name, t.items, k);
  }

  // ---------- all targets ----------

  predicate GoodTargets(targets: seq<Target>) {
    forall i :: 0 <= i < |targets| ==> GoodTarget(targets[i])
  }

  predicate GoodLines(lines: seq<string>) {
    forall i :: 0 <= i < |lines| ==> lines[i] != "" && '\0' !in lines[i]
  }

  lemma {:induction false} WrittenLines(lines: seq<string>)
    requires GoodLines(lines)
    ensures Lines(Written(lines)) == lines
  {
    hide Lines, LastName;
    if lines == [] {
      NoLines();
    } else {
      FirstLine(lines[0], Written(lines[1..]));
      WrittenLines(lines[1..]);
    }
  }

  lemma RenderPlain(a: PortalAddress)
    requires GoodAddress(a)
    ensures '\0' !in Render(a)
  {
    hide Decimal;
    if a.port.Some? { DigitsOnly(a.port.value, '\0'); }
    if a.tag.Some? { DigitsOnly(a.tag.value, '\0'); }
  }

  lemma ItemPlain(item: Item)
    requires GoodItem(item)
    ensures ItemText(item) != "" && '\0' !in ItemText(item) && !IsName(ItemText(item))
  {
    hide Render;
    if item.Address? {
      RenderPlain(item.a);
      assert ItemText(item)[6] == 'A' && "TargetName="[6] == 'N';
    }
  }

  lemma ItemsPlain(items: seq<Item>)
    requires GoodItems(items)
    ensures GoodLines(ItemTexts(items)) && NoNames(ItemTexts(items))
  {
    hide ItemText, GoodItem, IsName;
    forall i | 0 <= i < |items|
      ensures ItemText(items[i]) != "" && '\0' !in ItemText(items[i]) && !IsName(ItemText(items[i]))
    {
      ItemPlain(items[i]);
    }
  }

  lemma {:induction false} AllPlain(targets: seq<Target>)
    requires GoodTargets(targets)
    ensures GoodLines(AllLines(targets))
    ensures targets != [] ==> AllLines(targets) != [] && IsName(AllLines(targets)[0])
  {
    hide ItemTexts, GoodItems;
    if targets != [] {
      assert GoodTarget(targets[0]);
      ItemsPlain(targets[0].items);
      AllPlain(targets[1..]);
    }
  }

  lemma {:induction false} NoNamesBody(lines: seq<string>)
    requires NoNames(lines)
    ensures BodyLength(lines) == |lines|
  {
    hide IsName;
    if lines != [] {
      NoNamesBody(lines[1..]);
    }
  }

  function Records(targets: seq<Target>): seq<seq<string>> {
    if targets == [] then [] else [TargetLines(targets[0])] + Records(targets[1..])
  }

  lemma {:induction false} RecordsAll(targets: seq<Target>)
    requires GoodTargets(targets)
    ensures RecordsOf(AllLines(targets)) == Records(targets)
  {
    hide IsName, BodyLength, RecordsOf, ItemTexts, GoodItems;
    if targets == [] {
      NoRecords([]);
    } else {
      var t, rest := targets[0], targets[1..];
      assert GoodTarget(t);
      var a, b := ItemTexts(t.items), AllLines(rest);
      var lines := AllLines(targets);
      ItemsPlain(t.items);
      NoNamesBody(a);
      AllPlain(targets);
      AllPlain(rest);
      assert lines[1..] == a + b;
      if rest == [] {
        assert a + b == a;
      } else {
        BodyAppend(a, b);
      }
      RecordsTake(lines, 1 + |a|);
      assert lines[..1 + |a|] == TargetLines(t) && lines[1 + |a|..] == b;
      RecordsAll(rest);
    }
  }

  lemma RecordAdded(env: Env, t: Target)
    requires GoodTarget(t) && Reachable(env, t)
    ensures IsName(TargetLines(t)[0]) && AddRecord(env, TargetLines(t)) == Added(TargetPortals(env, t), true)
  {
    hide ItemTexts, AddTarget, TargetPortals;
    TargetAdded(env, t);
    var r := TargetLines(t);
    assert r[0][11..] == t.name && r[1..] == ItemTexts(t.items);
  }

  lemma {:induction false} RecordsAdded(env: Env, targets: seq<Target>)
    requires GoodTargets(targets) && forall i :: 0 <= i < |targets| ==> Reachable(env, targets[i])
    ensures AreRecords(Records(targets)) && AddRecords(env, Records(targets)) == Added(AllPortals(env, targets), true)
  {
    hide AddRecord, TargetPortals, GoodTarget, IsName;
    if targets != [] {
      RecordAdded(env, targets[0]);
      RecordsAdded(env, targets[1..]);
      assert Records(targets)[1..] == Records(targets[1..]);
    }
  }

  /** From the wire to the portals: a response in which targets are written with their
      addresses, split into PDUs in any way, gives one portal for each address, in order and
      with the target's name, host, port and tag, and one at the default address for each
      target without further lines. */
  lemma ResponseRead(env: Env, targets: seq<Target>, pdus: seq<string>)
    requires GoodTargets(targets) && (forall i :: 0 <= i < |targets| ==> Reachable(env, targets[i]))
    requires pdus != [] && Concat(pdus) == ResponseText(targets)
    ensures Feed(env, "", pdus) == AllPortals(env, targets)
  {
    hide Feed, Process, Lines, Written, AllLines, RecordsOf, AddRecords, Records, AllPortals;
    AllPlain(targets);
    WrittenLines(AllLines(targets));
    RecordsAll(targets);
    RecordsAdded(env, targets);
    ChunkIndependence(env, pdus);
    FinalPortals(env, Concat(pdus));
  }

  /** For instance a target with two paths, and another line between them. */
  lemma TwoPaths(env: Env, name: string, a: PortalAddress, b: PortalAddress, key: string, pdus: seq<string>)
    requires '\0' !in name && |name| < 255 && GoodAddress(a) && GoodAddress(b) && |a.host| < 1025 && |b.host| < 1025
    requires GoodItem(Other(key)) && env.resolves(a.host, Number(a.port)) && env.resolves(b.host, Number(b.port))
    requires pdus != [] && Concat(pdus) == ResponseText([Target(name, [Address(a), Other(key), Address(b)])])
    ensures var p := Feed(env, "", pdus);
            && |p| == 2 && p[0].name == p[1].name == name && p[0].address == a.host && p[1].address == b.host
            && (a.port.Some? ==> p[0].port == a.port.value) && (b.port.Some? ==> p[1].port == b.port.value)
  {
    hide Feed, ResponseText, Number, GoodAddress;
    var items := [Address(a), Other(key), Address(b)];
    var t := Target(name, items);
    ResponseRead(env, [t], pdus);
    assert items[1..] == [Other(key), Address(b)] && [Other(key), Address(b)][1..] == [Address(b)] && [Address(b)][1..] == [];
    assert ItemPortals(name, [Address(b)]) == [PortalFor(name, b)];
    assert ItemPortals(name, [Other(key), Address(b)]) == [PortalFor(name, b)];
    assert ItemPortals(name, items) == [PortalFor(name, a)] + [PortalFor(name, b)];
    assert [t][1..] == [];
    assert AllPortals(env, [t]) == ItemPortals(name, items) + [];
  }
}
