/** The TargetAddress values of section 12.8 of RFC 3720, and when usr/discovery.c reads
    them as they are meant. */
module TargetAddresses {
  import opened CText
  import opened SendTargets
  import opened TargetText

  /** A host name or an IP address, and optionally a port and a portal group tag. */
  datatype PortalAddress = PortalAddress(host: string, port: Option<nat>, tag: Option<nat>)

  predicate GoodHost(host: string) {
    host != "" && ',' !in host && '[' !in host && ']' !in host
  }

  /** An IPv6 address, which has colons, is written in brackets. */
  function HostText(host: string): string {
    if ':' in host then "[" + host + "]" else host
  }

  function Suffix(c: char, n: Option<nat>): string {
    if n.Some? then [c] + Decimal(n.value) else ""
  }

  function Render(a: PortalAddress): string {
    HostText(a.host) + Suffix(':', a.port) + Suffix(',', a.tag)
  }

  function Number(n: Option<nat>): Option<string> {
    if n.Some? then Some(Decimal(n.value)) else None
  }

  lemma {:induction false} LastAtSplit(s: string, c: char, t: string)
    requires c !in t
    ensures LastAt(s + [c] + t, c) == |s|
    decreases |t|
  {
    var u := s + [c] + t;
    if t != "" {
      assert u[..|u| - 1] == s + [c] + t[..|t| - 1];
      assert u[|u| - 1] == t[|t| - 1];
      LastAtSplit(s, c, t[..|t| - 1]);
    }
  }

  lemma DigitsOnly(n: nat, c: char)
    requires c < '0' || c > '9'
    ensures c !in Decimal(n)
  {
    hide Decimal;
    assert forall i :: 0 <= i < |Decimal(n)| ==> DigitValue(Decimal(n)[i], 10).Some?;
  }

  /** Cutting off a numeric suffix that may be absent. */
  lemma CutSuffix(s: string, c: char, n: Option<nat>)
    requires c !in s && (c < '0' || c > '9')
    ensures var u := s + Suffix(c, n); var k := LastAt(u, c);
            u[..k] == s && After(u, k) == Number(n)
  {
    hide LastAt, Decimal;
    if n.Some? {
      DigitsOnly(n.value, c);
      LastAtSplit(s, c, Decimal(n.value));
      assert s + Suffix(c, n) == s + [c] + Decimal(n.value);
    } else {
      LastAtAbsent(s, c);
      assert s + "" == s;
    }
  }

  lemma Unbracketed(host: string)
    requires GoodHost(host)
    ensures var t := HostText(host);
            t != "" && (if t[0] == '[' then (var u := t[1..]; u[..LastAt(u, ']')]) else t) == host
  {
    hide LastAt;
    if ':' in host {
      var u := HostText(host)[1..];
      assert u == host + "]" + "";
      LastAtSplit(host, ']', "");
    }
  }

  /** What the parser makes of a written address: all of it, except that a bracketed IPv6
      address without a port is cut at its own last colon. */
  lemma AddressRoundTrip(a: PortalAddress)
    requires GoodHost(a.host)
    ensures ParseAddress(Render(a)) == Parts(a.host, Number(a.port), Number(a.tag))
            <==> a.port.Some? || ':' !in a.host
  {
    hide LastAt, Decimal, HostText, After, Suffix;
    var rest := HostText(a.host) + Suffix(':', a.port);
    assert Render(a)[..LastAt(Render(a), ',')] == rest && After(Render(a), LastAt(Render(a), ',')) == Number(a.tag) by {
      NoComma(a);
      CutSuffix(rest, ',', a.tag);
    }
    HostAndPort(a);
    Unbracketed(a.host);
  }

  /** The part before the tag, cut at its last colon. */
  lemma HostAndPort(a: PortalAddress)
    ensures var rest := HostText(a.host) + Suffix(':', a.port); var k := LastAt(rest, ':');
            if a.port.Some? || ':' !in a.host then rest[..k] == HostText(a.host) && After(rest, k) == Number(a.port)
            else After(rest, k).Some?
  {
    hide LastAt, Decimal, HostText, After;
    var h, rest := HostText(a.host), HostText(a.host) + Suffix(':', a.port);
    ColonIn(a.host);
    if ':' !in h {
      CutSuffix(h, ':', a.port);
    } else if a.port.Some? {
      DigitsOnly(a.port.value, ':');
      LastAtSplit(h, ':', Decimal(a.port.value));
      assert rest == h + ":" + Decimal(a.port.value);
      CutAt(h, ':', Decimal(a.port.value));
    } else {
      assert rest == h;
      CutSome(h);
    }
  }

  lemma NoComma(a: PortalAddress)
    requires GoodHost(a.host)
    ensures ',' !in HostText(a.host) + Suffix(':', a.port)
  {
    hide Decimal;
    if a.port.Some? {
      DigitsOnly(a.port.value, ',');
    }
  }

  lemma ColonIn(host: string)
    ensures ':' in HostText(host) <==> ':' in host
  {
    if ':' in host {
      var i :| 0 <= i < |host| && host[i] == ':';
      assert HostText(host)[i + 1] == ':';
    }
  }

  lemma CutAt(h: string, c: char, d: string)
    requires LastAt(h + [c] + d, c) == |h|
    ensures var u := h + [c] + d; u[..|h|] == h && After(u, |h|) == Some(d)
  {
    hide LastAt;
  }

  lemma CutSome(h: string)
    requires ':' in h
    ensures After(h, LastAt(h, ':')).Some?
  {
    hide LastAt;
    assert h[0..] == h;
  }

  lemma AtoiDecimal(n: nat)
    ensures Atoi(Decimal(n)) == n
  {
    hide Decimal, DigitsValue, CountDigits;
    var s := Decimal(n);
    assert DigitValue(s[0], 10).Some?;
    CountAllDigits(s, 10);
    DecimalValue(n);
    assert s[..|s|] == s;
  }

  lemma {:induction false} SkipWhite(w: string, rest: string)
    requires (forall i :: 0 <= i < |w| ==> IsSpace(w[i])) && rest != "" && !IsSpace(rest[0])
    ensures SkipSpaces(w + rest) == rest
  {
    if w == "" {
      assert w + rest == rest;
    } else {
      assert (w + rest)[0] == w[0] && (w + rest)[1..] == w[1..] + rest;
      SkipWhite(w[1..], rest);
    }
  }

  /** White space and a plus sign before a number do not matter. */
  lemma AtoiFree(w: string, n: nat)
    requires forall i :: 0 <= i < |w| ==> IsSpace(w[i])
    ensures Atoi(w + Decimal(n)) == n && Atoi(w + ("+" + Decimal(n))) == n
  {
    hide Decimal, DigitsValue, CountDigits;
    var d := Decimal(n);
    assert DigitValue(d[0], 10).Some?;
    SkipWhite(w, d);
    SkipWhite(w, "+" + d);
    assert ("+" + d)[1..] == d && d[..|d|] == d;
    CountAllDigits(d, 10);
    DecimalValue(n);
  }

  /** The portal recorded for an address: its port and tag, with the listening port and the
      unknown tag where they are not given, and as much of the host and of the name of the
      target as their fields hold: all of it if and only if they are shorter than 1025 and
      255 characters. */
  lemma PortalOf(name: string, a: PortalAddress)
    requires GoodHost(a.host) && (a.port.Some? || ':' !in a.host)
    ensures var p := MakePortal(name, ParseAddress(Render(a)));
            && p.port == (if a.port.Some? then a.port.value else 3260)
            && p.tpgt == (if a.tag.Some? then a.tag.value else -1)
            && p.name <= name && (p.name == name <==> |name| < 255)
            && p.address <= a.host && (p.address == a.host <==> |a.host| < 1025)
  {
    hide ParseAddress, Render, Decimal, Atoi;
    AddressRoundTrip(a);
    if a.port.Some? { AtoiDecimal(a.port.value); }
    if a.tag.Some? { AtoiDecimal(a.tag.value); }
  }

  /** A port or a tag that is empty counts as one that is not given. */
  lemma EmptyParts(name: string, host: string, port: Option<nat>)
    requires GoodHost(host) && ':' !in host
    ensures var p := ParseAddress(host + ":" + (if port.Some? then Decimal(port.value) else "") + ",");
            && p.host == host && MakePortal(name, p) == MakePortal(name, ParseAddress(Render(PortalAddress(host, port, None))))
            && MakePortal(name, p).port == (if port.Some? then port.value else 3260) && MakePortal(name, p).tpgt == -1
  {
    hide LastAt, Decimal, Atoi, After, Render, ParseAddress;
    var a := PortalAddress(host, port, None);
    PortalOf(name, a);
    AddressRoundTrip(a);
    EmptyTag(host, if port.Some? then Decimal(port.value) else "", port);
  }

  lemma EmptyTag(host: string, digits: string, port: Option<nat>)
    requires GoodHost(host) && ':' !in host && digits == if port.Some? then Decimal(port.value) else ""
    ensures ParseAddress(host + ":" + digits + ",") == Parts(host, Some(digits), Some(""))
  {
    hide LastAt, Decimal;
    if port.Some? {
      DigitsOnly(port.value, ',');
      DigitsOnly(port.value, ':');
    }
    var rest := host + ":" + digits;
    LastAtSplit(rest, ',', "");
    assert rest + "," + "" == rest + ",";
    LastAtSplit(host, ':', digits);
    Unbracketed(host);
  }

  predicate AllNamed(portals: seq<Portal>, name: string) {
    forall i :: 0 <= i < |portals| ==> portals[i].name == name
  }

  lemma {:induction false} NamedAddresses(env: Env, name: string, lines: seq<string>)
    ensures AllNamed(AddAddresses(env, name, lines).portals, Fit(name, TARGET_NAME_MAXLEN))
  {
    hide ParseAddress, Atoi, Fit;
    if lines != [] {
      NamedAddresses(env, name, lines[1..]);
    }
  }

  /** The name stored with every portal of a target.  Names of up to 255 characters are
      accepted, but one of exactly 255 is stored without its last character; longer ones
      are refused. */
  lemma StoredName(env: Env, name: string, lines: seq<string>)
    ensures var a := AddTarget(env, name, lines);
            if |name| > 255 then a == Added([], false)
            else AllNamed(a.portals, if |name| < 255 then name else name[..254])
  {
    hide AddAddresses, ParseAddress, Atoi, SignedDecimal;
    NamedAddresses(env, name, lines);
  }

  /** So a target without further lines, at an address that resolves, has its own name on
      record if and only if that is shorter than 255 characters. */
  lemma NameExact(env: Env, name: string)
    requires |name| <= 255 && env.address != "" && env.resolves(env.address, Some(SignedDecimal(env.port)))
    ensures var a := AddTarget(env, name, []);
            a.ok && |a.portals| == 1 && (a.portals[0].name == name <==> |name| < 255)
  {
    hide Atoi, SignedDecimal;
    StoredName(env, name, []);
  }
}
