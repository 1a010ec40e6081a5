/** The SendTargets buffer of usr/discovery.c: text accumulates, complete records are
    parsed in place and their portals appended to the list. */
module Discoveries {
  import opened CText
  import opened SendTargets
  import opened TargetText
  import opened TargetScan

  class Discovery {
    const env: Env
    var data: string
    var portals: seq<Portal>

    constructor (env: Env)
      ensures this.env == env && data == "" && portals == []
    {
      this.env, data, portals := env, "", [];
    }

    /** add_portal */
    method AddPortal(name: string, p: Parts) returns (ok: bool)
      modifies `portals
      ensures ok == env.resolves(p.host, p.port)
      ensures portals == old(portals) + if ok then [MakePortal(name, p)] else []
    {
      ok := env.resolves(p.host, p.port);
      if ok {
        portals := portals + [MakePortal(name, p)];
      }
    }

    /** Cut the value at `lo` into its parts, writing NULs over the separators. */
    method CutAddress(lo: nat, hi: nat) returns (p: Parts)
      requires lo <= hi <= |data|
      modifies `data
      ensures p == ParseAddress(old(data)[lo..hi])
      ensures |data| == |old(data)|
      ensures forall i :: 0 <= i < |data| && (i < lo || hi <= i) ==> data[i] == old(data)[i]
      ensures forall k :: 0 <= k < hi - lo ==>
                data[lo + k] == if IsSeparator(old(data)[lo..hi], k) then '\0' else old(data)[lo + k]
    {
      hide ParseAddress, IsSeparator;
      var comma, colon, from, to := Dissect(data, lo, hi);
      p := Parts(data[from..to],
                 if colon < comma then Some(data[colon + 1..comma]) else None,
                 if comma < hi then Some(data[comma + 1..hi]) else None);
      WriteNul(comma, hi);
      WriteNul(colon, hi);
      WriteNul(to, hi);
    }

    method WriteNul(k: nat, hi: nat)
      requires k <= hi <= |data|
      modifies `data
      ensures |data| == |old(data)|
      ensures forall i :: 0 <= i < |data| ==> data[i] == if i == k && k < hi then '\0' else old(data)[i]
    {
      if k < hi {
        data := data[k := '\0'];
      }
    }

    /** One line of a record; what is not a TargetAddress is passed over. */
    method AddressLine(name: string, lo: nat, hi: nat) returns (ok: bool)
      requires lo <= hi <= |data|
      modifies `data, `portals
      ensures |data| == |old(data)| && forall i :: 0 <= i < |data| && (i < lo || hi <= i) ==> data[i] == old(data)[i]
      ensures var a := AddLine(env, name, old(data)[lo..hi]); ok == a.ok && portals == old(portals) + a.portals
    {
      hide ParseAddress, MakePortal;
      var yes := StartsWith(data, lo, hi, "TargetAddress=");
      if !yes {
        return true;
      }
      assert data[lo..hi][14..] == data[lo + 14..hi];
      var p := CutAddress(lo + 14, hi);
      ok := AddPortal(name, p);
    }

    /** The TargetAddress lines of a record, from `lo` on. */
    method AddAddressLines(name: string, lo: nat, end: nat) returns (ok: bool)
      requires lo <= end <= |data|
      modifies `data, `portals
      ensures |data| == |old(data)| && forall i :: 0 <= i < |data| && (i < lo || end <= i) ==> data[i] == old(data)[i]
      ensures var a := AddAddresses(env, name, Piece(old(data), lo, end));
              ok == a.ok && portals == old(portals) + a.portals
    {
      hide AddAddresses, Piece, AddLine, Then, Rest;
      ghost var d := data;
      ghost var goal := AddAddresses(env, name, Piece(d, lo, end));
      ghost var done: seq<Portal> := [];
      RestStart(env, name, d, lo, end);
      var text := lo;
      while text < end
        invariant lo <= text <= end + 1 && |data| == |d|
        invariant forall i :: 0 <= i < |d| && (i < lo || text <= i || end <= i) ==> data[i] == d[i]
        invariant portals == old(portals) + done
        invariant goal == Then(done, Rest(env, name, d, text, end))
      {
        var e := FindNul(data, text, end);
        assert data[text..e] == d[text..e];
        RestStep(env, name, d, text, e, end);
        ok := AddressLine(name, text, e);
        ghost var a := AddLine(env, name, d[text..e]);
        ThenMore(done, a, Rest(env, name, d, e + 1, end));
        done := done + a.portals;
        if !ok {
          return;
        }
        text := e + 1;
      }
      RestDone(env, name, d, text, end);
      ThenMore(done, Added([], true), Added([], true));
      return true;
    }

    /** add_target_record for the record at `r`, whose text ends at `end` */
    method AddTargetRecord(r: nat, end: nat, ghost d: string, ghost b: nat, ghost done: seq<Portal>) returns (ok: bool)
      requires Seen(env, d, b, Some(r), done) && end <= b && (end == b || (end + 1 == b && d[end] == '\0'))
      requires |data| == |d| && forall i :: r <= i < |d| ==> data[i] == d[i]
      modifies `data, `portals
      ensures |data| == |d| && forall i :: end <= i < |d| ==> data[i] == d[i]
      ensures var lines := Lines(d[r..b]); var a := AddTarget(env, lines[0][11..], lines[1..]);
              ok == a.ok && portals == old(portals) + a.portals
    {
      hide Lines, AddLines, AddTarget, Piece, Seen, FirstNul;
      SeenBounds(env, d, b, Some(r), done);
      ghost var e0 := NameEnd(env, d, r, b, end, done);
      assert data[r + 11..end] == d[r + 11..end];
      var e := FindNul(data, r + 11, end);
      RecordText(env, d, r, e, b, end);
      assert d[r..e][11..] == d[r + 11..e];
      assert data[r + 11..e] == d[r + 11..e];
      ok := AddTargetLines(data[r + 11..e], e, end, d);
    }

    /** add_target_record behind the name */
    method AddTargetLines(name: string, lo: nat, end: nat, ghost d: string) returns (ok: bool)
      requires lo <= end <= |d| && |data| == |d| && forall i :: lo <= i < |d| ==> data[i] == d[i]
      modifies `data, `portals
      ensures |data| == |d| && forall i :: end <= i < |d| ==> data[i] == d[i]
      ensures var a := AddTarget(env, name, Piece(d, lo, end));
              ok == a.ok && portals == old(portals) + a.portals
    {
      hide AddAddresses, Piece, MakePortal;
      if |name| > TARGET_NAME_MAXLEN {
        return false;
      }
      SamePiece(data, d, lo, end);
      var text := SkipNuls(data, lo, end);
      if text >= end {
        EmptyPiece(data, end);
        if env.address == "" {
          return false;
        }
        ok := AddPortal(name, Parts(env.address, Some(SignedDecimal(env.port)), None));
        return;
      }
      SomePiece(data, text, end);
      ok := AddAddressLines(name, text, end);
    }

    /** One line of the response: a TargetName line ends the record before it. */
    method TakeLine(t: nat, e: nat, record: Option<nat>, ghost final: bool,
                    ghost d: string, ghost before: seq<Portal>, ghost done: seq<Portal>)
      returns (ok: bool, next: Option<nat>, ghost done': seq<Portal>)
      requires Seen(env, d, t, record, done) && t < e < |d| && '\0' !in d[t..e] && d[e] == '\0'
      requires |data| == |d| && (forall i :: Kept(record) <= i < |d| ==> data[i] == d[i]) && portals == before + done
      modifies `data, `portals
      ensures ok ==> |data| == |d| && (forall i :: Kept(next) <= i < |d| ==> data[i] == d[i]) && portals == before + done'
      ensures ok ==> Seen(env, d, e + 1, next, done')
      ensures !ok ==> var r := Process(env, d, final); portals == before + r.portals && data == r.rest
    {
      hide Process, Lines, AddLines, AddTarget, Seen;
      SeenBounds(env, d, t, record, done);
      assert d[t..e] == data[t..e];
      var isName := StartsWith(data, t, e, "TargetName=");
      ok, next, done' := true, record, done;
      if !isName {
        LineSeen(env, d, t, e, record, done);
        return;
      }
      if record.Some? {
        RecordSeen(env, d, record.value, t, done);
        ok := AddTargetRecord(record.value, t, d, t, done);
        if !ok {
          ScanFails(env, d, record.value, t, e, done, final);
          data := "";
          return;
        }
        done' := AddLines(env, Lines(d[..t])).portals;
      } else {
        NoneYet(env, d, t, done);
      }
      SeenBoundary(env, d, t, record, done);
      NameSeen(env, d, t, e, done');
      next := Some(t);
    }

    /** process_sendtargets_response */
    method ProcessResponse(final: bool)
      modifies `data, `portals
      ensures var r := Process(env, old(data), final); portals == old(portals) + r.portals && data == r.rest
    {
      hide Process, Seen, Piece;
      ghost var d, before := data, portals;
      var nul := LastNulOf(data);
      if nul == 0 {
        Unscanned(env, d, final);
        return;
      }
      var text: nat := 0;
      var record: Option<nat> := None;
      ghost var b: nat, done: seq<Portal> := 0, [];
      SeenNothing(env, d);
      while true
        invariant text <= nul < |d| && d[nul] == '\0' && '\0' !in d[nul + 1..] && |data| == |d|
        invariant text <= b <= text + 1 && (b == text + 1 ==> d[text] == '\0')
        invariant Seen(env, d, b, record, done) && portals == before + done
        invariant Kept(record) <= text && forall i :: Kept(record) <= i < |d| ==> data[i] == d[i]
        decreases nul - text, |d| - b
      {
        var t := SkipNuls(data, text, nul);
        if t == nul {
          SkipSeen(env, d, b, nul + 1, record, done);
          Finish(final, record, d, nul, before, done);
          return;
        }
        SkipSeen(env, d, b, t, record, done);
        var e := FindNul(data, t, nul);
        assert d[t..e] == data[t..e];
        var ok: bool;
        ok, record, done := TakeLine(t, e, record, final, d, before, done);
        if !ok {
          return;
        }
        SeenBounds(env, d, e + 1, record, done);
        text, b := e, e + 1;
      }
    }

    /** What becomes of the last record and of the buffer. */
    method Finish(final: bool, record: Option<nat>, ghost d: string, nul: nat, ghost before: seq<Portal>, ghost done: seq<Portal>)
      requires nul < |d| && d[nul] == '\0' && '\0' !in d[nul + 1..] && Seen(env, d, nul + 1, record, done)
      requires |data| == |d| && (forall i :: Kept(record) <= i < |d| ==> data[i] == d[i]) && portals == before + done
      modifies `data, `portals
      ensures var r := Process(env, d, final); data == r.rest && portals == before + r.portals
    {
      hide Process, Lines, AddLines, AddTarget, Seen;
      SeenBounds(env, d, nul + 1, record, done);
      ScanResult(env, d, nul, record, done, final);
      if record.None? {
        assert data == d;
      } else if final {
        var _ := AddTargetRecord(record.value, nul, d, nul + 1, done);
        data := "";
      } else {
        assert data[record.value..] == d[record.value..];
        data := data[record.value..];
      }
    }

    /** process_recvd_pdu for a text response */
    method ReceivePdu(text: string, final: bool)
      modifies `data, `portals
      ensures var r := Process(env, old(data) + text, final); portals == old(portals) + r.portals && data == r.rest
    {
      data := data + text;
      ProcessResponse(final);
    }

    /** All PDUs of a response, the last of them final. */
    method ReceiveAll(pdus: seq<string>)
      requires pdus != [] && data == ""
      modifies `data, `portals
      ensures portals == old(portals) + Feed(env, "", pdus)
    {
      hide Process, Feed;
      ghost var sofar: seq<Portal> := [];
      assert pdus[0..] == pdus;
      for i := 0 to |pdus| - 1
        invariant portals == old(portals) + sofar
        invariant sofar + Feed(env, data, pdus[i..]) == Feed(env, "", pdus)
      {
        FeedStep(env, data, pdus, i, sofar);
        ghost var r := Process(env, data + pdus[i], false);
        ReceivePdu(pdus[i], false);
        sofar := sofar + r.portals;
      }
      FeedLast(env, data, pdus);
      ReceivePdu(pdus[|pdus| - 1], true);
    }
  }

  lemma FeedStep(env: Env, data: string, pdus: seq<string>, i: nat, sofar: seq<Portal>)
    requires i < |pdus| - 1
    ensures var r := Process(env, data + pdus[i], false);
            sofar + Feed(env, data, pdus[i..]) == (sofar + r.portals) + Feed(env, r.rest, pdus[i + 1..])
  {
    hide Process;
    assert pdus[i..][1..] == pdus[i + 1..];
  }

  lemma FeedLast(env: Env, data: string, pdus: seq<string>)
    requires pdus != []
    ensures Feed(env, data, pdus[|pdus| - 1..]) == Process(env, data + pdus[|pdus| - 1], true).portals
  {
    hide Process;
  }

  function Kept(record: Option<nat>): nat {
    match record case Some(r) => r case None => 0
  }

  ghost function Then(done: seq<Portal>, a: Added): Added {
    Added(done + a.portals, a.ok)
  }

  ghost function Rest(env: Env, name: string, d: string, text: nat, end: nat): Added
    requires end <= |d|
  {
    AddAddresses(env, name, if text <= end then Piece(d, text, end) else [])
  }

  lemma ThenMore(done: seq<Portal>, a: Added, rest: Added)
    ensures Then(done, Then(a.portals, rest)) == Then(done + a.portals, rest)
    ensures Then(done, a).ok == a.ok && Then(done, a).portals == done + a.portals
  {
    assert done + (a.portals + rest.portals) == done + a.portals + rest.portals;
  }

  lemma RestStart(env: Env, name: string, d: string, lo: nat, end: nat)
    requires lo <= end <= |d|
    ensures AddAddresses(env, name, Piece(d, lo, end)) == Then([], Rest(env, name, d, lo, end))
  {
    hide Piece, AddAddresses;
    var a := AddAddresses(env, name, Piece(d, lo, end));
    assert [] + a.portals == a.portals;
  }

  lemma RestDone(env: Env, name: string, d: string, text: nat, end: nat)
    requires end <= text && end <= |d|
    ensures Rest(env, name, d, text, end) == Added([], true)
  {
    hide Piece;
    EmptyPiece(d, end);
  }

  lemma RestStep(env: Env, name: string, d: string, text: nat, e: nat, end: nat)
    requires text <= e <= end <= |d| && text < end && '\0' !in d[text..e] && (e < end ==> d[e] == '\0')
    ensures var a := AddLine(env, name, d[text..e]);
            Rest(env, name, d, text, end) == if a.ok then Then(a.portals, Rest(env, name, d, e + 1, end)) else a
  {
    hide Piece;
    PieceStep(d, text, e, end);
    var line := d[text..e];
    var more := if e < end then Piece(d, e + 1, end) else [];
    if e == text {
      EmptyNoAddress();
      assert line == "" && Piece(d, text, end) == more;
    } else {
      assert Piece(d, text, end) == [line] + more;
      assert ([line] + more)[1..] == more;
    }
  }

  lemma EmptyNoAddress()
    ensures !IsAddress("")
  {
  }
}
