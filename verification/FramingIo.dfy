/** The partial read and write loops of usr/io.c over a socket. */
module FramingIo {
  import opened CText
  import opened Framing

  datatype Rc = Error | Retry | Bytes(n: nat)

  /** Reads and writes that move something or are to be repeated. */
  predicate Calm(script: seq<Io>) {
    forall i :: 0 <= i < |script| ==> GoesWell(script[i])
  }

  predicate GoesWell(e: Io) { e.Again? || (e.Moves? && e.n > 0) }

  /** The script once a header of `left` more bytes is out. */
  function AfterHeader(left: nat, script: seq<Io>): Option<seq<Io>>
    decreases |script|
  {
    if left == 0 then Some(script)
    else if script == [] then None
    else
      match script[0]
      case Moves(n) => if n == 0 then None else AfterHeader(left - Min(n, left), script[1..])
      case Again => AfterHeader(left, script[1..])
      case Fails => None
      case TimedOut => None
  }

  /** What iscsi_io_send_pdu has put on the wire when it succeeds. */
  function SentBytes(p: Pdu, script: seq<Io>): Option<seq<byte>> {
    var pad := PadBytes(|p.data|);
    var rest := AfterHeader(HEADER_LEN, script);
    if rest.None? then None
    else
      var o := Overrun(|p.data|, pad, |p.data| + pad, rest.value);
      if o.None? then None else Some(Frame(p) + Zeros(if o.value > 0 then o.value else 0))
  }

  /** No write of the data ends strictly inside the padding, or the writes add up to the
      padding all the same. */
  ghost predicate Exact(p: Pdu, script: seq<Io>) {
    var pad := PadBytes(|p.data|);
    var rest := AfterHeader(HEADER_LEN, script);
    rest.Some? ==> !EndsInside(|p.data|, pad, 0, rest.value) || AddsUp(|p.data|, pad, 0, rest.value)
  }

  /** Receiving inverts sending: however the writes are split, what is sent is received as
      the PDU, and the next PDU begins where the bytes sent end if and only if the padding
      was not repeated. */
  lemma SendThenReceive(before: seq<byte>, p: Pdu, script: seq<Io>, after: seq<byte>, room: nat)
    requires WellFormed(p) && |p.data| <= room && SentBytes(p, script).Some?
    ensures var sent := SentBytes(p, script).value;
            var r := Received(before + sent + after, |before|, room);
            && r == Some((p, |before| + |Frame(p)|))
            && (r.value.1 == |before| + |sent| <==> Exact(p, script))
  {
    hide Overrun, EndsInside, AddsUp, AfterHeader, Frame;
    var pad := PadBytes(|p.data|);
    var rest := AfterHeader(HEADER_LEN, script).value;
    ExactSend(|p.data|, pad, rest);
    OverrunBound(|p.data|, pad, |p.data| + pad, rest);
    var o := Overrun(|p.data|, pad, |p.data| + pad, rest).value;
    assert before + (Frame(p) + Zeros(o)) + after == before + Frame(p) + (Zeros(o) + after);
    FrameRoundTrip(before, p, Zeros(o) + after, room);
  }

  /** One byte of data, sent in a call that takes it with one byte of padding and a call
      that takes what it is offered: the next PDU would begin one byte late. */
  lemma NextIsLate(p: Pdu)
    requires WellFormed(p) && |p.data| == 1
    ensures SentBytes(p, [Moves(48), Moves(2), Moves(3)]) == Some(Frame(p) + Zeros(1))
  {
    hide Overrun, Frame;
    var script := [Moves(48), Moves(2), Moves(3)];
    assert script[1..] == [Moves(2), Moves(3)];
    assert AfterHeader(0, [Moves(2), Moves(3)]) == Some([Moves(2), Moves(3)]);
    PaddingRepeated();
  }

  /** In general at most three zeros too many follow the frame. */
  lemma SentIsFrame(p: Pdu, script: seq<Io>)
    requires SentBytes(p, script).Some?
    ensures exists extra: nat :: (extra == 0 || extra < PadBytes(|p.data|)) && SentBytes(p, script) == Some(Frame(p) + Zeros(extra))
  {
    hide Overrun, AfterHeader, Frame;
    var pad := PadBytes(|p.data|);
    var rest := AfterHeader(HEADER_LEN, script).value;
    OverrunBound(|p.data|, pad, |p.data| + pad, rest);
    var extra: nat := Overrun(|p.data|, pad, |p.data| + pad, rest).value;
    assert SentBytes(p, script) == Some(Frame(p) + Zeros(extra));
  }

  /** The first `k` calls go well and move `need` bytes or more. */
  predicate Suffices(script: seq<Io>, k: nat, need: int)
    requires k <= |script|
  {
    Calm(script[..k]) && Taken(script, k) >= need
  }

  ghost predicate Enough(script: seq<Io>, need: int) {
    exists k :: 0 <= k <= |script| && Suffices(script, k, need)
  }

  lemma EnoughNow(script: seq<Io>, need: int)
    requires need <= 0
    ensures Enough(script, need)
  {
    assert Suffices(script, 0, need);
  }

  lemma SufficesNone(script: seq<Io>, need: int)
    requires need > 0
    ensures !Suffices(script, 0, need)
  {
  }

  lemma CalmStep(script: seq<Io>, k: nat)
    requires 1 <= k <= |script|
    ensures Calm(script[..k]) <==> GoesWell(script[0]) && Calm(script[1..][..k - 1])
  {
    assert script[..k] == [script[0]] + script[1..][..k - 1];
  }

  lemma SufficesStep(script: seq<Io>, k: nat, need: int)
    requires 1 <= k <= |script|
    ensures Suffices(script, k, need) <==> GoesWell(script[0]) && Suffices(script[1..], k - 1, need - Amount(script[0]))
  {
    hide Taken, Amount, Calm;
    CalmStep(script, k);
    TakenUnfold(script, k);
  }

  lemma EnoughStep(script: seq<Io>, need: int)
    requires need > 0
    ensures Enough(script, need) <==> script != [] && GoesWell(script[0]) && Enough(script[1..], need - Amount(script[0]))
  {
    hide Calm, Suffices, Amount;
    SufficesNone(script, need);
    if Enough(script, need) {
      var k :| 0 <= k <= |script| && Suffices(script, k, need);
      SufficesStep(script, k, need);
    }
    if script != [] && GoesWell(script[0]) && Enough(script[1..], need - Amount(script[0])) {
      var k :| 0 <= k <= |script| - 1 && Suffices(script[1..], k, need - Amount(script[0]));
      SufficesStep(script, k + 1, need);
    }
  }

  lemma {:induction false} HeaderOut(left: nat, script: seq<Io>)
    ensures AfterHeader(left, script).Some? <==> Enough(script, left)
    decreases |script|
  {
    hide Enough;
    if left == 0 {
      EnoughNow(script, 0);
    } else {
      EnoughStep(script, left);
      if script != [] {
        match script[0]
        case Moves(n) =>
          if n > 0 {
            HeaderOut(left - Min(n, left), script[1..]);
            if n >= left {
              EnoughNow(script[1..], left - n);
              EnoughNow(script[1..], 0);
            }
          }
        case Again => HeaderOut(left, script[1..]);
        case Fails =>
        case TimedOut =>
      }
    }
  }

  lemma {:induction false} DataOut(left: nat, pad: nat, remaining: int, script: seq<Io>)
    requires Counted(left, pad, remaining)
    ensures Overrun(left, pad, remaining, script).Some? <==> Enough(script, remaining)
    decreases |script|
  {
    hide Enough;
    if remaining <= 0 {
      EnoughNow(script, remaining);
    } else {
      EnoughStep(script, remaining);
      if script != [] {
        match script[0]
        case Moves(n) =>
          if n > 0 {
            var rc := Min(n, left + pad);
            DataOut(if rc < left then left - rc else 0, pad, remaining - rc, script[1..]);
            if n >= left + pad {
              EnoughNow(script[1..], remaining - n);
              EnoughNow(script[1..], remaining - rc);
            }
          }
        case Again => DataOut(left, pad, remaining, script[1..]);
        case Fails =>
        case TimedOut =>
      }
    }
  }

  /** Sending succeeds exactly if calls that go well, however short, move the header and then
      the data with its padding; calls that are to be repeated do not matter. */
  lemma SendSucceeds(p: Pdu, script: seq<Io>)
    ensures AfterHeader(48, script).Some? <==> Enough(script, 48)
    ensures SentBytes(p, script).Some? <==>
            && AfterHeader(48, script).Some?
            && Enough(AfterHeader(48, script).value, RoundedUp(|p.data|))
  {
    hide Enough, Overrun, AfterHeader, Frame;
    HeaderOut(48, script);
    if AfterHeader(48, script).Some? {
      PadRounds(|p.data|);
      DataOut(|p.data|, PadBytes(|p.data|), |p.data| + PadBytes(|p.data|), AfterHeader(48, script).value);
    }
  }

  class Socket {
    var script: seq<Io>
    var sent: seq<byte>
    const incoming: seq<byte>
    var pos: nat

    constructor (script: seq<Io>, incoming: seq<byte>)
      ensures this.script == script && this.incoming == incoming && sent == [] && pos == 0
    {
      this.script, this.incoming, sent, pos := script, incoming, [], 0;
    }

    /** The next event; none left is a time-out. */
    method NextEvent() returns (e: Io)
      modifies `script
      ensures old(script) == [] ==> e == TimedOut && script == []
      ensures old(script) != [] ==> e == old(script[0]) && script == old(script[1..])
    {
      if script == [] {
        return TimedOut;
      }
      e := script[0];
      script := script[1..];
    }

    /** writev */
    method Write(bytes: seq<byte>) returns (rc: Rc)
      modifies `script, `sent
      ensures rc.Bytes? ==> 0 < rc.n <= |bytes|
      ensures sent == old(sent) + if rc.Bytes? then bytes[..rc.n] else []
      ensures old(script) == [] ==> rc == Error
      ensures old(script) != [] ==>
                && script == old(script[1..])
                && rc == match old(script[0])
                         case Moves(n) => if n == 0 || bytes == [] then Error else Bytes(Min(n, |bytes|))
                         case Again => Retry
                         case _ => Error
    {
      var e := NextEvent();
      match e
      case Moves(n) =>
        if n == 0 || bytes == [] {
          return Error;
        }
        rc := Bytes(Min(n, |bytes|));
        sent := sent + bytes[..rc.n];
      case Again => return Retry;
      case _ => return Error;
    }

    /** The header loop of iscsi_io_send_pdu. */
    method SendHeader(hdr: Header) returns (ok: bool)
      modifies `script, `sent
      ensures ok == AfterHeader(HEADER_LEN, old(script)).Some?
      ensures ok ==> AfterHeader(HEADER_LEN, old(script)) == Some(script) && sent == old(sent) + hdr
      ensures !ok ==> old(sent) <= sent <= old(sent) + hdr
    {
      var h := 0;
      while h < HEADER_LEN
        invariant 0 <= h <= HEADER_LEN && sent == old(sent) + hdr[..h]
        invariant AfterHeader(HEADER_LEN, old(script)) == AfterHeader(HEADER_LEN - h, script)
        decreases |script|, HEADER_LEN - h
      {
        if script == [] {
          return false;
        }
        var rc := Write(hdr[h..]);
        match rc
        case Error => return false;
        case Retry =>
        case Bytes(n) =>
          assert hdr[..h] + hdr[h..][..n] == hdr[..h + n];
          h := h + n;
      }
      assert hdr[..h] == hdr;
      return true;
    }

    /** The data loop of iscsi_io_send_pdu. */
    method SendData(data: seq<byte>, pad: nat) returns (ok: bool)
      requires pad < PAD_LEN
      modifies `script, `sent
      ensures var o := Overrun(|data|, pad, |data| + pad, old(script));
              && ok == o.Some?
              && (ok ==> o.value >= 0 && sent == old(sent) + data + Zeros(pad + o.value))
      ensures !ok ==> exists z: nat :: old(sent) <= sent <= old(sent) + data + Zeros(z)
    {
      hide Overrun;
      var at, remaining := 0, |data| + pad;
      ghost var padded: nat := 0;
      while remaining > 0
        invariant 0 <= at <= |data| && Counted(|data| - at, pad, remaining)
        invariant at < |data| ==> padded == 0
        invariant at + padded == |data| + pad - remaining
        invariant sent == old(sent) + data[..at] + Zeros(padded)
        invariant Overrun(|data|, pad, |data| + pad, old(script)) == Overrun(|data| - at, pad, remaining, script)
        decreases |script|, remaining
      {
        OverrunStep(|data| - at, pad, remaining, script);
        if script == [] {
          Partial(old(sent), sent, data, at, padded);
          return false;
        }
        var vec := data[at..] + Zeros(pad);
        var rc := Write(vec);
        match rc
        case Error =>
          Partial(old(sent), sent, data, at, padded);
          return false;
        case Retry =>
        case Bytes(n) =>
          SentMore(old(sent), data, pad, at, padded, n);
          padded := padded + if n > |data| - at then n - (|data| - at) else 0;
          remaining := remaining - n;
          if at < |data| {
            at := at + n;
            if at > |data| {
              at := |data|;
            }
          }
      }
      OverrunStep(|data| - at, pad, remaining, script);
      assert data[..at] == data;
      return true;
    }

    /** iscsi_io_send_pdu: what goes out is the frame, and zeros if padding was repeated */
    method SendPdu(p: Pdu) returns (ok: bool)
      requires WellFormed(p)
      modifies `script, `sent
      ensures ok == SentBytes(p, old(script)).Some?
      ensures ok ==> sent == old(sent) + SentBytes(p, old(script)).value
    {
      hide Overrun, AfterHeader;
      var pad := PadBytes(DataLength(p.hdr));
      ok := SendHeader(p.hdr);
      if !ok {
        return;
      }
      ok := SendData(p.data, pad);
      if ok {
        ghost var o := Overrun(|p.data|, pad, |p.data| + pad, AfterHeader(HEADER_LEN, old(script)).value).value;
        assert Zeros(pad + o) == Zeros(pad) + Zeros(o);
        assert sent == old(sent) + Frame(p) + Zeros(o);
      }
    }

    // ---------- receiving ----------

    /** read of up to `want` bytes into `buf` at `at` */
    method Read(buf: array<byte>, at: nat, want: nat) returns (rc: Rc)
      requires at + want <= buf.Length && want > 0 && pos <= |incoming|
      modifies `script, `pos, buf
      ensures pos <= |incoming|
      ensures rc.Bytes? ==> 0 < rc.n <= want && pos == old(pos) + rc.n && buf[at..at + rc.n] == incoming[old(pos)..pos]
      ensures !rc.Bytes? ==> pos == old(pos)
      ensures forall i :: 0 <= i < buf.Length && !(at <= i < at + want && rc.Bytes? && i < at + rc.n) ==> buf[i] == old(buf[i])
      ensures old(script) != [] ==> script == old(script[1..])
      ensures rc.Error? && Calm(old(script)) ==> old(script) == [] || pos == |incoming|
    {
      if script == [] {
        return Error;
      }
      var e := NextEvent();
      match e
      case Moves(n) =>
        var k := Min(n, Min(want, |incoming| - pos));
        if k == 0 {
          return Error;
        }
        var chunk := incoming[pos..pos + k];
        for i := 0 to k
          invariant pos == old(pos) && script == old(script[1..])
          invariant forall j :: 0 <= j < i ==> buf[at + j] == chunk[j]
          invariant forall j :: 0 <= j < buf.Length && !(at <= j < at + i) ==> buf[j] == old(buf[j])
        {
          buf[at + i] := chunk[i];
        }
        assert buf[at..at + k] == chunk;
        pos := pos + k;
        return Bytes(k);
      case Again => return Retry;
      case _ => return Error;
    }

    /** The read loops of iscsi_io_recv_pdu: exactly `n` bytes, however they come */
    method ReadFully(buf: array<byte>, n: nat) returns (ok: bool)
      requires n <= buf.Length && pos <= |incoming|
      modifies `script, `pos, buf
      ensures old(pos) <= pos <= |incoming|
      ensures ok ==> pos == old(pos) + n && buf[..n] == incoming[old(pos)..pos]
      ensures forall i :: n <= i < buf.Length ==> buf[i] == old(buf[i])
      ensures Calm(old(script)) ==> Calm(script)
      ensures !ok && Calm(old(script)) ==> script == [] || old(pos) + n > |incoming|
    {
      var got := 0;
      while got < n
        invariant 0 <= got <= n && pos == old(pos) + got <= |incoming|
        invariant buf[..got] == incoming[old(pos)..pos]
        invariant forall i :: n <= i < buf.Length ==> buf[i] == old(buf[i])
        invariant Calm(old(script)) ==> Calm(script)
        decreases |script|, n - got
      {
        if script == [] {
          return false;
        }
        ghost var front := buf[..got];
        var rc := Read(buf, got, n - got);
        match rc
        case Error => return false;
        case Retry => assert buf[..got] == front;
        case Bytes(k) =>
          assert buf[..got + k] == front + buf[got..got + k];
          assert incoming[old(pos)..pos] == incoming[old(pos)..pos - k] + incoming[pos - k..pos];
          got := got + k;
      }
      return true;
    }

    /** iscsi_io_recv_pdu: the header and the data it read, the bytes consumed, and the
        length it reports */
    method RecvPdu(hdr: array<byte>, data: array<byte>) returns (length: Option<nat>)
      requires hdr.Length == HEADER_LEN && hdr != data && pos <= |incoming|
      modifies `script, `pos, hdr, data
      ensures pos <= |incoming|
      ensures length.Some? ==>
                && HEADER_LEN <= length.value <= HEADER_LEN + data.Length
                && Received(incoming, old(pos), data.Length) == Some((Pdu(hdr[..], data[..length.value - HEADER_LEN]), pos))
                && (forall i :: length.value - HEADER_LEN <= i < data.Length ==> data[i] == 0)
      ensures length.Some? ==>
                && hdr[4] == 0 && length.value == 48 + hdr[5] as int * 0x1_0000 + hdr[6] as int * 256 + hdr[7]
                && pos == old(pos) + 48 + RoundedUp(length.value - 48)
      ensures length.None? && Calm(old(script)) ==> script == [] || Received(incoming, old(pos), data.Length) == None
    {
      forall i | 0 <= i < data.Length { data[i] := 0; }
      var ok := ReadFully(hdr, HEADER_LEN);
      if !ok {
        return None;
      }
      var h: Header := hdr[..];
      assert h == incoming[old(pos)..old(pos) + HEADER_LEN];
      if AhsLength(h) != 0 {
        return None;
      }
      var n := DataLength(h);
      if n == 0 {
        assert data[..0] == incoming[old(pos) + HEADER_LEN..old(pos) + HEADER_LEN];
        return Some(HEADER_LEN);
      }
      if n > data.Length {
        return None;
      }
      length := RecvData(data, n);
    }

    /** The data and its padding. */
    method RecvData(data: array<byte>, n: nat) returns (length: Option<nat>)
      requires 0 < n <= data.Length && pos <= |incoming|
      modifies `script, `pos, data
      ensures pos <= |incoming|
      ensures length.Some? ==> length.value == HEADER_LEN + n && pos == old(pos) + n + PadBytes(n)
      ensures length.Some? ==> data[..n] == incoming[old(pos)..old(pos) + n]
      ensures forall i :: n <= i < data.Length ==> data[i] == old(data[i])
      ensures length.None? && Calm(old(script)) ==> script == [] || old(pos) + n + PadBytes(n) > |incoming|
    {
      var ok := ReadFully(data, n);
      if !ok {
        return None;
      }
      var pad := PadBytes(n);
      if pad > 0 {
        var bytes := new byte[PAD_LEN](_ => 0);
        ok := ReadFully(bytes, pad);
        if !ok {
          return None;
        }
      }
      return Some(HEADER_LEN + n);
    }
  }

  lemma OverrunStep(left: nat, pad: nat, remaining: int, script: seq<Io>)
    ensures Overrun(left, pad, remaining, script) ==
            if remaining <= 0 then Some(-remaining)
            else if script == [] then None
            else match script[0]
                 case Moves(n) =>
                   if n == 0 then None
                   else var rc := Min(n, left + pad);
                        Overrun(if rc < left then left - rc else 0, pad, remaining - rc, script[1..])
                 case Again => Overrun(left, pad, remaining, script[1..])
                 case Fails => None
                 case TimedOut => None
  {
  }

  lemma Partial(before: seq<byte>, sent: seq<byte>, data: seq<byte>, at: nat, padded: nat)
    requires at <= |data| && (at < |data| ==> padded == 0) && sent == before + data[..at] + Zeros(padded)
    ensures exists z: nat :: before <= sent <= before + data + Zeros(z)
  {
    assert before <= sent <= before + data + Zeros(padded);
  }

  lemma SentMore(before: seq<byte>, data: seq<byte>, pad: nat, at: nat, padded: nat, n: nat)
    requires at <= |data| && (at < |data| ==> padded == 0) && n <= |data| - at + pad
    ensures var left := |data| - at; var over := if n > left then n - left else 0;
            before + data[..at] + Zeros(padded) + (data[at..] + Zeros(pad))[..n]
            == before + data[..at + n - over] + Zeros(padded + over)
  {
    var left := |data| - at;
    if n <= left {
      assert (data[at..] + Zeros(pad))[..n] == data[at..][..n];
      assert data[..at] + data[at..][..n] == data[..at + n];
      if at < |data| {
        assert before + data[..at] + Zeros(0) == before + data[..at];
      }
    } else {
      assert (data[at..] + Zeros(pad))[..n] == data[at..] + Zeros(n - left);
      assert Zeros(padded) + Zeros(n - left) == Zeros(padded + (n - left));
      assert data[..at] + data[at..] == data;
    }
  }
}
