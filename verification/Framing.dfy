/** iSCSI PDU framing (section 10.1 of RFC 3720) as usr/io.c does it over a socket: a
    48-byte header, the data, and zeros up to a multiple of four.  Additional headers are
    not used. */
module Framing {
  import opened CText

  const HEADER_LEN := 48
  const PAD_LEN := 4

  type Header = h: seq<byte> | |h| == HEADER_LEN witness seq(HEADER_LEN, _ => 0)

  function AhsLength(h: Header): nat { h[4] }

  /** ntoh24 of the data segment length */
  function DataLength(h: Header): nat { h[5] as int * 0x1_0000 + h[6] as int * 256 + h[7] }

  function PadBytes(n: nat): (p: nat)
    ensures p < PAD_LEN && (n + p) % PAD_LEN == 0
  {
    if n % PAD_LEN == 0 then 0 else PAD_LEN - n % PAD_LEN
  }

  function Zeros(n: nat): (z: seq<byte>)
    ensures |z| == n && forall i :: 0 <= i < n ==> z[i] == 0
  {
    seq(n, _ => 0)
  }

  datatype Pdu = Pdu(hdr: Header, data: seq<byte>)

  predicate WellFormed(p: Pdu) { AhsLength(p.hdr) == 0 && DataLength(p.hdr) == |p.data| }

  function Frame(p: Pdu): seq<byte> {
    p.hdr + p.data + Zeros(PadBytes(|p.data|))
  }

  // ---------- sending ----------

  /** What one call to the socket does: it moves up to `n` bytes, or is to be repeated, or
      fails, or the alarm goes off.  A script that runs out stands for the alarm.  A write
      that returns zero is to be repeated if errno still says so, and fails otherwise;
      `Moves(0)` is one that fails. */
  datatype Io = Moves(n: nat) | Again | Fails | TimedOut

  function Min(a: int, b: int): int { if a < b then a else b }

  /** The data loop of iscsi_io_send_pdu with `left` bytes of data and `remaining` bytes to
      count down: every call offers the rest of the data and all of the padding.  The
      result is how many bytes too many have gone out in the end. */
  function Overrun(left: nat, pad: nat, remaining: int, script: seq<Io>): Option<int>
    decreases |script|
  {
    if remaining <= 0 then Some(-remaining)
    else if script == [] then None
    else
      match script[0]
      case Moves(n) =>
        if n == 0 then None
        else
          var rc := Min(n, left + pad);
          Overrun(if rc < left then left - rc else 0, pad, remaining - rc, script[1..])
      case Again => Overrun(left, pad, remaining, script[1..])
      case Fails => None
      case TimedOut => None
  }

  /** The counters of the data loop agree while data is left. */
  predicate Counted(left: nat, pad: nat, remaining: int) {
    (left > 0 ==> remaining == left + pad) && remaining <= left + pad && (pad == 0 ==> remaining <= left)
  }

  /** At most the padding less one byte is sent too often. */
  lemma {:induction false} OverrunBound(left: nat, pad: nat, remaining: int, script: seq<Io>)
    requires Counted(left, pad, remaining) && -remaining < PAD_LEN && pad < PAD_LEN
    requires remaining <= 0 ==> remaining == 0 || -remaining < pad
    ensures var o := Overrun(left, pad, remaining, script); o.Some? ==> 0 <= o.value && (o.value == 0 || o.value < pad)
    decreases |script|
  {
    if remaining > 0 && script != [] {
      match script[0]
      case Moves(n) =>
        if n > 0 {
          var rc := Min(n, left + pad);
          OverrunBound(if rc < left then left - rc else 0, pad, remaining - rc, script[1..]);
        }
      case Again => OverrunBound(left, pad, remaining, script[1..]);
      case Fails =>
      case TimedOut =>
    }
  }

  function Amount(e: Io): nat { if e.Moves? then e.n else 0 }

  /** How many bytes the socket is ready to take in its first `k` calls. */
  function Taken(script: seq<Io>, k: nat): nat
    requires k <= |script|
  {
    if k == 0 then 0 else Amount(script[0]) + Taken(script[1..], k - 1)
  }

  /** With `sent` bytes out already, a call ends strictly inside the padding of `length`
      bytes of data. */
  ghost predicate EndsInside(length: nat, pad: nat, sent: nat, script: seq<Io>) {
    exists k :: 0 <= k <= |script| && length < sent + Taken(script, k) < length + pad
  }

  /** The calls add up to data and padding at some point. */
  ghost predicate AddsUp(length: nat, pad: nat, sent: nat, script: seq<Io>) {
    exists k :: 0 <= k <= |script| && sent + Taken(script, k) == length + pad
  }

  lemma TakenUnfold(script: seq<Io>, k: nat)
    requires 1 <= k <= |script|
    ensures Taken(script, k) == Amount(script[0]) + Taken(script[1..], k - 1)
  {
  }

  lemma TakenNone(script: seq<Io>)
    ensures Taken(script, 0) == 0
  {
  }

  lemma InsideUnfold(length: nat, pad: nat, sent: nat, script: seq<Io>)
    requires script != []
    ensures EndsInside(length, pad, sent, script) <==>
            length < sent < length + pad || EndsInside(length, pad, sent + Amount(script[0]), script[1..])
  {
    hide Taken, Amount;
    TakenNone(script);
    if EndsInside(length, pad, sent, script) {
      var k :| 0 <= k <= |script| && length < sent + Taken(script, k) < length + pad;
      if k > 0 {
        TakenUnfold(script, k);
        assert length < sent + Amount(script[0]) + Taken(script[1..], k - 1) < length + pad;
      }
    }
    if EndsInside(length, pad, sent + Amount(script[0]), script[1..]) {
      var k :| 0 <= k <= |script| - 1 && length < sent + Amount(script[0]) + Taken(script[1..], k) < length + pad;
      TakenUnfold(script, k + 1);
    }
  }

  lemma AddsUpUnfold(length: nat, pad: nat, sent: nat, script: seq<Io>)
    requires script != []
    ensures AddsUp(length, pad, sent, script) <==>
            sent == length + pad || AddsUp(length, pad, sent + Amount(script[0]), script[1..])
  {
    hide Taken, Amount;
    TakenNone(script);
    if AddsUp(length, pad, sent, script) {
      var k :| 0 <= k <= |script| && sent + Taken(script, k) == length + pad;
      if k > 0 {
        TakenUnfold(script, k);
        assert sent + Amount(script[0]) + Taken(script[1..], k - 1) == length + pad;
      }
    }
    if AddsUp(length, pad, sent + Amount(script[0]), script[1..]) {
      var k :| 0 <= k <= |script| - 1 && sent + Amount(script[0]) + Taken(script[1..], k) == length + pad;
      TakenUnfold(script, k + 1);
    }
  }

  lemma InsideNow(length: nat, pad: nat, sent: nat, script: seq<Io>)
    ensures length < sent < length + pad ==> EndsInside(length, pad, sent, script)
  {
    TakenNone(script);
    hide Taken;
  }

  /** Past the end only the end itself can have been hit. */
  lemma PastEnd(length: nat, pad: nat, sent: nat, script: seq<Io>)
    requires sent >= length + pad
    ensures !EndsInside(length, pad, sent, script)
    ensures AddsUp(length, pad, sent, script) <==> sent == length + pad
  {
    TakenNone(script);
    hide Taken;
  }

  lemma {:induction false} ExactFrom(length: nat, pad: nat, sent: nat, script: seq<Io>)
    requires sent <= length + pad
    requires Overrun(if sent < length then length - sent else 0, pad, length + pad - sent, script).Some?
    ensures Overrun(if sent < length then length - sent else 0, pad, length + pad - sent, script) == Some(0) <==>
            !EndsInside(length, pad, sent, script) || AddsUp(length, pad, sent, script)
    decreases |script|
  {
    hide EndsInside, AddsUp;
    if sent == length + pad {
      PastEnd(length, pad, sent, script);
    } else {
      InsideUnfold(length, pad, sent, script);
      AddsUpUnfold(length, pad, sent, script);
      match script[0]
      case Moves(n) =>
        if sent + n < length + pad {
          InsideNow(length, pad, sent + n, script[1..]);
          ExactFrom(length, pad, sent + n, script[1..]);
        } else {
          PastEnd(length, pad, sent + n, script[1..]);
        }
      case Again =>
        InsideNow(length, pad, sent, script[1..]);
        ExactFrom(length, pad, sent, script[1..]);
    }
  }

  /** A PDU with `length` bytes of data goes out exact if and only if no call ends strictly
      inside its padding, or the calls add up to it all the same. */
  lemma ExactSend(length: nat, pad: nat, script: seq<Io>)
    requires Overrun(length, pad, length + pad, script).Some?
    ensures Overrun(length, pad, length + pad, script) == Some(0) <==>
            !EndsInside(length, pad, 0, script) || AddsUp(length, pad, 0, script)
  {
    hide Overrun, EndsInside, AddsUp;
    ExactFrom(length, pad, 0, script);
  }

  /** One byte of data and three of padding: after a call that takes two bytes the whole
      padding is offered again, and one zero too many goes out. */
  lemma PaddingRepeated()
    ensures Overrun(1, 3, 4, [Moves(2), Moves(3)]) == Some(1)
  {
    var script := [Moves(2), Moves(3)];
    assert script[1..] == [Moves(3)];
    assert Overrun(0, 3, 2, [Moves(3)]) == Some(1);
  }

  // ---------- receiving ----------

  /** What a receiver with room for `room` bytes of data makes of the bytes from `pos` on:
      the PDU, and where the next one begins. */
  function Received(s: seq<byte>, pos: nat, room: nat): Option<(Pdu, nat)> {
    if pos + HEADER_LEN > |s| then None
    else
      var h: Header := s[pos..pos + HEADER_LEN];
      var n := DataLength(h);
      var next := pos + HEADER_LEN + n + PadBytes(n);
      if AhsLength(h) != 0 || n > room || next > |s| then None
      else Some((Pdu(h, s[pos + HEADER_LEN..pos + HEADER_LEN + n]), next))
  }

  /** Receiving inverts framing, whatever comes before and after. */
  lemma FrameRoundTrip(before: seq<byte>, p: Pdu, after: seq<byte>, room: nat)
    requires WellFormed(p) && |p.data| <= room
    ensures Received(before + Frame(p) + after, |before|, room) == Some((p, |before| + |Frame(p)|))
  {
    var s := before + Frame(p) + after;
    assert s[|before|..|before| + HEADER_LEN] == p.hdr;
    assert s[|before| + HEADER_LEN..|before| + HEADER_LEN + |p.data|] == p.data;
  }

  /** `n` up to the next multiple of four. */
  function RoundedUp(n: nat): nat { (n + 3) / 4 * 4 }

  lemma PadRounds(n: nat)
    ensures n + PadBytes(n) == RoundedUp(n)
  {
  }

  /** The three bytes of a number, high byte first. */
  predicate BigEndian(n: nat, bytes: seq<byte>) {
    n < 0x100_0000 && bytes == [n / 0x1_0000, n / 256 % 256, n % 256]
  }

  lemma BigEndianIs(h: Header, n: nat)
    ensures BigEndian(n, h[5..8]) <==> n == DataLength(h)
  {
    assert h[5..8] == [h[5], h[6], h[7]];
    if BigEndian(n, h[5..8]) {
      assert h[5] == n / 0x1_0000 && h[6] == n / 256 % 256 && h[7] == n % 256;
      Digits256(n);
    } else {
      Bytes256(h[5], h[6], h[7]);
    }
  }

  lemma Digits256(n: nat)
    ensures n == n / 0x1_0000 * 0x1_0000 + n / 256 % 256 * 256 + n % 256
  {
    assert n == n / 256 * 256 + n % 256;
    assert n / 256 == n / 256 / 256 * 256 + n / 256 % 256;
    assert n / 256 / 256 == n / 0x1_0000;
  }

  lemma Bytes256(a: byte, b: byte, c: byte)
    ensures var n := a * 0x1_0000 + b * 256 + c; n / 0x1_0000 == a && n / 256 % 256 == b && n % 256 == c
  {
    var n := a * 0x1_0000 + b * 256 + c;
    assert n == (a * 256 + b) * 256 + c;
    assert n / 256 == a * 256 + b;
  }

  /** The wire format: a header of 48 bytes without additional headers whose bytes 5 to 7 are
      the length of the data, high byte first, then the data, then zeros to a multiple of
      four.  In any surroundings this is received as that header and that data, and the next
      PDU begins where the zeros end. */
  lemma WireFormat(before: seq<byte>, h: Header, data: seq<byte>, after: seq<byte>, room: nat)
    requires h[4] == 0 && BigEndian(|data|, h[5..8]) && |data| <= room
    ensures var wire := h + data + Zeros(RoundedUp(|data|) - |data|);
            && WellFormed(Pdu(h, data)) && Frame(Pdu(h, data)) == wire && |wire| == 48 + RoundedUp(|data|)
            && Received(before + wire + after, |before|, room) == Some((Pdu(h, data), |before| + |wire|))
  {
    hide DataLength, PadBytes;
    BigEndianIs(h, |data|);
    PadRounds(|data|);
    hide BigEndian;
    FrameRoundTrip(before, Pdu(h, data), after, room);
  }

  /** And nothing else is received: what comes out is a header of 48 bytes without additional
      headers and as much data as its bytes 5 to 7 say, which fits the room; and it comes out
      exactly if the stream has that much, padded. */
  lemma OnlyWireFormat(s: seq<byte>, pos: nat, room: nat)
    ensures Received(s, pos, room).Some? <==>
            && pos + 48 <= |s| && s[pos + 4] == 0
            && var n := s[pos + 5] as int * 0x1_0000 + s[pos + 6] as int * 256 + s[pos + 7];
               n <= room && pos + 48 + RoundedUp(n) <= |s|
    ensures Received(s, pos, room).Some? ==>
            var p, next := Received(s, pos, room).value.0, Received(s, pos, room).value.1;
            && p.hdr == s[pos..pos + 48] && BigEndian(|p.data|, p.hdr[5..8])
            && next == pos + 48 + RoundedUp(|p.data|) <= |s| && p.data == s[pos + 48..pos + 48 + |p.data|]
  {
    if pos + 48 <= |s| {
      var h: Header := s[pos..pos + 48];
      PadRounds(DataLength(h));
      BigEndianIs(h, DataLength(h));
    }
    hide BigEndian;
  }

  function Stream(pdus: seq<Pdu>): seq<byte> {
    if pdus == [] then [] else Stream(pdus[..|pdus| - 1]) + Frame(pdus[|pdus| - 1])
  }

  function ReceivedAll(s: seq<byte>, pos: nat, room: nat, count: nat): Option<(seq<Pdu>, nat)>
    decreases count
  {
    if count == 0 then Some(([], pos))
    else
      match Received(s, pos, room)
      case None => None
      case Some(r) =>
        (match ReceivedAll(s, r.1, room, count - 1)
         case None => None
         case Some(more) => Some(([r.0] + more.0, more.1)))
  }

  predicate Fitting(pdus: seq<Pdu>, room: nat) {
    forall i :: 0 <= i < |pdus| ==> WellFormed(pdus[i]) && |pdus[i].data| <= room
  }

  lemma StreamNone()
    ensures Stream([]) == []
  {
  }

  lemma StreamMore(pdus: seq<Pdu>, p: Pdu)
    ensures Stream(pdus + [p]) == Stream(pdus) + Frame(p)
  {
    hide Frame;
    assert (pdus + [p])[..|pdus|] == pdus;
  }

  lemma {:induction false} StreamSplit(pdus: seq<Pdu>, more: seq<Pdu>)
    ensures Stream(pdus + more) == Stream(pdus) + Stream(more)
    decreases |more|
  {
    hide Frame, Stream;
    if more == [] {
      assert pdus + more == pdus;
      StreamNone();
      assert Stream(pdus) + [] == Stream(pdus);
    } else {
      var front, last := more[..|more| - 1], more[|more| - 1];
      assert more == front + [last];
      assert pdus + more == (pdus + front) + [last];
      StreamSplit(pdus, front);
      StreamMore(front, last);
      StreamMore(pdus + front, last);
      assert Stream(pdus) + (Stream(front) + Frame(last)) == Stream(pdus) + Stream(front) + Frame(last);
    }
  }

  /** Back-to-back PDUs stay aligned: a stream of frames is received as the PDUs it was made
      of, to its last byte. */
  lemma {:induction false} StreamRoundTrip(done: seq<Pdu>, pdus: seq<Pdu>, room: nat)
    requires Fitting(pdus, room)
    ensures ReceivedAll(Stream(done + pdus), |Stream(done)|, room, |pdus|) == Some((pdus, |Stream(done + pdus)|))
    decreases |pdus|
  {
    hide Frame, Stream, Received;
    if pdus == [] {
      assert done + pdus == done;
    } else {
      var p, rest := pdus[0], pdus[1..];
      assert done + pdus == (done + [p]) + rest;
      StreamSplit(done + [p], rest);
      StreamMore(done, p);
      FrameRoundTrip(Stream(done), p, Stream(rest), room);
      StreamRoundTrip(done + [p], rest, room);
      assert [p] + rest == pdus;
    }
  }

  /** Bytes sent too often come before the next header. */
  lemma OverrunShifts(p: Pdu, extra: nat, next: Pdu, room: nat)
    requires WellFormed(p) && |p.data| <= room && 0 < extra < PAD_LEN
    ensures var s := Frame(p) + Zeros(extra) + Frame(next);
            && Received(s, 0, room) == Some((p, |Frame(p)|))
            && s[|Frame(p)|..|Frame(p)| + HEADER_LEN] == Zeros(extra) + next.hdr[..HEADER_LEN - extra]
  {
    var s := Frame(p) + Zeros(extra) + Frame(next);
    assert s == [] + Frame(p) + (Zeros(extra) + Frame(next));
    FrameRoundTrip([], p, Zeros(extra) + Frame(next), room);
  }
}
