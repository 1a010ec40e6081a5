/** An initiator and a target of this implementation, run against each other: what the
    login code does with a client's outgoing keys and with an incoming message. */
module ChapExchange {
  import opened CText
  import opened Codec
  import opened KeyBlocks
  import opened Chap
  import ChapRuns

  /** Hand key number `t` of the sender's message, if it has that key, to the receiver. */
  function Hand(c: Acl, from: Acl, t: int): Acl {
    match KeyOf(t)
    case Some(k) =>
      (match Outgoing(from, k)
       case Some(text) => RecvKeyValue(c, t, Some(text)).acl
       case None => c)
    case None => c
  }

  /** acl_recv_begin, acl_recv_transit_bit, and acl_recv_key_value for every key. */
  function Take(c: Acl, from: Acl): Acl {
    var b := RecvBegin(c).acl;
    var b := b.(recv := b.recv.(transitBit := from.send.transitBit));
    HandFrom(b, from, 0)
  }

  function HandFrom(c: Acl, from: Acl, t: nat): Acl
    decreases 6 - t
  {
    if t >= 6 then c else HandFrom(Hand(c, from, t), from, t + 1)
  }

  /** One message from one client to the other. */
  function Deliver(h: Digest, from: Acl, to: Acl, s: Session, o: Oracle): Result {
    if Active(to) then RecvEnd(h, Take(to, from), s, o) else Result(to.Broken(), Error)
  }

  predicate Active(c: Acl) {
    c.live && !c.recvInProgress && c.flow.phase in {Configure, Negotiate, Authenticate}
  }

  // ---------- what arrives ----------

  function Cap(k: Key): nat {
    match k
    case AuthMethod => 9 case ChapAlg => 9 case ChapUsername => 255
    case ChapRsp => 66 case ChapIdentifier => 3 case ChapChallenge => 0
  }

  /** The message fits into the receiver's block. */
  predicate Modest(c: Acl) {
    && (forall k :: k in c.send.values ==> |c.send.values[k]| <= Cap(k))
    && (ChapChallenge in c.send.values ==> 1 <= |c.sendChallenge| <= 32)
  }

  function Bound(t: nat): nat {
    if t == 0 then 0 else if t == 1 then 10 else if t == 2 then 20 else if t == 3 then 276
    else if t == 4 then 343 else if t == 5 then 347 else 348
  }

  /** The keys numbered below `t` have arrived, each with the text that was sent. */
  predicate Arrived(b: Block, from: Acl, t: nat) {
    && !b.Defective() && b.claimed == b.values.Keys && b.processed == {}
    && b.transitBit == from.send.transitBit && b.blkLength <= Bound(t)
    && (forall k :: k in b.values <==> k in from.send.values && SlotOf(k) < t)
    && (forall k :: k in b.values ==> b.values[k] == from.send.values[k])
  }

  lemma SetArrives(b: Block, from: Acl, k: Key)
    requires Modest(from) && Arrived(b, from, SlotOf(k))
    ensures k in from.send.values ==> Arrived(b.Set(k, Some(from.send.values[k])), from, SlotOf(k) + 1)
    ensures k !in from.send.values ==> Arrived(b, from, SlotOf(k) + 1)
  {
    assert forall k' :: SlotOf(k') == SlotOf(k) ==> k' == k;
    if k in from.send.values {
      var v := from.send.values[k];
      assert k !in b.claimed;
      assert |v| <= Cap(k) && b.blkLength + Cap(k) + 1 <= Bound(SlotOf(k) + 1) <= STR_BLOCK_MAX_LEN;
      var d := b.Set(k, Some(v));
      assert d.values == b.values[k := v];
      assert d.claimed == d.values.Keys;
    }
  }

  lemma HandFacts(c: Acl, from: Acl, t: nat)
    requires t < 6 && Exchanging(c) && Modest(from) && Arrived(c.recv, from, t)
    ensures var d := Hand(c, from, t);
            && Arrived(d.recv, from, t + 1)
            && d == c.(recv := d.recv, recvChallenge := d.recvChallenge)
            && d.recvChallenge == (if t == 5 && ChapChallenge in from.send.values then Some(from.sendChallenge)
                                   else c.recvChallenge)
  {
    var k := KeyOf(t).value;
    assert KeyOf(t) == Some(k) && SlotOf(k) == t;
    SetArrives(c.recv, from, k);
    hide TextToData, HexText, Arrived, Block.Set, KeyOf;
    if k == ChapChallenge && k in from.send.values {
      assert from.send.values[k] == "";
      HexRoundTrip(from.sendChallenge, LARGE_BINARY_MAX_LEN);
    }
  }

  lemma {:induction false} HandFromFacts(c: Acl, from: Acl, t: nat)
    requires t <= 6 && Exchanging(c) && Modest(from) && Arrived(c.recv, from, t)
    requires t == 6 ==> ChapChallenge in from.send.values ==> c.recvChallenge == Some(from.sendChallenge)
    ensures var d := HandFrom(c, from, t);
            && Arrived(d.recv, from, 6)
            && d == c.(recv := d.recv, recvChallenge := d.recvChallenge)
            && d.recvChallenge == (if ChapChallenge in from.send.values then Some(from.sendChallenge) else c.recvChallenge)
    decreases 6 - t
  {
    hide Hand, Arrived, Modest;
    if t < 6 {
      HandFacts(c, from, t);
      HandFromFacts(Hand(c, from, t), from, t + 1);
    }
  }

  /** The receiver, once it has the whole message. */
  lemma TakeFacts(c: Acl, from: Acl)
    requires Active(c) && Modest(from)
    ensures var d := Take(c, from);
            && d == c.(flow := if c.flow.phase == Configure then c.flow.(phase := Negotiate) else c.flow,
                       recvInProgress := true, transitBitSent := c.send.transitBit,
                       recvChallenge := if ChapChallenge in from.send.values then Some(from.sendChallenge)
                                        else c.recvChallenge,
                       recv := d.recv, send := EmptyBlock)
            && d.recv.values == from.send.values && d.recv.transitBit == from.send.transitBit
            && !d.recv.Defective() && d.recv.processed == {}
  {
    var r := RecvBegin(c).acl;
    var b := r.(recv := r.recv.(transitBit := from.send.transitBit));
    assert Arrived(b.recv, from, 0);
    hide HandFrom, Arrived, Modest;
    HandFromFacts(b, from, 0);
    ArrivedAll(Take(c, from).recv, from);
  }

  lemma ArrivedAll(b: Block, from: Acl)
    requires Arrived(b, from, 6)
    ensures b.values == from.send.values && b.transitBit == from.send.transitBit
    ensures !b.Defective() && b.processed == {}
  {
    assert forall k :: SlotOf(k) < 6;
    assert b.values.Keys == from.send.values.Keys;
  }

  // ---------- delivering is calling ----------

  /** The calls that hand a sender's keys, from number `t` on, to a receiver. */
  function KeyOps(from: Acl, t: nat): seq<Op>
    decreases 6 - t
  {
    if t >= 6 then [] else KeyOp(from, t) + KeyOps(from, t + 1)
  }

  function KeyOp(from: Acl, t: nat): seq<Op> {
    match KeyOf(t)
    case Some(k) => (match Outgoing(from, k) case Some(text) => [KeyValue(t, Some(text))] case None => [])
    case None => []
  }

  function MessageOps(from: Acl): seq<Op> {
    [Begin] + [TransitBit(from.send.transitBit)] + KeyOps(from, 0)
  }

  lemma RunSingle(h: Digest, c: Acl, op: Op)
    ensures Run(h, c, [op]) == Step(h, c, op).acl
  {
    hide Step;
    assert [op][..0] == [];
  }

  lemma KeysStayLive(c: Acl, from: Acl, t: nat)
    requires c.live
    ensures Hand(c, from, t).live
  {
    hide Block.Set, TextToData, Outgoing;
  }

  lemma KeyOpRun(h: Digest, c: Acl, from: Acl, t: nat)
    requires c.live
    ensures Run(h, c, KeyOp(from, t)) == Hand(c, from, t)
  {
    hide Run, Outgoing, RecvKeyValue, KeyOf;
    match KeyOf(t)
    case Some(k) =>
      if Outgoing(from, k).Some? {
        RunSingle(h, c, KeyValue(t, Outgoing(from, k)));
      } else {
        RunEmpty(h, c);
      }
    case None => RunEmpty(h, c);
  }

  lemma RunEmpty(h: Digest, c: Acl)
    ensures Run(h, c, []) == c
  {
  }

  lemma {:induction false} KeyOpsRun(h: Digest, c: Acl, from: Acl, t: nat)
    requires c.live
    ensures Run(h, c, KeyOps(from, t)) == HandFrom(c, from, t)
    decreases 6 - t
  {
    hide Run, KeyOp, Hand;
    if t < 6 {
      KeysStayLive(c, from, t);
      KeyOpsRun(h, Hand(c, from, t), from, t + 1);
      KeyOpRun(h, c, from, t);
      ChapRuns.RunAppend(h, c, KeyOp(from, t), KeyOps(from, t + 1));
    } else {
      RunEmpty(h, c);
    }
  }

  /** Delivering a message is the sequence of calls the login code makes. */
  lemma DeliverIsCalls(h: Digest, from: Acl, to: Acl, s: Session, o: Oracle)
    requires Active(to)
    ensures Deliver(h, from, to, s, o) == Step(h, Run(h, to, MessageOps(from)), End(s, o))
  {
    hide Run, HandFrom, KeyOps, RecvEnd, Step;
    var b := Step(h, to, Begin).acl;
    var c := Step(h, b, TransitBit(from.send.transitBit)).acl;
    RunSingle(h, to, Begin);
    RunSingle(h, b, TransitBit(from.send.transitBit));
    ChapRuns.RunAppend(h, to, [Begin], [TransitBit(from.send.transitBit)]);
    ChapRuns.RunAppend(h, to, [Begin] + [TransitBit(from.send.transitBit)], KeyOps(from, 0));
    BeginSteps(h, from, to);
    KeyOpsRun(h, c, from, 0);
    EndStep(h, HandFrom(c, from, 0), s, o, from, c);
  }

  lemma BeginSteps(h: Digest, from: Acl, to: Acl)
    requires Active(to)
    ensures var b := Step(h, to, Begin).acl; var c := Step(h, b, TransitBit(from.send.transitBit)).acl;
            c.live && Take(to, from) == HandFrom(c, from, 0)
  {
    hide HandFrom;
  }

  lemma {:induction false} HandFromStaysLive(c: Acl, from: Acl, t: nat)
    requires c.live
    ensures HandFrom(c, from, t).live
    decreases 6 - t
  {
    hide Hand;
    if t < 6 {
      KeysStayLive(c, from, t);
      HandFromStaysLive(Hand(c, from, t), from, t + 1);
    }
  }

  lemma EndStep(h: Digest, d: Acl, s: Session, o: Oracle, from: Acl, c: Acl)
    requires c.live && d == HandFrom(c, from, 0)
    ensures Step(h, d, End(s, o)) == RecvEnd(h, d, s, o)
  {
    hide RecvEnd, HandFrom;
    HandFromStaysLive(c, from, 0);
  }
}
