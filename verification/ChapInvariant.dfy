/** The invariant of an authentication client, kept by every call. */
module ChapInvariant {
  import opened CText
  import opened Codec
  import opened KeyBlocks
  import opened Chap
  import opened ChapSteps

  /** What every call keeps of the exchange ... */
  predicate ExchangeInv(cfg: Config, negRole: Role, flow: Flow, neg: Terms, sent: nat) {
    && (flow.phase in {Configure, Negotiate} ==> flow == Flow(flow.phase, LocalUnset, RmtUnset, NoError, false))
    && flow.rmtAuthStatus in {NoError, Pass, Fail}
    && (flow.phase == Authenticate ==>
          InStep(cfg, flow, neg, sent) && (cfg.nodeType == Initiator ==> flow.rmtState != RmtSendAlg))
    && (cfg.nodeType == Initiator && flow.rmtState == RmtRecvRsp ==> InStep(cfg, flow, neg, sent))
    && (cfg.authRmt && flow.rmtAuthStatus == Pass ==> flow.authRspFlag && neg.authMethod == METHOD_CHAP)
    && (cfg.nodeType == Initiator ==> cfg.methodNegRole == Originator && negRole == Originator)
  }

  /** ... and of the client as a whole. */
  predicate Inv(c: Acl) {
    && ExchangeInv(c.cfg, c.negRole, c.flow, c.neg, |c.sendChallenge|)
    && (c.flow.phase == Configure ==> !c.recvInProgress)
    && (c.recvInProgress ==> c.recv.processed == {} && c.flow.phase != PhaseDone)
  }

  predicate AwaitingResponse(c: Acl) { c.flow.phase == Authenticate && c.flow.rmtState == RmtRecvRsp }

  /** The challenge has been sent, or the exchange is over. */
  predicate Settled(c: Acl) {
    c.flow.rmtState in {RmtRecvRsp, RmtDone} || c.flow.phase in {PhaseDone, PhaseError}
  }

  predicate SameNonce(c: Acl, d: Acl) {
    d.neg.chapAlg == c.neg.chapAlg && d.neg.challengeLen == c.neg.challengeLen &&
    d.sendId == c.sendId && d.sendChallenge == c.sendChallenge
  }

  /** What a completed acl_recv_end returns: its status and the shape of the message. */
  ghost predicate EndOf(c: Acl, r: Result) {
    var d := r.acl;
    && d.live == c.live && d.cfg == c.cfg && !d.recvInProgress && d.recvEndCount == c.recvEndCount + 1
    && r.status != Error && d.flow.phase in {Negotiate, Authenticate, PhaseDone}
    && (d.flow.phase == PhaseDone <==> r.status != Continue)
    && (r.status == Pass ==> d.flow.rmtAuthStatus == Pass)
    && (c.recvEndCount > RECV_END_MAX_COUNT ==> d.flow.phase == PhaseDone)
    && (GoesOn(r.status) ==> c.recv.values.Keys <= ExpectedKeys(c))
    && (!GoesOn(r.status) && c.cfg.nodeType == Initiator ==> d.send == EmptyBlock)
    && (r.status == Pass && c.cfg.nodeType == Initiator ==> c.recv.transitBit && c.transitBitSent)
  }

  /** ... and what it did with challenges and responses. */
  ghost predicate SecretsOf(h: Digest, c: Acl, s: Session, o: Oracle, r: Result) {
    var d := r.acl;
    && (AwaitingResponse(d) ==> r.status == Continue && !d.send.Defective() && Challenges(d, o))
    && (c.flow.rmtState in {RmtRecvRsp, RmtDone} ==> SameNonce(c, d) && Settled(d))
    && (c.cfg.authRmt && d.flow.rmtAuthStatus == Pass ==>
          c.flow.rmtAuthStatus == Pass || (AwaitingResponse(c) && ProvesPeer(h, c, s)))
  }

  lemma HandShakeFacts(c: Acl)
    requires c.flow.phase in {Negotiate, Authenticate, PhaseDone}
    ensures var d := HandShake(c);
            && d == c.(flow := d.flow, send := d.send)
            && d.send == c.send.(transitBit := d.send.transitBit)
            && d.flow == c.flow.(phase := d.flow.phase, rmtAuthStatus := d.flow.rmtAuthStatus)
            && d.flow.phase in {c.flow.phase, PhaseDone}
            && (d.flow.phase != PhaseDone || c.flow.phase == PhaseDone ==> d.flow == c.flow)
            && (d.flow.rmtAuthStatus == Fail || d.flow.rmtAuthStatus == c.flow.rmtAuthStatus)
            && (c.flow.phase != PhaseDone && d.flow.phase == PhaseDone && c.cfg.nodeType == Initiator ==>
                  d.flow.rmtAuthStatus == Fail || (c.recv.transitBit && c.transitBitSent))
  {
  }

  lemma EndStatusFacts(c: Acl)
    requires c.flow.phase in {Negotiate, Authenticate, PhaseDone}
    requires c.flow.rmtAuthStatus in {NoError, Pass, Fail}
    ensures var r := EndStatus(c); var d := r.acl;
            && d == c.(flow := d.flow, send := d.send, recvInProgress := false)
            && d.flow == c.flow.(phase := d.flow.phase, rmtAuthStatus := d.flow.rmtAuthStatus)
            && (GoesOn(r.status) ==> d.flow == c.flow && d.send == c.send && !c.send.Defective()
                                     && c.recv.values.Keys <= c.recv.processed)
            && (!GoesOn(r.status) ==> d.flow.phase == PhaseDone && d.flow.rmtAuthStatus == r.status
                                      && (c.cfg.nodeType == Initiator ==> d.send == EmptyBlock))
            && (r.status == Continue ==> c.flow.phase != PhaseDone)
            && (r.status == Pass ==> c.flow.phase == PhaseDone && c.flow.rmtAuthStatus == Pass)
            && r.status != Error
  {
    hide KeyBlocks.Block.Set;
  }

  /** The checks on a whole message leave it for the phase to work on, or end the exchange. */
  lemma ScreenedFacts(h: Digest, c: Acl, s: Session)
    ensures var d := Screened(c);
            && d == c.(flow := d.flow, recvEndCount := c.recvEndCount + 1)
            && (d.flow == c.flow || d.flow == c.flow.(phase := PhaseDone, rmtAuthStatus := Fail))
            && (c.recvEndCount > RECV_END_MAX_COUNT ==> d.flow.phase == PhaseDone && d.flow.rmtAuthStatus == Fail)
            && (ProvesPeer(h, d, s) ==> ProvesPeer(h, c, s))
            && (d.flow == c.flow ==> ExpectedKeys(d) == ExpectedKeys(c))
  {
    hide TextToData;
  }

  lemma EndFacts(h: Digest, c: Acl, s: Session, o: Oracle)
    requires Inv(c) && c.recvInProgress && c.flow.phase != PhaseError
    ensures EndOf(c, RecvEnd(h, c, s, o))
  {
    hide Screened, Advanced, HandShake, EndStatus, ProvesPeer, Challenges, ExpectedKeys;
    ScreenedFacts(h, c, s);
    AdvancedFacts(h, Screened(c), s, o);
    var a := Advanced(h, Screened(c), s, o);
    HandShakeFacts(a);
    EndStatusFacts(HandShake(a));
  }

  lemma EndSecrets(h: Digest, c: Acl, s: Session, o: Oracle)
    requires Inv(c) && c.recvInProgress && c.flow.phase != PhaseError
    ensures SecretsOf(h, c, s, o, RecvEnd(h, c, s, o))
  {
    hide Screened, Advanced, HandShake, EndStatus, ProvesPeer, Decimal, ExpectedKeys;
    ScreenedFacts(h, c, s);
    AdvancedFacts(h, Screened(c), s, o);
    var a := Advanced(h, Screened(c), s, o);
    HandShakeFacts(a);
    EndStatusFacts(HandShake(a));
  }

  lemma EndKeepsInv(h: Digest, c: Acl, s: Session, o: Oracle)
    requires Inv(c) && c.recvInProgress && c.flow.phase != PhaseError
    ensures Inv(RecvEnd(h, c, s, o).acl)
  {
    hide Screened, Advanced, HandShake, EndStatus, ProvesPeer, Challenges, ExpectedKeys;
    ScreenedFacts(h, c, s);
    AdvancedFacts(h, Screened(c), s, o);
    var a := Advanced(h, Screened(c), s, o);
    HandShakeFacts(a);
    EndStatusFacts(HandShake(a));
  }

  // ---------- every call ----------

  /** What a call other than acl_recv_end may do. */
  ghost predicate QuietOf(c: Acl, op: Op, r: Result) {
    var d := r.acl;
    && Inv(d) && r.status in {NoError, Error}
    && d.neg == c.neg && d.sendId == c.sendId && d.sendChallenge == c.sendChallenge
    && d.recvEndCount == c.recvEndCount
    && d.flow == c.flow.(phase := d.flow.phase)
    && (d.flow.phase == c.flow.phase || d.flow.phase == PhaseError
        || (c.flow.phase == Configure && d.flow.phase == Negotiate))
    && d.cfg.nodeType == c.cfg.nodeType
    && (c.flow.phase != Configure ==> d.cfg == c.cfg)
    && (d.recvInProgress ==>
          || (c.recvInProgress && d.transitBitSent == c.transitBitSent && (op.Begin? ==> d.flow.phase == PhaseError || !c.live))
          || (op.Begin? && c.live && d.transitBitSent == c.send.transitBit))
  }

  lemma ConfiguredQuiet(c: Acl, op: Op)
    requires Inv(c) && !op.Begin?
    ensures QuietOf(c, op, Configured(c, op))
  {
    hide ValidMethods, MethodKey, ValidAlgList, KeyBlocks.Block.Set;
  }

  lemma BrokenInv(c: Acl)
    requires Inv(c)
    ensures ExchangeInv(c.cfg, c.negRole, c.flow.(phase := PhaseError), c.neg, |c.sendChallenge|)
    ensures c.flow.phase == Configure ==>
              ExchangeInv(c.cfg, c.negRole, c.flow.(phase := Negotiate), c.neg, |c.sendChallenge|)
  {
  }

  lemma BeginQuiet(c: Acl)
    requires Inv(c) && c.live
    ensures QuietOf(c, Begin, RecvBegin(c))
  {
    BrokenInv(c);
    hide ExchangeInv;
  }

  lemma KeyValueQuiet(c: Acl, op: Op, keyType: int, text: Option<CString>)
    requires Inv(c) && !op.Begin?
    ensures QuietOf(c, op, RecvKeyValue(c, keyType, text))
  {
    BrokenInv(c);
    hide ExchangeInv, TextToData, KeyOf, KeyBlocks.Block.Set;
  }

  lemma SendKeyQuiet(c: Acl, op: Op, keyType: int, room: nat)
    requires Inv(c) && !op.Begin?
    ensures QuietOf(c, op, SendKey(c, keyType, room))
  {
    BrokenInv(c);
    hide ExchangeInv, Outgoing, KeyOf;
  }

  lemma OtherQuiet(c: Acl, op: Op, on: bool, status: Status)
    requires Inv(c) && !op.Begin? && status in {NoError, Error}
    ensures QuietOf(c, op, Result(c, status)) && QuietOf(c, op, Result(c.Broken(), status))
    ensures QuietOf(c, op, Result(c.(recv := c.recv.(transitBit := on)), status))
    ensures QuietOf(c, op, Result(c.(live := false), status))
  {
    BrokenInv(c);
    hide ExchangeInv;
  }

  /** A call other than acl_recv_end does not touch the exchange. */
  lemma QuietStep(h: Digest, c: Acl, op: Op)
    requires Inv(c) && !op.End?
    ensures QuietOf(c, op, Step(h, c, op))
  {
    if c.live {
      hide RecvBegin, RecvKeyValue, SendKey, Configured, QuietOf, Inv, ExchangeInv;
      match op
      case Begin => BeginQuiet(c);
      case KeyValue(keyType, text) => KeyValueQuiet(c, op, keyType, text);
      case SendKeyVal(keyType, room) => SendKeyQuiet(c, op, keyType, room);
      case TransitBit(on) => OtherQuiet(c, op, on, NoError); OtherQuiet(c, op, on, Error);
      case SendTransitBit => OtherQuiet(c, op, false, NoError); OtherQuiet(c, op, false, Error);
      case GetDbgStatus => OtherQuiet(c, op, false, NoError); OtherQuiet(c, op, false, Error);
      case Finish => OtherQuiet(c, op, false, NoError);
      case _ => ConfiguredQuiet(c, op);
    }
  }

  lemma StepKeepsInv(h: Digest, c: Acl, op: Op)
    requires Inv(c)
    ensures Inv(Step(h, c, op).acl)
  {
    hide RecvEnd;
    if !op.End? {
      QuietStep(h, c, op);
    } else if c.recvInProgress && c.flow.phase != PhaseError {
      EndKeepsInv(h, c, op.session, op.oracle);
    } else {
      IdleEnd(h, c, op.session, op.oracle);
    }
  }

  /** acl_recv_end without a message in progress, or after an error. */
  lemma IdleEnd(h: Digest, c: Acl, s: Session, o: Oracle)
    requires !c.recvInProgress || c.flow.phase == PhaseError
    ensures RecvEnd(h, c, s, o) == Result(c.Broken(), Error)
  {
  }
}
