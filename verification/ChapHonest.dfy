/** Honest composition: two clients of this implementation with matching credentials
    authenticate each other, and exactly when. */
module ChapHonest {
  import opened CText
  import opened Codec
  import opened KeyBlocks
  import opened Chap
  import opened ChapLists
  import opened ChapExchange
  import ChapSteps

  /** How one side is configured. */
  datatype Side = Side(username: CString, passwd: Option<seq<byte>>, algs: seq<int>, ipSec: bool, authRmt: bool)

  predicate Acceptable(p: Side) {
    |p.username| < STR_MAX_LEN && (p.passwd.Some? ==> |p.passwd.value| <= STR_MAX_LEN) && ValidAlgList(p.algs)
  }

  /** An initiator that has a secret or asks for one. */
  function InitiatorConfig(p: Side): Config {
    Config(Initiator, [METHOD_CHAP, OPTION_NONE], Originator, p.algs, p.authRmt, p.username, p.passwd, p.ipSec,
           if p.authRmt then [METHOD_CHAP] else [METHOD_CHAP, OPTION_NONE])
  }

  /** A target that authenticates its initiators. */
  function TargetConfig(q: Side): Config {
    Config(Target, [METHOD_CHAP, OPTION_NONE], Responder, q.algs, true, q.username, q.passwd, q.ipSec, [METHOD_CHAP])
  }

  /** A client between messages. */
  predicate Idle(c: Acl, cfg: Config, flow: Flow, rounds: nat) {
    && c.live && !c.recvInProgress && c.cfg == cfg && c.flow == flow && c.recvEndCount == rounds
    && !c.send.Defective()
    && c.negRole == (if cfg.nodeType == Initiator then Originator else Responder)
  }

  const Fresh := Flow(Configure, LocalUnset, RmtUnset, NoError, false)
  const Started := Flow(Authenticate, LocalSendAlg, RmtSendAlg, NoError, false)

  function MethodOffer(p: Side): CString { if p.authRmt then "CHAP" else "CHAP,None" }

  // ---------- how a message ends ----------

  /** The message has arrived whole and is one of the first eleven. */
  predicate Whole(b: Acl) {
    b.recvInProgress && b.recvEndCount <= RECV_END_MAX_COUNT && !b.recv.Defective() && b.flow.phase in {Negotiate, Authenticate}
  }

  function Worked(h: Digest, b: Acl, s: Session, o: Oracle): Acl {
    Advanced(h, b.(recvEndCount := b.recvEndCount + 1), s, o)
  }

  /** The work of the phase leaves every key looked at and the send block in order. */
  predicate Clean(a: Acl) { !a.send.Defective() && a.recv.values.Keys <= a.recv.processed }

  lemma EndsInContinue(h: Digest, b: Acl, s: Session, o: Oracle)
    requires Whole(b)
    requires var a := Worked(h, b, s, o);
             && a.flow.phase == Authenticate && Clean(a)
             && (a.recv.transitBit ==> a.cfg.nodeType == Target && a.flow.rmtState == RmtSendAlg)
             && (a.cfg.nodeType == Target ==> a.flow.rmtState != RmtDone)
    ensures var a := Worked(h, b, s, o);
            var t := a.cfg.nodeType == Initiator && a.flow.rmtState in {RmtRecvRsp, RmtDone};
            RecvEnd(h, b, s, o) ==
            Result(a.(recvInProgress := false, send := a.send.(transitBit := a.send.transitBit || t)), Continue)
  {
    hide Advanced;
    var a := Worked(h, b, s, o);
    assert HandShake(a).flow == a.flow;
    StatusContinue(HandShake(a));
    hide EndStatus;
  }

  lemma StatusContinue(a: Acl)
    requires a.flow.phase in {Negotiate, Authenticate} && Clean(a)
    ensures EndStatus(a) == Result(a.(recvInProgress := false), Continue)
  {
  }

  lemma StatusPass(a: Acl)
    requires a.flow.phase == PhaseDone && a.flow.rmtAuthStatus == Pass && Clean(a)
    requires a.cfg.authRmt ==> a.flow.authRspFlag
    ensures EndStatus(a) == Result(a.(recvInProgress := false), Pass)
  {
  }

  lemma EndsInPass(h: Digest, b: Acl, s: Session, o: Oracle)
    requires Whole(b)
    requires var a := Worked(h, b, s, o);
             && a.flow.phase == Authenticate && a.recv.transitBit && Clean(a)
             && a.flow.rmtState == RmtDone && a.flow.rmtAuthStatus == Pass
             && (a.cfg.authRmt ==> a.flow.authRspFlag)
             && (a.cfg.nodeType == Initiator ==> a.transitBitSent)
    ensures var a := Worked(h, b, s, o);
            RecvEnd(h, b, s, o) ==
            Result(a.(recvInProgress := false, flow := a.flow.(phase := PhaseDone),
                      send := a.send.(transitBit := a.send.transitBit || a.cfg.nodeType == Target)), Pass)
  {
    hide Advanced;
    var a := Worked(h, b, s, o);
    assert HandShake(a).flow == a.flow.(phase := PhaseDone);
    StatusPass(HandShake(a));
    hide EndStatus;
  }

  lemma EndsInFail(h: Digest, b: Acl, s: Session, o: Oracle)
    requires Whole(b)
    requires var a := Worked(h, b, s, o); a.flow.phase == PhaseDone && a.flow.rmtAuthStatus == Fail
    ensures var r := RecvEnd(h, b, s, o); r.status == Fail && r.acl.flow.phase == PhaseDone
  {
    hide Advanced, SuppressedKeys;
  }

  lemma EndsInVerdict(h: Digest, b: Acl, s: Session, o: Oracle)
    requires Whole(b)
    requires var a := Worked(h, b, s, o);
             && a.flow.phase == Authenticate && a.recv.transitBit
             && a.flow.rmtState == RmtDone && a.flow.rmtAuthStatus == Fail
             && (a.cfg.nodeType == Initiator ==> a.transitBitSent)
    ensures RecvEnd(h, b, s, o).status == Fail
  {
    hide Advanced, SuppressedKeys;
    var a := Worked(h, b, s, o);
    assert HandShake(a).flow == a.flow.(phase := PhaseDone);
  }

  // ---------- first round: AuthMethod ----------

  lemma NegotiatesChap(c: Acl, key: CString)
    requires c.flow.phase == Negotiate && c.recv.Value(AuthMethod) == Some(key)
    requires FirstMethod(c.cfg.validMethods, Items(key)) == Some(METHOD_CHAP)
    ensures NegotiateMethod(c) ==
            c.(neg := c.neg.(authMethod := METHOD_CHAP), recv := c.recv.Seen(AuthMethod),
               send := if c.negRole == Responder then c.send.Set(AuthMethod, Some("CHAP")) else c.send,
               flow := c.flow.(phase := Authenticate, localState := LocalSendAlg, rmtState := RmtSendAlg))
  {
    hide FirstMethod, Items;
    assert MethodKey([METHOD_CHAP]) == Some("CHAP") by {
      assert MethodTexts([METHOD_CHAP]) == ["CHAP"];
    }
  }

  lemma FirstReplyWork(h: Digest, b: Acl, q: Side, key: CString, s: Session, o: Oracle)
    requires b.flow == Fresh.(phase := Negotiate) && b.cfg == TargetConfig(q) && b.negRole == Responder
    requires b.recv.values == map[AuthMethod := key] && (key == "CHAP" || key == "CHAP,None") && b.send == EmptyBlock
    ensures var a := Worked(h, b, s, o);
            && a == b.(recvEndCount := b.recvEndCount + 1, neg := b.neg.(authMethod := METHOD_CHAP),
                       recv := b.recv.Seen(AuthMethod), send := a.send, flow := Started)
            && a.send.values == map[AuthMethod := "CHAP"] && Clean(a) && !a.send.transitBit
  {
    hide Items, FirstMethod, NegotiateMethod, ChapStep;
    MethodNegotiation(key);
    NegotiatesChap(b.(recvEndCount := b.recvEndCount + 1), key);
  }

  lemma FirstReply(h: Digest, i: Acl, t: Acl, p: Side, q: Side, s: Session, o: Oracle)
    requires Idle(i, InitiatorConfig(p), Fresh, 0) && i.send.values == map[AuthMethod := MethodOffer(p)]
    requires Idle(t, TargetConfig(q), Fresh, 0)
    ensures var r := Deliver(h, i, t, s, o);
            && r.status == Continue && Idle(r.acl, TargetConfig(q), Started, 1)
            && r.acl.neg.authMethod == METHOD_CHAP
            && r.acl.send.values == map[AuthMethod := "CHAP"] && !r.acl.send.transitBit
  {
    assert Modest(i);
    TakeFacts(t, i);
    var b := Take(t, i);
    hide Take, Modest, RecvEnd, Worked;
    FirstReplyWork(h, b, q, MethodOffer(p), s, o);
    EndsInContinue(h, b, s, o);
  }

  // ---------- second round: CHAP_A ----------

  /** Setting a fresh key that fits. */
  lemma SetFits(b: Block, k: Key, v: CString)
    requires k !in b.claimed && |v| < STR_MAX_LEN && b.blkLength + |v| + 1 <= STR_BLOCK_MAX_LEN
    ensures b.Set(k, Some(v)) ==
            b.(claimed := b.claimed + {k}, blkLength := b.blkLength + |v| + 1, values := b.values[k := v])
  {
  }

  lemma {:induction false} AlgListLength(algs: seq<int>)
    requires algs != [] && forall i :: 0 <= i < |algs| ==> KnownAlgOption(algs[i])
    ensures |Join(AlgTexts(algs))| == 2 * |algs| - 1
  {
    hide Decimal;
    DecimalLength(algs[0] % (ULONG_MAX + 1));
    assert AlgTexts(algs)[1..] == AlgTexts(algs[1..]);
    if |algs| > 1 {
      AlgListLength(algs[1..]);
    }
  }

  lemma AlgOffer(algs: seq<int>, theirs: seq<int>)
    requires ValidAlgList(algs)
    ensures AlgKey(algs).Some? && 1 <= |AlgKey(algs).value| <= 9
    ensures FirstAlg(theirs, Items(AlgKey(algs).value)) == FirstCommon(algs, theirs)
  {
    hide FirstAlg, Items;
    AlgListLength(algs);
    AlgNegotiation(algs, theirs);
    hide Join, AlgTexts;
  }

  const Offered := Flow(Authenticate, LocalRecvAlg, RmtSendChallenge, NoError, false)

  lemma OfferStep(h: Digest, c: Acl, s: Session, o: Oracle)
    requires c.flow == Started && c.cfg.nodeType == Initiator
    ensures ChapStep(h, c, s, o) == c.(send := c.send.Set(ChapAlg, AlgKey(c.cfg.algList)), flow := Offered)
  {
    hide LocalAlg, LocalChallenge, RmtChallenge, RmtResponse, AlgKey, Block.Set;
  }

  lemma SecondOfferWork(h: Digest, b: Acl, p: Side, s: Session, o: Oracle)
    requires b.flow == Fresh.(phase := Negotiate) && b.cfg == InitiatorConfig(p) && b.negRole == Originator
    requires ValidAlgList(p.algs)
    requires b.recv.values == map[AuthMethod := "CHAP"] && b.send == EmptyBlock
    ensures AlgKey(p.algs).Some?
    ensures var a := Worked(h, b, s, o);
            && a == b.(recvEndCount := b.recvEndCount + 1, neg := b.neg.(authMethod := METHOD_CHAP),
                       recv := b.recv.Seen(AuthMethod), send := a.send, flow := Offered)
            && a.send.values == map[ChapAlg := AlgKey(p.algs).value] && Clean(a) && !a.send.transitBit
  {
    hide Items, FirstMethod, FirstAlg, NegotiateMethod, ChapStep, AlgKey, Block.Set, ValidAlgList;
    MethodNegotiation("CHAP");
    AlgOffer(p.algs, []);
    var c := b.(recvEndCount := b.recvEndCount + 1);
    NegotiatesChap(c, "CHAP");
    OfferStep(h, NegotiateMethod(c), s, o);
    SetFits(EmptyBlock, ChapAlg, AlgKey(p.algs).value);
  }

  lemma SecondOffer(h: Digest, i: Acl, t: Acl, p: Side, s: Session, o: Oracle)
    requires Idle(i, InitiatorConfig(p), Fresh, 0) && ValidAlgList(p.algs)
    requires t.send.values == map[AuthMethod := "CHAP"] && !t.send.transitBit
    ensures AlgKey(p.algs).Some?
    ensures var r := Deliver(h, t, i, s, o);
            && r.status == Continue && Idle(r.acl, InitiatorConfig(p), Offered, 1)
            && r.acl.send.values == map[ChapAlg := AlgKey(p.algs).value] && !r.acl.send.transitBit
            && r.acl.neg.authMethod == METHOD_CHAP
  {
    assert Modest(t);
    TakeFacts(i, t);
    var b := Take(i, t);
    hide Take, Modest, RecvEnd, Worked, AlgKey;
    SecondOfferWork(h, b, p, s, o);
    EndsInContinue(h, b, s, o);
  }

  /** Nothing goes wrong in the digest library and the random generator. */
  predicate Fair(o: Oracle) { o.localHashOk && o.ownHashOk && o.verifyHashOk && o.idOk && o.challengeOk }

  const Challenging := Flow(Authenticate, LocalRecvChallenge, RmtRecvRsp, NoError, false)

  lemma TargetAlgStep(h: Digest, c: Acl, s: Session, o: Oracle)
    requires c.flow == Started && c.cfg.nodeType == Target && c.cfg.authRmt && Fair(o)
    ensures var a := CheckAlg(c); var d := ChapStep(h, c, s, o);
            if RealAlg(a.neg.chapAlg) then
              d == a.(send := c.send.Set(ChapAlg, AlgKey([a.neg.chapAlg]))
                                    .Set(ChapIdentifier, Some(Decimal(o.id))).Set(ChapChallenge, Some("")),
                      sendId := o.id, sendChallenge := Draw(a.neg.challengeLen, o.challenge), flow := Challenging)
            else d.flow.phase == PhaseDone && d.flow.rmtAuthStatus == Fail
  {
    hide CheckAlg, LocalChallenge, RmtResponse, AlgKey, Block.Set, Decimal, Draw;
    assert CheckAlg(c) == c.(neg := CheckAlg(c).neg, recv := CheckAlg(c).recv) by { CheckAlgFrame(c); }
  }

  lemma CheckAlgFrame(c: Acl)
    ensures CheckAlg(c) == c.(neg := CheckAlg(c).neg, recv := CheckAlg(c).recv)
  {
    hide ItemsOf, FirstAlg, RealAlg, DigestLen;
  }

  lemma AlgEcho(alg: int)
    requires KnownAlgOption(alg)
    ensures AlgKey([alg]) == Some(Decimal(alg)) && |Decimal(alg)| == 1
  {
    hide Decimal;
    DecimalLength(alg);
    assert AlgTexts([alg]) == [Decimal(alg)];
  }

  lemma IdText(id: byte)
    ensures 1 <= |Decimal(id)| <= 3 && TextToNumber(Decimal(id)) == Some(id)
  {
    hide Decimal, TextToNumber;
    DecimalLength(id);
    NumberRoundTrip(id);
  }

  /** The target's block of algorithm, identifier and challenge. */
  lemma ChallengeBlock(alg: int, id: byte)
    requires RealAlg(alg)
    ensures var b := EmptyBlock.Set(ChapAlg, AlgKey([alg])).Set(ChapIdentifier, Some(Decimal(id))).Set(ChapChallenge, Some(""));
            && b.values == map[ChapAlg := Decimal(alg), ChapIdentifier := Decimal(id), ChapChallenge := ""]
            && !b.Defective() && !b.transitBit
  {
    hide Block.Set, AlgKey, Decimal;
    AlgEcho(alg);
    IdText(id);
    SetFits(EmptyBlock, ChapAlg, Decimal(alg));
    SetFits(EmptyBlock.Set(ChapAlg, AlgKey([alg])), ChapIdentifier, Decimal(id));
    SetFits(EmptyBlock.Set(ChapAlg, AlgKey([alg])).Set(ChapIdentifier, Some(Decimal(id))), ChapChallenge, "");
  }

  /** The algorithm the two lists lead to, real or not. */
  function Chosen(p: Side, q: Side): int {
    match FirstCommon(p.algs, q.algs) case Some(alg) => alg case None => OPTION_REJECT
  }

  function AgreedTerms(neg: Terms, alg: int): Terms {
    neg.(chapAlg := alg, challengeLen := DigestLen(alg))
  }

  lemma TargetChecksAlg(c: Acl, p: Side, q: Side)
    requires ValidAlgList(p.algs) && c.cfg.algList == q.algs
    requires AlgKey(p.algs).Some? && c.recv.values == map[ChapAlg := AlgKey(p.algs).value]
    ensures var alg := Chosen(p, q); var a := CheckAlg(c);
            && a.neg.chapAlg == alg && (RealAlg(alg) ==> a.neg == AgreedTerms(c.neg, alg))
            && a == c.(neg := a.neg, recv := c.recv.Seen(ChapAlg))
  {
    hide Items, FirstAlg, AlgKey, FirstCommon, ValidAlgList;
    AlgOffer(p.algs, q.algs);
  }

  lemma SecondReplyWork(h: Digest, b: Acl, p: Side, q: Side, s: Session, o: Oracle)
    requires b.flow == Started && b.cfg == TargetConfig(q) && ValidAlgList(p.algs) && Fair(o)
    requires AlgKey(p.algs).Some? && b.recv.values == map[ChapAlg := AlgKey(p.algs).value] && b.send == EmptyBlock
    ensures var alg := Chosen(p, q); var a := Worked(h, b, s, o);
            if RealAlg(alg) then
              && a == b.(recvEndCount := b.recvEndCount + 1, neg := AgreedTerms(b.neg, alg), recv := b.recv.Seen(ChapAlg),
                         send := a.send, sendId := o.id, sendChallenge := Draw(DigestLen(alg), o.challenge),
                         flow := Challenging)
              && a.send.values == map[ChapAlg := Decimal(alg), ChapIdentifier := Decimal(o.id), ChapChallenge := ""]
              && Clean(a) && !a.send.transitBit
            else a.flow.phase == PhaseDone && a.flow.rmtAuthStatus == Fail
  {
    hide ChapStep, CheckAlg, AlgKey, Decimal, Draw, Block.Set, ValidAlgList, Chosen;
    var c := b.(recvEndCount := b.recvEndCount + 1);
    TargetChecksAlg(c, p, q);
    TargetAlgStep(h, c, s, o);
    if RealAlg(Chosen(p, q)) {
      ChallengeBlock(Chosen(p, q), o.id);
    }
  }

  lemma SecondReply(h: Digest, i: Acl, t: Acl, p: Side, q: Side, s: Session, o: Oracle)
    requires ValidAlgList(p.algs) && Fair(o)
    requires AlgKey(p.algs).Some? && i.send.values == map[ChapAlg := AlgKey(p.algs).value] && !i.send.transitBit
    requires Idle(t, TargetConfig(q), Started, 1)
    ensures var alg := Chosen(p, q); var r := Deliver(h, i, t, s, o);
            if RealAlg(alg) then
              && r.status == Continue && Idle(r.acl, TargetConfig(q), Challenging, 2)
              && r.acl.neg == AgreedTerms(t.neg, alg)
              && r.acl.sendId == o.id && r.acl.sendChallenge == Draw(DigestLen(alg), o.challenge)
              && r.acl.send.values == map[ChapAlg := Decimal(alg), ChapIdentifier := Decimal(o.id), ChapChallenge := ""]
              && !r.acl.send.transitBit
            else r.status == Fail && r.acl.flow.phase == PhaseDone
  {
    hide Take, RecvEnd, Worked, AlgKey, Decimal, Draw, ValidAlgList, Chosen;
    AlgOffer(p.algs, []);
    assert Modest(i);
    TakeFacts(t, i);
    var b := Take(t, i);
    SecondReplyWork(h, b, p, q, s, o);
    if RealAlg(Chosen(p, q)) {
      EndsInContinue(h, b, s, o);
    } else {
      EndsInFail(h, b, s, o);
    }
  }

  // ---------- third round: CHAP_R ----------

  /** A secret the response function accepts. */
  predicate Strong(p: Side) { p.passwd.Some? && (p.ipSec || |p.passwd.value| >= 12) }

  /** The response under a secret, section 4.1 of RFC 1994. */
  function Response(h: Digest, alg: int, id: byte, secret: seq<byte>, challenge: seq<byte>): seq<byte> {
    h(alg, [id] + secret + challenge)
  }

  lemma FirstCommonIn(mine: seq<int>, theirs: seq<int>)
    ensures FirstCommon(mine, theirs).Some? ==>
              FirstCommon(mine, theirs).value in mine && FirstCommon(mine, theirs).value in theirs
  {
  }

  lemma InitiatorChecksAlg(c: Acl, alg: int)
    requires RealAlg(alg) && alg in c.cfg.algList && c.recv.Value(ChapAlg) == Some(Decimal(alg))
    ensures CheckAlg(c) == c.(neg := AgreedTerms(c.neg, alg), recv := c.recv.Seen(ChapAlg))
  {
    hide Items, Decimal, TextToNumber;
    DecimalPlain(alg);
    ItemsStep(Decimal(alg), "", Decimal(alg));
    NumberRoundTrip(alg);
  }

  /** The blocks with a response and a name, without and with a challenge of one's own. */
  function AnswerBlock(rsp: seq<byte>, username: CString): Block {
    EmptyBlock.Set(ChapRsp, Some(ResponseText(rsp))).Set(ChapUsername, Some(username))
  }

  function MutualBlock(rsp: seq<byte>, username: CString, id: byte): Block {
    AnswerBlock(rsp, username).Set(ChapIdentifier, Some(Decimal(id))).Set(ChapChallenge, Some(""))
  }

  lemma AnswerBlocks(rsp: seq<byte>, username: CString, id: byte)
    requires 1 <= |rsp| <= 32 && |username| < STR_MAX_LEN
    ensures var b := AnswerBlock(rsp, username);
            b.values == map[ChapRsp := HexText(rsp), ChapUsername := username] && !b.Defective() && !b.transitBit
    ensures var b := MutualBlock(rsp, username, id);
            && b.values == map[ChapRsp := HexText(rsp), ChapUsername := username,
                               ChapIdentifier := Decimal(id), ChapChallenge := ""]
            && !b.Defective() && !b.transitBit
  {
    hide Block.Set, Decimal, HexText;
    IdText(id);
    var b1 := EmptyBlock.Set(ChapRsp, Some(ResponseText(rsp)));
    SetFits(EmptyBlock, ChapRsp, HexText(rsp));
    SetFits(b1, ChapUsername, username);
    var b2 := AnswerBlock(rsp, username);
    SetFits(b2, ChapIdentifier, Decimal(id));
    SetFits(b2.Set(ChapIdentifier, Some(Decimal(id))), ChapChallenge, "");
  }

  lemma OwnResponseOf(h: Digest, c: Acl, p: Side, rmtAuth: bool, id: byte, challenge: seq<byte>)
    requires c.cfg.passwd == p.passwd && c.cfg.ipSec == p.ipSec && RealAlg(c.neg.chapAlg)
    ensures OwnResponse(h, c, rmtAuth, id, challenge, true) ==
            if p.passwd.Some? && (rmtAuth || Strong(p)) then Some(Response(h, c.neg.chapAlg, id, p.passwd.value, challenge))
            else None
  {
  }

  function Answered(mutual: bool): Flow {
    if mutual then Flow(Authenticate, LocalDone, RmtRecvRsp, NoError, false)
    else Flow(Authenticate, LocalDone, RmtDone, Pass, false)
  }

  lemma LocalAnswer(h: Digest, a: Acl, p: Side, id: byte, challenge: seq<byte>, o: Oracle)
    requires a.cfg.passwd == p.passwd && a.cfg.ipSec == p.ipSec && RealAlg(a.neg.chapAlg) && Fair(o)
    requires a.cfg.nodeType == Target ==> challenge != a.sendChallenge
    requires a.recv.Value(ChapIdentifier) == Some(Decimal(id)) && ChapChallenge in a.recv.values
    requires a.recvChallenge == Some(challenge) && a.send == EmptyBlock
    ensures var d := LocalChallenge(h, a, o);
            && d == a.(recv := a.recv.Seen(ChapIdentifier).Seen(ChapChallenge), send := d.send, flow := d.flow)
            && d.flow == a.flow.(localState := if Strong(p) then LocalDone else LocalError)
            && (Strong(p) ==>
                  d.send == AnswerBlock(Response(h, a.neg.chapAlg, id, p.passwd.value, challenge), a.cfg.username))
  {
    hide OwnResponse, Block.Set, Decimal, TextToNumber, ResponseText, Response;
    IdText(id);
    OwnResponseOf(h, a, p, false, id, challenge);
  }

  lemma AnswerStep(h: Digest, c: Acl, p: Side, alg: int, id: byte, challenge: seq<byte>, s: Session, o: Oracle)
    requires c.flow == Offered && c.cfg == InitiatorConfig(p) && RealAlg(alg) && alg in p.algs && Fair(o)
    requires c.recv.values == map[ChapAlg := Decimal(alg), ChapIdentifier := Decimal(id), ChapChallenge := ""]
    requires c.recvChallenge == Some(challenge) && c.send == EmptyBlock
    ensures var d := ChapStep(h, c, s, o);
            if Strong(p) then
              var rsp := Response(h, alg, id, p.passwd.value, challenge);
              d == c.(neg := AgreedTerms(c.neg, alg), flow := Answered(p.authRmt),
                      recv := c.recv.Seen(ChapAlg).Seen(ChapIdentifier).Seen(ChapChallenge),
                      sendId := if p.authRmt then o.id else c.sendId,
                      sendChallenge := if p.authRmt then Draw(DigestLen(alg), o.challenge) else c.sendChallenge,
                      send := if p.authRmt then MutualBlock(rsp, p.username, o.id) else AnswerBlock(rsp, p.username))
            else d.flow.phase == PhaseDone && d.flow.rmtAuthStatus == Fail
  {
    hide CheckAlg, LocalChallenge, RmtResponse, AnswerBlock, Block.Set, Decimal, Draw, Response, DigestLen;
    InitiatorChecksAlg(c, alg);
    LocalAnswer(h, CheckAlg(c), p, id, challenge, o);
  }

  /** What an initiator sends when it has answered: response, name, its own challenge. */
  predicate Answer(h: Digest, i: Acl, p: Side, alg: int, id: byte, challenge: seq<byte>) {
    && p.passwd.Some? && i.send.transitBit
    && var rsp := HexText(Response(h, alg, id, p.passwd.value, challenge));
       i.send.values == if p.authRmt then map[ChapRsp := rsp, ChapUsername := p.username,
                                              ChapIdentifier := Decimal(i.sendId), ChapChallenge := ""]
                        else map[ChapRsp := rsp, ChapUsername := p.username]
  }

  lemma ThirdOfferWork(h: Digest, b: Acl, p: Side, alg: int, id: byte, challenge: seq<byte>, s: Session, o: Oracle)
    requires b.flow == Offered && b.cfg == InitiatorConfig(p) && RealAlg(alg) && alg in p.algs && Fair(o)
    requires |p.username| < STR_MAX_LEN
    requires b.recv.values == map[ChapAlg := Decimal(alg), ChapIdentifier := Decimal(id), ChapChallenge := ""]
    requires b.recvChallenge == Some(challenge) && b.send == EmptyBlock && b.recv.processed == {}
    ensures var a := Worked(h, b, s, o);
            if Strong(p) then
              && a == b.(recvEndCount := b.recvEndCount + 1, neg := AgreedTerms(b.neg, alg), flow := Answered(p.authRmt),
                         recv := a.recv, sendId := a.sendId, sendChallenge := a.sendChallenge, send := a.send)
              && a.recv.transitBit == b.recv.transitBit
              && (p.authRmt ==> a.sendId == o.id && a.sendChallenge == Draw(DigestLen(alg), o.challenge))
              && Clean(a) && Answer(h, a.(send := a.send.(transitBit := true)), p, alg, id, challenge)
            else a.flow.phase == PhaseDone && a.flow.rmtAuthStatus == Fail
  {
    hide ChapStep, AnswerBlock, MutualBlock, Block.Set, Decimal, Draw, HexText, Response;
    AnswerStep(h, b.(recvEndCount := b.recvEndCount + 1), p, alg, id, challenge, s, o);
    if Strong(p) {
      ResponseLength(h, alg, id, p.passwd.value, challenge);
      AnswerBlocks(Response(h, alg, id, p.passwd.value, challenge), p.username, o.id);
    }
  }

  lemma ResponseLength(h: Digest, alg: int, id: byte, secret: seq<byte>, challenge: seq<byte>)
    requires RealAlg(alg)
    ensures |Response(h, alg, id, secret, challenge)| == DigestLen(alg) && 16 <= DigestLen(alg) <= 32
  {
  }

  lemma ThirdOffer(h: Digest, i: Acl, t: Acl, p: Side, alg: int, s: Session, o: Oracle)
    requires Idle(i, InitiatorConfig(p), Offered, 1) && RealAlg(alg) && alg in p.algs && Fair(o)
    requires |p.username| < STR_MAX_LEN && 1 <= |t.sendChallenge| <= 32 && !t.send.transitBit
    requires t.send.values == map[ChapAlg := Decimal(alg), ChapIdentifier := Decimal(t.sendId), ChapChallenge := ""]
    ensures var r := Deliver(h, t, i, s, o);
            if Strong(p) then
              && r.status == Continue && Idle(r.acl, InitiatorConfig(p), Answered(p.authRmt), 2)
              && r.acl.neg == AgreedTerms(i.neg, alg)
              && (p.authRmt ==> r.acl.sendId == o.id && r.acl.sendChallenge == Draw(DigestLen(alg), o.challenge))
              && Answer(h, r.acl, p, alg, t.sendId, t.sendChallenge)
            else r.status == Fail && r.acl.flow.phase == PhaseDone
  {
    hide Take, RecvEnd, Worked, Decimal, Draw, Answer;
    AlgEcho(alg);
    IdText(t.sendId);
    assert Modest(t);
    TakeFacts(i, t);
    var b := Take(i, t);
    ThirdOfferWork(h, b, p, alg, t.sendId, t.sendChallenge, s, o);
    if Strong(p) {
      EndsInContinue(h, b, s, o);
      AnswerKept(h, Worked(h, b, s, o), RecvEnd(h, b, s, o).acl, p, alg, t.sendId, t.sendChallenge);
    } else {
      EndsInFail(h, b, s, o);
    }
  }

  lemma AnswerKept(h: Digest, a: Acl, d: Acl, p: Side, alg: int, id: byte, challenge: seq<byte>)
    requires Answer(h, a.(send := a.send.(transitBit := true)), p, alg, id, challenge)
    requires d.send == a.send.(transitBit := true) && d.sendId == a.sendId
    ensures Answer(h, d, p, alg, id, challenge)
  {
    hide HexText, Decimal, Response;
  }

  // ---------- verification ----------

  /** The credentials `s` expects are these: this name, and a secret with this response. */
  predicate Expects(h: Digest, s: Session, username: CString, alg: int, id: byte, challenge: seq<byte>, rsp: seq<byte>) {
    && username == s.usernameIn && username != "" && s.passwordIn != [] && s.passwordIn[0] != 0
    && rsp == Response(h, alg, id, s.passwordIn, challenge)
  }

  /** The response is also the one this side would have given itself. */
  predicate Clashes(h: Digest, x: Side, alg: int, id: byte, challenge: seq<byte>, rsp: seq<byte>) {
    x.passwd.Some? && rsp == Response(h, alg, id, x.passwd.value, challenge)
  }

  lemma Verification(h: Digest, c: Acl, x: Side, s: Session, rsp: seq<byte>, username: CString, o: Oracle)
    requires c.cfg.passwd == x.passwd && c.cfg.ipSec == x.ipSec && Fair(o)
    requires RealAlg(c.neg.chapAlg) && |rsp| == c.neg.challengeLen && 1 <= |rsp| <= 32
    requires c.recv.Value(ChapRsp) == Some(HexText(rsp)) && c.recv.Value(ChapUsername) == Some(username)
    ensures RmtResponse(h, c, s, o) ==
            c.(recv := c.recv.Seen(ChapRsp).Seen(ChapUsername),
               flow := if Clashes(h, x, c.neg.chapAlg, c.sendId, c.sendChallenge, rsp) then c.flow.(rmtState := RmtError)
                       else c.flow.(rmtState := RmtDone, authRspFlag := true,
                                    rmtAuthStatus := if Expects(h, s, username, c.neg.chapAlg, c.sendId, c.sendChallenge, rsp)
                                                     then Pass else Fail))
  {
    hide TextToData, HexText, OwnResponse;
    HexRoundTrip(rsp, STR_MAX_LEN);
    OwnResponseOf(h, c, x, true, c.sendId, c.sendChallenge);
  }

  predicate TargetAccepts(h: Digest, i: Acl, t: Acl, p: Side, q: Side, s: Session)
    requires p.passwd.Some?
  {
    var alg := t.neg.chapAlg;
    var rsp := Response(h, alg, t.sendId, p.passwd.value, t.sendChallenge);
    && (p.authRmt ==> Strong(q) && i.sendChallenge != t.sendChallenge)
    && !Clashes(h, q, alg, t.sendId, t.sendChallenge, rsp)
    && Expects(h, s, p.username, alg, t.sendId, t.sendChallenge, rsp)
  }

  /** What a target sends with its verdict: in mutual authentication, its own response. */
  predicate Reply(h: Digest, t: Acl, p: Side, q: Side, alg: int, id: byte, challenge: seq<byte>) {
    && t.send.transitBit
    && if p.authRmt then q.passwd.Some? &&
                         t.send.values == map[ChapRsp := HexText(Response(h, alg, id, q.passwd.value, challenge)),
                                              ChapUsername := q.username]
       else t.send.values == map[]
  }

  /** The target's half of the third message. */
  lemma TargetLocal(h: Digest, c: Acl, i: Acl, p: Side, q: Side, o: Oracle)
    requires c.flow == Challenging && c.cfg == TargetConfig(q) && RealAlg(c.neg.chapAlg) && Fair(o)
    requires c.send == EmptyBlock && c.recv.values == i.send.values && Answer(h, i, p, c.neg.chapAlg, c.sendId, c.sendChallenge)
    requires p.authRmt ==> c.recvChallenge == Some(i.sendChallenge)
    requires |q.username| < STR_MAX_LEN
    ensures var l := LocalAuth(h, c, o);
            var ok := p.authRmt ==> Strong(q) && i.sendChallenge != c.sendChallenge;
            && l == c.(recv := c.recv.Seen(ChapIdentifier).Seen(ChapChallenge), send := l.send,
                       flow := c.flow.(localState := if ok then LocalDone else LocalError))
            && (ok ==> !l.send.Defective() && !l.send.transitBit &&
                       Reply(h, l.(send := l.send.(transitBit := true)), p, q, c.neg.chapAlg, i.sendId, i.sendChallenge))
  {
    hide OwnResponse, LocalAlg, Decimal, HexText, TextToNumber, Response, Block.Set, AnswerBlock, ResponseText;
    if p.authRmt {
      IdText(i.sendId);
      if i.sendChallenge != c.sendChallenge {
        LocalAnswer(h, c, q, i.sendId, i.sendChallenge, o);
        if Strong(q) {
          ResponseLength(h, c.neg.chapAlg, i.sendId, q.passwd.value, i.sendChallenge);
          AnswerBlocks(Response(h, c.neg.chapAlg, i.sendId, q.passwd.value, i.sendChallenge), q.username, 0);
        }
      }
    }
  }

  lemma WorkedIs(h: Digest, b: Acl, s: Session, o: Oracle)
    requires b.flow == Challenging
    ensures var l := LocalAuth(h, b.(recvEndCount := b.recvEndCount + 1), o);
            l.flow.rmtState == RmtRecvRsp ==>
              var r := RmtResponse(h, l, s, o);
              Worked(h, b, s, o) == if l.flow.localState == LocalError then l.Failed()
                                    else if r.flow.rmtState == RmtError then r.Failed() else r
  {
    hide LocalAuth, RmtResponse;
  }

  /** The keys of an answer, as the target finds them. */
  lemma AnswerKeys(h: Digest, b: Block, i: Acl, p: Side, alg: int, id: byte, challenge: seq<byte>)
    requires b.values == i.send.values && Answer(h, i, p, alg, id, challenge)
    ensures p.passwd.Some?
    ensures b.Value(ChapRsp) == Some(HexText(Response(h, alg, id, p.passwd.value, challenge)))
    ensures b.Value(ChapUsername) == Some(p.username)
    ensures b.values.Keys <= {ChapIdentifier, ChapChallenge, ChapRsp, ChapUsername}
  {
    hide HexText, Decimal, Response;
  }

  lemma ThirdReplyFlow(h: Digest, b: Acl, i: Acl, p: Side, q: Side, s: Session, o: Oracle)
    requires b.flow == Challenging && b.cfg == TargetConfig(q) && RealAlg(b.neg.chapAlg) && Fair(o)
    requires b.neg.challengeLen == DigestLen(b.neg.chapAlg)
    requires b.send == EmptyBlock && b.recv.values == i.send.values && b.recv.processed == {}
    requires Answer(h, i, p, b.neg.chapAlg, b.sendId, b.sendChallenge)
    requires p.authRmt ==> b.recvChallenge == Some(i.sendChallenge)
    requires |q.username| < STR_MAX_LEN
    ensures var a := Worked(h, b, s, o);
            && a.recv.transitBit == b.recv.transitBit && a.cfg == b.cfg && a.neg == b.neg
            && if TargetAccepts(h, i, b, p, q, s) then
                 && a.flow == Flow(Authenticate, LocalDone, RmtDone, Pass, true) && Clean(a)
                 && a.send == LocalAuth(h, b.(recvEndCount := b.recvEndCount + 1), o).send
               else
                 || (a.flow.phase == PhaseDone && a.flow.rmtAuthStatus == Fail)
                 || (a.flow.phase == Authenticate && a.flow.rmtState == RmtDone && a.flow.rmtAuthStatus == Fail)
  {
    hide LocalAuth, Worked, RmtResponse, Decimal, HexText, Response, Block.Set, Expects, Clashes, DigestLen, Reply, Answer;
    AnswerKeys(h, b.recv, i, p, b.neg.chapAlg, b.sendId, b.sendChallenge);
    WorkedIs(h, b, s, o);
    var c := b.(recvEndCount := b.recvEndCount + 1);
    TargetLocal(h, c, i, p, q, o);
    var rsp := Response(h, b.neg.chapAlg, b.sendId, p.passwd.value, b.sendChallenge);
    ResponseLength(h, b.neg.chapAlg, b.sendId, p.passwd.value, b.sendChallenge);
    Verification(h, LocalAuth(h, c, o), q, s, rsp, p.username, o);
  }

  lemma ThirdReplyWork(h: Digest, b: Acl, i: Acl, p: Side, q: Side, s: Session, o: Oracle)
    requires b.flow == Challenging && b.cfg == TargetConfig(q) && RealAlg(b.neg.chapAlg) && Fair(o)
    requires b.neg.challengeLen == DigestLen(b.neg.chapAlg)
    requires b.send == EmptyBlock && b.recv.values == i.send.values && b.recv.processed == {}
    requires Answer(h, i, p, b.neg.chapAlg, b.sendId, b.sendChallenge)
    requires p.authRmt ==> b.recvChallenge == Some(i.sendChallenge)
    requires |q.username| < STR_MAX_LEN
    ensures var a := Worked(h, b, s, o);
            && a.recv.transitBit == b.recv.transitBit && a.cfg == b.cfg && a.neg == b.neg
            && if TargetAccepts(h, i, b, p, q, s) then
                 && a.flow == Flow(Authenticate, LocalDone, RmtDone, Pass, true) && Clean(a)
                 && Reply(h, a.(send := a.send.(transitBit := true)), p, q, b.neg.chapAlg, i.sendId, i.sendChallenge)
               else
                 || (a.flow.phase == PhaseDone && a.flow.rmtAuthStatus == Fail)
                 || (a.flow.phase == Authenticate && a.flow.rmtState == RmtDone && a.flow.rmtAuthStatus == Fail)
  {
    hide Worked, LocalAuth, Decimal, HexText, Response, Expects, Clashes, DigestLen, Reply;
    ThirdReplyFlow(h, b, i, p, q, s, o);
    if TargetAccepts(h, i, b, p, q, s) {
      var c := b.(recvEndCount := b.recvEndCount + 1);
      TargetLocal(h, c, i, p, q, o);
      ReplyKept(h, LocalAuth(h, c, o), Worked(h, b, s, o), p, q, b.neg.chapAlg, i.sendId, i.sendChallenge);
    }
  }

  lemma ReplyKept(h: Digest, a: Acl, d: Acl, p: Side, q: Side, alg: int, id: byte, challenge: seq<byte>)
    requires Reply(h, a.(send := a.send.(transitBit := true)), p, q, alg, id, challenge)
    requires d.send == a.send || d.send == a.send.(transitBit := true)
    ensures Reply(h, d.(send := d.send.(transitBit := true)), p, q, alg, id, challenge)
    ensures d.send.transitBit ==> Reply(h, d, p, q, alg, id, challenge)
  {
    hide HexText, Response;
  }

  lemma ThirdReply(h: Digest, i: Acl, t: Acl, p: Side, q: Side, s: Session, o: Oracle)
    requires Idle(t, TargetConfig(q), Challenging, 2) && RealAlg(t.neg.chapAlg) && Fair(o)
    requires t.neg.challengeLen == DigestLen(t.neg.chapAlg)
    requires Answer(h, i, p, t.neg.chapAlg, t.sendId, t.sendChallenge)
    requires |p.username| < STR_MAX_LEN && |q.username| < STR_MAX_LEN
    requires p.authRmt ==> 1 <= |i.sendChallenge| <= 32
    ensures var r := Deliver(h, i, t, s, o);
            && (r.status == Pass <==> TargetAccepts(h, i, t, p, q, s))
            && (r.status == Pass ==> r.acl.neg == t.neg && Reply(h, r.acl, p, q, t.neg.chapAlg, i.sendId, i.sendChallenge))
  {
    hide Take, RecvEnd, Worked, Decimal, HexText, Response, TargetAccepts, Reply, DigestLen;
    ResponseLength(h, t.neg.chapAlg, t.sendId, p.passwd.value, t.sendChallenge);
    IdText(i.sendId);
    assert Modest(i);
    TakeFacts(t, i);
    var b := Take(t, i);
    assert TargetAccepts(h, i, b, p, q, s) == TargetAccepts(h, i, t, p, q, s) by { SameVerdict(h, i, b, t, p, q, s); }
    ThirdReplyWork(h, b, i, p, q, s, o);
    var a := Worked(h, b, s, o);
    if TargetAccepts(h, i, t, p, q, s) {
      EndsInPass(h, b, s, o);
      ReplyKept(h, a, RecvEnd(h, b, s, o).acl, p, q, t.neg.chapAlg, i.sendId, i.sendChallenge);
    } else if a.flow.phase == PhaseDone {
      EndsInFail(h, b, s, o);
    } else {
      EndsInVerdict(h, b, s, o);
    }
  }

  lemma SameVerdict(h: Digest, i: Acl, b: Acl, t: Acl, p: Side, q: Side, s: Session)
    requires p.passwd.Some? && b.neg == t.neg && b.sendId == t.sendId && b.sendChallenge == t.sendChallenge
    ensures TargetAccepts(h, i, b, p, q, s) == TargetAccepts(h, i, t, p, q, s)
  {
    hide Response, Clashes, Expects;
  }

  predicate InitiatorAccepts(h: Digest, i: Acl, p: Side, q: Side, s: Session)
    requires p.authRmt ==> q.passwd.Some?
  {
    p.authRmt ==>
      var alg := i.neg.chapAlg;
      var rsp := Response(h, alg, i.sendId, q.passwd.value, i.sendChallenge);
      && !Clashes(h, p, alg, i.sendId, i.sendChallenge, rsp)
      && Expects(h, s, q.username, alg, i.sendId, i.sendChallenge, rsp)
  }

  lemma FinalWork(h: Digest, b: Acl, t: Acl, p: Side, q: Side, s: Session, o: Oracle)
    requires b.flow == Answered(p.authRmt) && b.cfg == InitiatorConfig(p) && RealAlg(b.neg.chapAlg) && Fair(o)
    requires b.neg.challengeLen == DigestLen(b.neg.chapAlg)
    requires b.send == EmptyBlock && b.recv.values == t.send.values && b.recv.processed == {}
    requires Reply(h, t, p, q, b.neg.chapAlg, b.sendId, b.sendChallenge)
    ensures var a := Worked(h, b, s, o);
            && a.recv.transitBit == b.recv.transitBit && a.cfg == b.cfg && a.neg == b.neg && a.transitBitSent == b.transitBitSent
            && if InitiatorAccepts(h, b, p, q, s) then
                 && a.flow == Flow(Authenticate, LocalDone, RmtDone, Pass, p.authRmt) && Clean(a)
               else
                 || (a.flow.phase == PhaseDone && a.flow.rmtAuthStatus == Fail)
                 || (a.flow.phase == Authenticate && a.flow.rmtState == RmtDone && a.flow.rmtAuthStatus == Fail)
  {
    hide LocalAlg, LocalChallenge, RmtChallenge, RmtResponse, HexText, Response, Block.Set, Expects, Clashes, DigestLen;
    var c := b.(recvEndCount := b.recvEndCount + 1);
    if p.authRmt {
      var rsp := Response(h, b.neg.chapAlg, b.sendId, q.passwd.value, b.sendChallenge);
      ResponseLength(h, b.neg.chapAlg, b.sendId, q.passwd.value, b.sendChallenge);
      Verification(h, c, p, s, rsp, q.username, o);
    }
  }

  lemma FinalMessage(h: Digest, i: Acl, t: Acl, p: Side, q: Side, s: Session, o: Oracle)
    requires Idle(i, InitiatorConfig(p), Answered(p.authRmt), 2) && RealAlg(i.neg.chapAlg) && Fair(o)
    requires i.send.transitBit && i.neg.challengeLen == DigestLen(i.neg.chapAlg) && |q.username| < STR_MAX_LEN
    requires Reply(h, t, p, q, i.neg.chapAlg, i.sendId, i.sendChallenge)
    ensures var r := Deliver(h, t, i, s, o);
            && (r.status == Pass <==> InitiatorAccepts(h, i, p, q, s))
            && (r.status == Pass ==> r.acl.neg == i.neg)
  {
    hide Take, RecvEnd, Worked, Decimal, HexText, Response, Clashes, Expects, DigestLen;
    if p.authRmt {
      ResponseLength(h, i.neg.chapAlg, i.sendId, q.passwd.value, i.sendChallenge);
    }
    assert Modest(t);
    TakeFacts(i, t);
    var b := Take(i, t);
    FinalWork(h, b, t, p, q, s, o);
    var a := Worked(h, b, s, o);
    if InitiatorAccepts(h, i, p, q, s) {
      EndsInPass(h, b, s, o);
    } else if a.flow.phase == PhaseDone {
      EndsInFail(h, b, s, o);
    } else {
      EndsInVerdict(h, b, s, o);
    }
  }

  // ---------- configuration ----------

  /** The calls that configure a client. */
  function ConfigOps(p: Side): seq<Op> {
    [SetUserName(Some(p.username)), SetChapAlgList(p.algs), SetIpSec(p.ipSec)] +
    (if p.passwd.Some? then [SetPasswd(p.passwd.value)] else []) +
    [SetAuthRmt(p.authRmt)]
  }

  lemma RunOne(h: Digest, c: Acl, ops: seq<Op>, op: Op)
    ensures Run(h, c, ops + [op]) == Step(h, Run(h, c, ops), op).acl
  {
    hide Step;
    assert (ops + [op])[..|ops|] == ops;
  }

  lemma ConfiguredClient(h: Digest, n: NodeType, p: Side)
    requires Acceptable(p)
    ensures var c := Run(h, Init(n), ConfigOps(p));
            c == SetMethodValid(Init(n).(send := c.send, negRole := c.negRole, cfg := c.cfg),
                                Init(n).cfg.(username := p.username, algList := p.algs, ipSec := p.ipSec,
                                             passwd := p.passwd, authRmt := p.authRmt, validMethods := c.cfg.validMethods))
  {
    hide Run, KeepMethods, MethodKey, Block.Set, ValidAlgList;
    var o1 := [SetUserName(Some(p.username))];
    var o2 := o1 + [SetChapAlgList(p.algs)];
    var o3 := o2 + [SetIpSec(p.ipSec)];
    var o4 := if p.passwd.Some? then o3 + [SetPasswd(p.passwd.value)] else o3;
    assert ConfigOps(p) == o4 + [SetAuthRmt(p.authRmt)];
    RunEmpty(h, Init(n));
    assert [] + o1 == o1;
    RunOne(h, Init(n), [], SetUserName(Some(p.username)));
    RunOne(h, Init(n), o1, SetChapAlgList(p.algs));
    RunOne(h, Init(n), o2, SetIpSec(p.ipSec));
    if p.passwd.Some? { RunOne(h, Init(n), o3, SetPasswd(p.passwd.value)); }
    RunOne(h, Init(n), o4, SetAuthRmt(p.authRmt));
  }

  lemma MethodLists(onlyNone: bool)
    ensures KeepMethods([METHOD_CHAP, OPTION_NONE], true, onlyNone) == [METHOD_CHAP]
    ensures KeepMethods([METHOD_CHAP, OPTION_NONE], false, false) == [METHOD_CHAP, OPTION_NONE]
    ensures MethodKey([METHOD_CHAP]) == Some("CHAP")
    ensures MethodKey([METHOD_CHAP, OPTION_NONE]) == Some("CHAP,None")
  {
    var m := [METHOD_CHAP, OPTION_NONE];
    assert m[1..] == [OPTION_NONE] && [OPTION_NONE][1..] == [] && [METHOD_CHAP][1..] == [];
    assert KeepMethods([OPTION_NONE], true, onlyNone) == [];
    assert KeepMethods([OPTION_NONE], false, false) == [OPTION_NONE];
    assert MethodTexts([METHOD_CHAP]) == ["CHAP"];
    assert MethodTexts([OPTION_NONE]) == ["None"];
    assert MethodTexts(m) == ["CHAP", "None"];
    assert ["CHAP", "None"][1..] == ["None"];
    assert Join(["CHAP", "None"]) == "CHAP" + "," + "None";
    assert "CHAP" + "," + "None" == "CHAP,None";
  }

  lemma ReadyInitiator(h: Digest, p: Side)
    requires Acceptable(p) && (p.passwd.Some? || p.authRmt)
    ensures var c := Run(h, Init(Initiator), ConfigOps(p));
            Idle(c, InitiatorConfig(p), Fresh, 0) && c.send.values == map[AuthMethod := MethodOffer(p)]
  {
    hide Run, ConfigOps, ValidAlgList, KeepMethods, MethodKey;
    MethodLists(false);
    MethodLists(true);
    ConfiguredClient(h, Initiator, p);
  }

  lemma ReadyTarget(h: Digest, q: Side)
    requires Acceptable(q) && q.authRmt
    ensures Idle(Run(h, Init(Target), ConfigOps(q)), TargetConfig(q), Fresh, 0)
  {
    hide Run, ConfigOps, ValidAlgList, KeepMethods, MethodKey;
    MethodLists(false);
    MethodLists(true);
    ConfiguredClient(h, Target, q);
  }

  // ---------- the composition ----------

  /** What the libraries do on one side, message by message. */
  datatype Oracles = Oracles(first: Oracle, second: Oracle, third: Oracle)

  predicate AllFair(o: Oracles) { Fair(o.first) && Fair(o.second) && Fair(o.third) }

  datatype Outcome = Outcome(initiator: Result, target: Result)

  /** Three messages each way, the initiator first; sI and sT are the credentials the
      initiator and the target expect. */
  function Exchange(h: Digest, i0: Acl, t0: Acl, sI: Session, sT: Session, oI: Oracles, oT: Oracles): Outcome {
    var t1 := Deliver(h, i0, t0, sT, oT.first).acl;
    var i1 := Deliver(h, t1, i0, sI, oI.first).acl;
    var t2 := Deliver(h, i1, t1, sT, oT.second).acl;
    var i2 := Deliver(h, t2, i1, sI, oI.second).acl;
    var t3 := Deliver(h, i2, t2, sT, oT.third);
    var i3 := Deliver(h, t3.acl, i2, sI, oI.third);
    Outcome(i3, t3)
  }

  /** One side's response convinces the other: it has the expected name and secret, and
      it is not what the other side's own secret would give. */
  predicate Convinces(h: Digest, alg: int, x: Side, y: Side, expected: Session, id: byte, challenge: seq<byte>) {
    && x.passwd.Some?
    && var rsp := Response(h, alg, id, x.passwd.value, challenge);
       Expects(h, expected, x.username, alg, id, challenge, rsp) && !Clashes(h, y, alg, id, challenge, rsp)
  }

  /** When two honest sides authenticate. */
  predicate Compatible(h: Digest, p: Side, q: Side, sI: Session, sT: Session, oI: Oracles, oT: Oracles) {
    var alg := Chosen(p, q);
    var challengeT := Draw(ChapSteps.DigestBytes(alg), oT.second.challenge);
    var challengeI := Draw(ChapSteps.DigestBytes(alg), oI.second.challenge);
    && alg in {5, 6, 7, 8}
    && Strong(p) && Convinces(h, alg, p, q, sT, oT.second.id, challengeT)
    && (p.authRmt ==>
          && challengeI != challengeT
          && Strong(q) && Convinces(h, alg, q, p, sI, oI.second.id, challengeI))
  }

  /** A client that is over answers every further message with an error. */
  lemma DeadDelivery(h: Digest, from: Acl, to: Acl, s: Session, o: Oracle)
    requires to.flow.phase == PhaseDone
    ensures Deliver(h, from, to, s, o).status == Error
  {
  }

  lemma LastRounds(h: Digest, p: Side, q: Side, sI: Session, sT: Session, oI: Oracles, oT: Oracles, i1: Acl, t2: Acl)
    requires AllFair(oI) && AllFair(oT) && |p.username| < STR_MAX_LEN && |q.username| < STR_MAX_LEN
    requires Idle(i1, InitiatorConfig(p), Offered, 1) && Idle(t2, TargetConfig(q), Challenging, 2)
    requires var alg := Chosen(p, q);
             && RealAlg(alg) && t2.neg.chapAlg == alg && t2.neg.challengeLen == DigestLen(alg)
             && t2.sendId == oT.second.id && t2.sendChallenge == Draw(DigestLen(alg), oT.second.challenge)
             && t2.send.values == map[ChapAlg := Decimal(alg), ChapIdentifier := Decimal(t2.sendId), ChapChallenge := ""]
             && !t2.send.transitBit
    ensures var i2 := Deliver(h, t2, i1, sI, oI.second).acl;
            var t3 := Deliver(h, i2, t2, sT, oT.third);
            var i3 := Deliver(h, t3.acl, i2, sI, oI.third);
            && (i3.status == Pass && t3.status == Pass <==> Compatible(h, p, q, sI, sT, oI, oT))
            && (Compatible(h, p, q, sI, sT, oI, oT) ==> i3.acl.neg.chapAlg == t3.acl.neg.chapAlg == Chosen(p, q))
  {
    hide Deliver, Draw, Decimal, Response, Expects, Clashes, FirstCommon, Answer, Reply;
    var alg := Chosen(p, q);
    FirstCommonIn(p.algs, q.algs);
    ChapSteps.Algorithms(alg);
    assert 16 <= DigestLen(alg) <= 32;
    hide DigestLen, ChapSteps.DigestBytes;
    ThirdOffer(h, i1, t2, p, alg, sI, oI.second);
    var i2 := Deliver(h, t2, i1, sI, oI.second).acl;
    var t3 := Deliver(h, i2, t2, sT, oT.third);
    if Strong(p) {
      AnswerHasSecret(h, i2, p, alg, t2.sendId, t2.sendChallenge);
      ThirdReply(h, i2, t2, p, q, sT, oT.third);
      if t3.status == Pass {
        FinalMessage(h, i2, t3.acl, p, q, sI, oI.third);
      }
    } else {
      DeadDelivery(h, t3.acl, i2, sI, oI.third);
    }
  }

  lemma AnswerHasSecret(h: Digest, i: Acl, p: Side, alg: int, id: byte, challenge: seq<byte>)
    requires Answer(h, i, p, alg, id, challenge)
    ensures p.passwd.Some? && i.send.transitBit
  {
  }

  /** Honest composition: an initiator and a target of this implementation that negotiate
      CHAP both end in PASS, with the same algorithm, if and only if they are compatible. */
  lemma HonestComposition(h: Digest, p: Side, q: Side, sI: Session, sT: Session, oI: Oracles, oT: Oracles)
    requires Acceptable(p) && Acceptable(q) && (p.passwd.Some? || p.authRmt) && q.authRmt && AllFair(oI) && AllFair(oT)
    ensures var e := Exchange(h, Run(h, Init(Initiator), ConfigOps(p)), Run(h, Init(Target), ConfigOps(q)), sI, sT, oI, oT);
            && (e.initiator.status == Pass && e.target.status == Pass <==> Compatible(h, p, q, sI, sT, oI, oT))
            && (Compatible(h, p, q, sI, sT, oI, oT) ==>
                  e.initiator.acl.neg.chapAlg == e.target.acl.neg.chapAlg == Chosen(p, q))
  {
    hide Run, Deliver, Draw, DigestLen, Response, Decimal, Expects, Clashes, FirstCommon, ValidAlgList, ConfigOps, AlgKey;
    var i0, t0 := Run(h, Init(Initiator), ConfigOps(p)), Run(h, Init(Target), ConfigOps(q));
    ReadyInitiator(h, p);
    ReadyTarget(h, q);
    FirstReply(h, i0, t0, p, q, sT, oT.first);
    var t1 := Deliver(h, i0, t0, sT, oT.first).acl;
    SecondOffer(h, i0, t1, p, sI, oI.first);
    var i1 := Deliver(h, t1, i0, sI, oI.first).acl;
    SecondReply(h, i1, t1, p, q, sT, oT.second);
    var t2 := Deliver(h, i1, t1, sT, oT.second).acl;
    ChapSteps.Algorithms(Chosen(p, q));
    if RealAlg(Chosen(p, q)) {
      LastRounds(h, p, q, sI, sT, oI, oT, i1, t2);
    } else {
      DeadDelivery(h, Deliver(h, t2, i1, sI, oI.second).acl, t2, sT, oT.third);
    }
  }

  /** Matching credentials are enough, given a real common algorithm, long enough secrets
      that do not begin with a zero byte, and different challenges and responses. */
  lemma MatchingCredentials(h: Digest, p: Side, q: Side, oI: Oracles, oT: Oracles)
    requires Acceptable(p) && Acceptable(q) && q.authRmt && AllFair(oI) && AllFair(oT)
    requires Strong(p) && Strong(q) && p.username != "" && q.username != "" && Chosen(p, q) in {5, 6, 7, 8}
    requires p.passwd.value != [] && p.passwd.value[0] != 0 && q.passwd.value != [] && q.passwd.value[0] != 0
    requires var alg := Chosen(p, q);
             var cT := Draw(ChapSteps.DigestBytes(alg), oT.second.challenge); var cI := Draw(ChapSteps.DigestBytes(alg), oI.second.challenge);
             && Response(h, alg, oT.second.id, p.passwd.value, cT) != Response(h, alg, oT.second.id, q.passwd.value, cT)
             && (p.authRmt ==>
                   && cI != cT
                   && Response(h, alg, oI.second.id, p.passwd.value, cI) != Response(h, alg, oI.second.id, q.passwd.value, cI))
    ensures var sI := Session(q.username, q.passwd.value); var sT := Session(p.username, p.passwd.value);
            var e := Exchange(h, Run(h, Init(Initiator), ConfigOps(p)), Run(h, Init(Target), ConfigOps(q)), sI, sT, oI, oT);
            && e.initiator.status == Pass && e.target.status == Pass
            && e.initiator.acl.neg.chapAlg == e.target.acl.neg.chapAlg == Chosen(p, q)
  {
    hide Run, Exchange, Draw, DigestLen, ChapSteps.DigestBytes, Response, FirstCommon, ValidAlgList, ConfigOps, RealAlg;
    HonestComposition(h, p, q, Session(q.username, q.passwd.value), Session(p.username, p.passwd.value), oI, oT);
  }

  /** A common algorithm is not enough: a list may also hold the option None, and when
      that is the first common entry the exchange fails. */
  lemma CommonAlgorithmNotEnough(h: Digest, p: Side, q: Side, sI: Session, sT: Session, oI: Oracles, oT: Oracles)
    requires Acceptable(p) && Acceptable(q) && (p.passwd.Some? || p.authRmt) && q.authRmt && AllFair(oI) && AllFair(oT)
    requires p.algs == q.algs == [OPTION_NONE, ALG_MD5]
    ensures var e := Exchange(h, Run(h, Init(Initiator), ConfigOps(p)), Run(h, Init(Target), ConfigOps(q)), sI, sT, oI, oT);
            !(e.initiator.status == Pass && e.target.status == Pass)
  {
    hide Run, Exchange, Draw, DigestLen, Response, ValidAlgList, ConfigOps, Convinces;
    assert FirstCommon(p.algs, q.algs) == Some(OPTION_NONE);
    HonestComposition(h, p, q, sI, sT, oI, oT);
  }
}
