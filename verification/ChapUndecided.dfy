/** When acl_recv_end has no verdict: it can return the status "no error", which is neither
    PASS nor FAIL nor CONTINUE, and exactly when it does. */
module ChapUndecided {
  import opened CText
  import opened Codec
  import opened KeyBlocks
  import opened Chap
  import opened ChapSteps
  import opened ChapInvariant
  import opened ChapRuns
  import ChapHonest

  /** During the exchange the peer has a verdict exactly if the remote half is done. */
  predicate Decided(f: Flow) {
    f.phase == Authenticate ==> (f.rmtState == RmtDone <==> f.rmtAuthStatus != NoError)
  }

  // ---------- the work on one message ----------

  lemma ChallengeDecided(c: Acl, o: Oracle)
    requires c.flow.rmtAuthStatus == NoError
    ensures var d := RmtChallenge(c, o);
            && (d.flow.rmtState == RmtDone <==> d.flow.rmtAuthStatus != NoError)
            && (d.flow.rmtState == RmtRecvRsp <==> c.cfg.authRmt && o.idOk && o.challengeOk)
  {
    hide Draw, Decimal;
  }

  lemma ResponseDecided(h: Digest, c: Acl, s: Session, o: Oracle)
    requires c.flow.rmtAuthStatus == NoError
    ensures var d := RmtResponse(h, c, s, o);
            (d.flow.rmtState == RmtDone && d.flow.rmtAuthStatus in {Pass, Fail}) || d.flow.rmtState == RmtError
  {
    hide OwnResponse, PeerVerified, TextToData;
  }

  lemma ChapStepDecided(h: Digest, c: Acl, s: Session, o: Oracle)
    requires c.flow.phase == Authenticate && LockStep(c) && Decided(c.flow)
    ensures Decided(ChapStep(h, c, s, o).flow)
  {
    hide LocalAuth, RmtAuth, RmtChallenge, RmtResponse, Challenges, TextToData, ProvesPeer, LocalKeys, RmtKeys;
    LocalAuthFacts(h, c, o);
    var l := LocalAuth(h, c, o);
    if l.flow.localState != LocalError {
      RmtAuthFacts(h, l, s, o);
      if l.flow.rmtAuthStatus == NoError {
        ChallengeDecided(l, o);
        ResponseDecided(h, l, s, o);
      }
    }
  }

  lemma NegotiateDecided(c: Acl)
    requires c.flow.phase == Negotiate && c.flow.rmtState == RmtUnset && c.flow.rmtAuthStatus == NoError
    ensures Decided(NegotiateMethod(c).flow)
  {
    hide MethodKey, FirstMethod, ItemsOf, KeyBlocks.Block.Set;
  }

  lemma AdvancedDecided(h: Digest, c: Acl, s: Session, o: Oracle)
    requires c.flow.phase in {Negotiate, Authenticate, PhaseDone}
    requires c.flow.phase == Negotiate ==> c.flow.rmtState == RmtUnset && c.flow.rmtAuthStatus == NoError
    requires c.flow.phase == Authenticate ==> LockStep(c) && Decided(c.flow)
    ensures Decided(Advanced(h, c, s, o).flow)
  {
    hide NegotiateMethod, ChapStep, SameMessage;
    if c.flow.phase == Negotiate {
      NegotiateFacts(c);
      NegotiateDecided(c);
      var n := NegotiateMethod(c);
      if n.flow.phase == Authenticate {
        ChapStepDecided(h, n, s, o);
      }
    } else if c.flow.phase == Authenticate {
      ChapStepDecided(h, c, s, o);
    }
  }

  lemma EndDecided(h: Digest, c: Acl, s: Session, o: Oracle)
    requires Inv(c) && Decided(c.flow) && c.recvInProgress && c.flow.phase != PhaseError
    ensures Decided(RecvEnd(h, c, s, o).acl.flow)
  {
    hide Screened, Advanced, HandShake, EndStatus, ProvesPeer, Challenges, ExpectedKeys;
    ScreenedFacts(h, c, s);
    AdvancedFacts(h, Screened(c), s, o);
    AdvancedDecided(h, Screened(c), s, o);
    var a := Advanced(h, Screened(c), s, o);
    HandShakeFacts(a);
    EndStatusFacts(HandShake(a));
  }

  lemma StepDecided(h: Digest, c: Acl, op: Op)
    requires Inv(c) && Decided(c.flow)
    ensures Decided(Step(h, c, op).acl.flow)
  {
    hide RecvEnd;
    if !op.End? {
      hide Step, ExchangeInv;
      QuietStep(h, c, op);
    } else if c.recvInProgress && c.flow.phase != PhaseError {
      EndDecided(h, c, op.session, op.oracle);
    } else {
      IdleEnd(h, c, op.session, op.oracle);
    }
  }

  lemma {:induction false} RunDecided(h: Digest, n: NodeType, ops: seq<Op>)
    ensures Decided(Run(h, Init(n), ops).flow)
  {
    hide Step, Inv, Init;
    if ops == [] {
      InitInv(n);
    } else {
      var k := |ops| - 1;
      RunInv(h, n, ops[..k]);
      RunDecided(h, n, ops[..k]);
      StepDecided(h, Run(h, Init(n), ops[..k]), ops[k]);
    }
  }

  // ---------- no verdict ----------

  /** The algorithm a target chooses from the list in the message. */
  function ChosenAlg(c: Acl): int {
    var key := c.recv.Value(ChapAlg);
    Negotiated(key, FirstAlg(c.cfg.algList, ItemsOf(key)))
  }

  /** The method a client settles on by the message. */
  function ChosenMethod(c: Acl): int {
    var key := c.recv.Value(AuthMethod);
    Negotiated(key, FirstMethod(c.cfg.validMethods, ItemsOf(key)))
  }

  /** A target that has to authenticate its peer gets the peer's algorithm list in this
      message, finds an algorithm in it, and sends its challenge. */
  predicate ChallengesNow(c: Acl, o: Oracle) {
    && c.cfg.nodeType == Target && c.cfg.authRmt && o.idOk && o.challengeOk
    && (|| (c.flow.phase == Authenticate && c.flow.rmtState == RmtSendAlg)
        || (c.flow.phase == Negotiate && c.negRole == Originator && ChosenMethod(c) == METHOD_CHAP))
    && RealAlg(ChosenAlg(c))
  }

  /** A status of no error is a finished exchange without a verdict. */
  lemma EndNoVerdict(a: Acl)
    requires a.flow.phase in {Negotiate, Authenticate, PhaseDone} && a.flow.rmtAuthStatus in {NoError, Pass, Fail}
    requires Decided(a.flow) && (a.flow.phase == PhaseDone ==> a.flow.rmtAuthStatus == Fail)
    ensures EndStatus(HandShake(a)).status == NoError <==>
            a.cfg.nodeType == Target && a.recv.transitBit && a.flow.phase == Authenticate && a.flow.rmtState == RmtRecvRsp
  {
    hide KeyBlocks.Block.Set, SuppressedKeys;
  }

  lemma TargetChallenge(h: Digest, c: Acl, s: Session, o: Oracle)
    requires c.flow.phase == Authenticate && LockStep(c) && Decided(c.flow) && c.cfg.nodeType == Target
    ensures var d := ChapStep(h, c, s, o);
            d.flow.phase == Authenticate && d.flow.rmtState == RmtRecvRsp <==>
            c.cfg.authRmt && o.idOk && o.challengeOk && c.flow.rmtState == RmtSendAlg && RealAlg(ChosenAlg(c))
  {
    hide LocalAuth, RmtAuth, RmtChallenge, RmtResponse, Challenges, TextToData, ProvesPeer, LocalKeys, RmtKeys, ChosenAlg;
    LocalAuthFacts(h, c, o);
    if c.flow.rmtState == RmtSendAlg {
      TargetAlg(h, c, o);
    }
    var l := LocalAuth(h, c, o);
    if l.flow.localState != LocalError {
      RmtAuthFacts(h, l, s, o);
      if l.flow.rmtAuthStatus == NoError {
        ChallengeDecided(l, o);
        ResponseDecided(h, l, s, o);
      }
    }
  }

  lemma TargetAlg(h: Digest, c: Acl, o: Oracle)
    requires c.cfg.nodeType == Target && c.flow.localState == LocalSendAlg
    ensures LocalAuth(h, c, o).flow.localState == LocalError <==> !RealAlg(ChosenAlg(c))
  {
    hide LocalChallenge, AlgKey, KeyBlocks.Block.Set, FirstAlg, ItemsOf;
  }

  lemma NegotiatedMethod(c: Acl)
    requires c.flow.phase == Negotiate && c.flow == Flow(Negotiate, LocalUnset, RmtUnset, NoError, false)
    ensures var n := NegotiateMethod(c);
            && n.cfg == c.cfg && n.recv.values == c.recv.values
            && (c.negRole == Originator ==>
                  (n.flow.phase == Authenticate && n.flow.rmtState == RmtSendAlg <==> ChosenMethod(c) == METHOD_CHAP))
            && (n.flow.phase == Authenticate ==> n.flow.rmtState in {RmtSendAlg, RmtDone})
  {
    hide MethodKey, FirstMethod, ItemsOf, KeyBlocks.Block.Set;
  }

  lemma AdvancedChallenges(h: Digest, c: Acl, s: Session, o: Oracle)
    requires c.flow.phase in {Negotiate, Authenticate, PhaseDone} && c.cfg.nodeType == Target
    requires c.flow.phase == Negotiate ==> c.flow == Flow(Negotiate, LocalUnset, RmtUnset, NoError, false)
    requires c.flow.phase == Authenticate ==> LockStep(c) && Decided(c.flow)
    ensures var a := Advanced(h, c, s, o);
            a.flow.phase == Authenticate && a.flow.rmtState == RmtRecvRsp <==> ChallengesNow(c, o)
  {
    hide NegotiateMethod, ChapStep, SameMessage, FirstAlg, FirstMethod, ItemsOf;
    if c.flow.phase == Negotiate {
      NegotiateFacts(c);
      NegotiateDecided(c);
      NegotiatedMethod(c);
      var n := NegotiateMethod(c);
      if n.flow.phase == Authenticate && c.negRole == Originator {
        TargetChallenge(h, n, s, o);
      }
    } else if c.flow.phase == Authenticate {
      TargetChallenge(h, c, s, o);
    }
  }

  lemma EndUndecided(h: Digest, c: Acl, s: Session, o: Oracle)
    requires Inv(c) && Decided(c.flow) && c.recvInProgress && c.flow.phase != PhaseError
    ensures RecvEnd(h, c, s, o).status == NoError <==>
            c.recv.transitBit && c.recvEndCount <= RECV_END_MAX_COUNT && !c.recv.Defective() && ChallengesNow(c, o)
  {
    hide Advanced, HandShake, EndStatus, ProvesPeer, Challenges, ExpectedKeys, FirstAlg, FirstMethod, ItemsOf;
    ScreenedFacts(h, c, s);
    var d := Screened(c);
    AdvancedFacts(h, d, s, o);
    AdvancedDecided(h, d, s, o);
    var a := Advanced(h, d, s, o);
    EndNoVerdict(a);
    if c.cfg.nodeType == Target {
      AdvancedChallenges(h, d, s, o);
    }
  }

  /** Over every run: acl_recv_end returns no error exactly if it ends a message that is
      whole and in time, has the transit bit, and makes a target send its challenge. */
  lemma NoVerdict(h: Digest, n: NodeType, ops: seq<Op>, s: Session, o: Oracle)
    ensures var c := Run(h, Init(n), ops);
            Step(h, c, End(s, o)).status == NoError <==>
            && c.live && c.recvInProgress && c.flow.phase != PhaseError
            && c.recv.transitBit && c.recvEndCount <= RECV_END_MAX_COUNT && !c.recv.Defective() && ChallengesNow(c, o)
  {
    hide Init, Run, Inv, RecvEnd, ChallengesNow, Decided;
    var c := Run(h, Init(n), ops);
    RunInv(h, n, ops);
    RunDecided(h, n, ops);
    if c.recvInProgress && c.flow.phase != PhaseError {
      EndUndecided(h, c, s, o);
    } else {
      IdleEnd(h, c, s, o);
    }
  }

  // ---------- a message without a verdict ----------

  /** A target that knows MD5: it agrees on CHAP, then gets the list of algorithms in a
      message with the transit bit. */
  function HastyOps(s: Session, o: Oracle): seq<Op> {
    [SetChapAlgList([ALG_MD5]), Begin, KeyValue(0, Some("CHAP")), End(s, o), Begin, KeyValue(1, Some("5")), TransitBit(true)]
  }

  const MD5_SIDE := ChapHonest.Side("", None, [ALG_MD5], false, true)

  lemma Md5Target(h: Digest)
    ensures var c := Step(h, Init(Target), SetChapAlgList([ALG_MD5])).acl;
            ChapHonest.Idle(c, ChapHonest.TargetConfig(MD5_SIDE), ChapHonest.Fresh, 0)
  {
    hide KeepMethods, MethodKey;
    ChapHonest.MethodLists(false);
    ChapHonest.MethodLists(true);
    assert ValidAlgList([ALG_MD5]);
  }

  lemma MethodMessage(h: Digest, c: Acl, s: Session, o: Oracle)
    requires ChapHonest.Idle(c, ChapHonest.TargetConfig(MD5_SIDE), ChapHonest.Fresh, 0)
    ensures var b := Step(h, Step(h, c, Begin).acl, KeyValue(0, Some("CHAP"))).acl;
            var d := Step(h, b, End(s, o)).acl;
            d.live && !d.recvInProgress && d.cfg == c.cfg && d.flow == ChapHonest.Started && d.recvEndCount == 1
  {
    hide RecvEnd, ChapHonest.Worked;
    var b := Step(h, Step(h, c, Begin).acl, KeyValue(0, Some("CHAP"))).acl;
    assert b.recv.values == map[AuthMethod := "CHAP"];
    ChapHonest.FirstReplyWork(h, b, MD5_SIDE, "CHAP", s, o);
    ChapHonest.EndsInContinue(h, b, s, o);
  }

  lemma AlgMessage(h: Digest, d: Acl, o: Oracle)
    requires d.live && !d.recvInProgress && d.flow == ChapHonest.Started && d.recvEndCount == 1
    requires d.cfg == ChapHonest.TargetConfig(MD5_SIDE) && o.idOk && o.challengeOk
    ensures var c := Step(h, Step(h, Step(h, d, Begin).acl, KeyValue(1, Some("5"))).acl, TransitBit(true)).acl;
            && c.live && c.recvInProgress && c.flow.phase != PhaseError
            && c.recv.transitBit && c.recvEndCount <= RECV_END_MAX_COUNT && !c.recv.Defective() && ChallengesNow(c, o)
  {
    hide Items, FirstAlg;
    OnlyMd5();
  }

  lemma OnlyMd5()
    ensures FirstAlg([ALG_MD5], Items("5")) == Some(ALG_MD5)
  {
    assert CommaAt("5") == 1;
    assert "5"[..1] == "5" && Items("") == [];
    assert Items("5") == ["5"];
    Five();
  }

  lemma Five()
    ensures TextToNumber("5") == Some(5)
  {
    assert Decimal(5) == "5";
    NumberRoundTrip(5);
  }

  /** The status of that message is no error, although the exchange is over. */
  lemma HastyTarget(h: Digest, s: Session, o: Oracle, s': Session, o': Oracle)
    requires o'.idOk && o'.challengeOk
    ensures Step(h, Run(h, Init(Target), HastyOps(s, o)), End(s', o')).status == NoError
  {
    hide Init, Step, Run, ChallengesNow, ChapHonest.Idle, ChapHonest.TargetConfig;
    var ops := HastyOps(s, o);
    HastyRun(h, s, o);
    Md5Target(h);
    var c := Step(h, Init(Target), SetChapAlgList([ALG_MD5])).acl;
    MethodMessage(h, c, s, o);
    IdleConfig(c);
    var b := Step(h, Step(h, c, Begin).acl, KeyValue(0, Some("CHAP"))).acl;
    AlgMessage(h, Step(h, b, End(s, o)).acl, o');
    NoVerdict(h, Target, ops, s', o');
  }

  lemma IdleConfig(c: Acl)
    requires ChapHonest.Idle(c, ChapHonest.TargetConfig(MD5_SIDE), ChapHonest.Fresh, 0)
    ensures c.cfg == ChapHonest.TargetConfig(MD5_SIDE)
  {
  }

  lemma HastyRun(h: Digest, s: Session, o: Oracle)
    ensures var c := Step(h, Init(Target), SetChapAlgList([ALG_MD5])).acl;
            var b := Step(h, Step(h, c, Begin).acl, KeyValue(0, Some("CHAP"))).acl;
            var d := Step(h, b, End(s, o)).acl;
            Run(h, Init(Target), HastyOps(s, o)) ==
            Step(h, Step(h, Step(h, d, Begin).acl, KeyValue(1, Some("5"))).acl, TransitBit(true)).acl
  {
    hide Init, Step;
    var ops := HastyOps(s, o);
    assert ops[..6][..5] == ops[..5] && ops[..5][..4] == ops[..4] && ops[..4][..3] == ops[..3];
    assert ops[..3][..2] == ops[..2] && ops[..2][..1] == ops[..1] && ops[..1][..0] == [];
    assert Run(h, Init(Target), []) == Init(Target);
    assert Run(h, Init(Target), ops[..1]) == Step(h, Init(Target), ops[0]).acl;
    assert Run(h, Init(Target), ops[..2]) == Step(h, Run(h, Init(Target), ops[..1]), ops[1]).acl;
    assert Run(h, Init(Target), ops[..3]) == Step(h, Run(h, Init(Target), ops[..2]), ops[2]).acl;
    assert Run(h, Init(Target), ops[..4]) == Step(h, Run(h, Init(Target), ops[..3]), ops[3]).acl;
    assert Run(h, Init(Target), ops[..5]) == Step(h, Run(h, Init(Target), ops[..4]), ops[4]).acl;
    assert Run(h, Init(Target), ops[..6]) == Step(h, Run(h, Init(Target), ops[..5]), ops[5]).acl;
  }
}
