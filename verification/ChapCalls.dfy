/** What single calls on an authentication client come to, by the arguments of the call, the
    keys of the peer's message and the number of messages so far. */
module ChapCalls {
  import opened CText
  import opened Codec
  import opened KeyBlocks
  import opened Chap
  import opened ChapSteps
  import opened ChapInvariant
  import opened ChapRuns

  // ---------- calls that are refused ----------

  /** One to five different entries, each None (1) or an algorithm. */
  predicate UsableAlgs(algs: seq<int>) {
    && 1 <= |algs| <= 5
    && (forall i :: 0 <= i < |algs| ==> algs[i] in {1, 5, 6, 7, 8})
    && (forall i, j :: 0 <= i < j < |algs| ==> algs[i] != algs[j])
  }

  /** The call comes at the wrong time, or its argument is not usable. */
  predicate Refused(c: Acl, op: Op)
    requires !op.End?
  {
    match op
    case SetUserName(name) => c.flow.phase != Configure || name.None? || |name.value| >= 256
    case SetPasswd(data) => c.flow.phase != Configure || |data| > 256
    case SetAuthRmt(_) => c.flow.phase != Configure
    case SetIpSec(_) => c.flow.phase != Configure
    case SetChapAlgList(algs) => c.flow.phase != Configure || !UsableAlgs(algs)
    case Begin => c.flow.phase == PhaseDone || c.flow.phase == PhaseError || c.recvInProgress
    case KeyValue(keyType, _) => !(c.flow.phase in {Negotiate, Authenticate}) || !(0 <= keyType <= 5)
    case TransitBit(_) => !(c.flow.phase in {Negotiate, Authenticate})
    case SendKeyVal(keyType, room) =>
      || c.flow.phase == PhaseError || !(0 <= keyType <= 5)
      || (var text := Outgoing(c, KeyOf(keyType).value);
          text.Some? && (room < |text.value| + 1 || (keyType == 5 && c.sendChallenge == [])))
    case SendTransitBit => c.flow.phase == PhaseError
    case GetDbgStatus => c.flow.phase != PhaseDone
    case Finish => false
  }

  lemma AlgListIs(algs: seq<int>)
    ensures ValidAlgList(algs) <==> UsableAlgs(algs)
  {
    hide KnownAlgOption;
    forall i | 0 <= i < |algs| ensures KnownAlgOption(algs[i]) <==> algs[i] in {1, 5, 6, 7, 8} {
      AlgOptionIs(algs[i]);
    }
  }

  lemma AlgOptionIs(alg: int)
    ensures KnownAlgOption(alg) <==> alg in {1, 5, 6, 7, 8}
  {
  }

  /** Exactly the calls that come at the wrong time or with an unusable argument report an
      error, and they leave the client in the error phase. */
  lemma Refusals(h: Digest, c: Acl, op: Op)
    requires c.live && !op.End?
    ensures var r := Step(h, c, op);
            && r.status == (if Refused(c, op) then Error else NoError)
            && (Refused(c, op) ==> r.acl.flow.phase == PhaseError) && (r.acl.live <==> op != Finish)
  {
    hide ValidMethods, MethodKey, ValidRole, ValidAlgList, UsableAlgs, TextToData, HexText, Block.Set;
    if op.SetChapAlgList? {
      AlgListIs(op.algs);
    }
  }

  /** A challenge in hexadecimal is taken if it has 1 to 1024 bytes. */
  lemma ChallengeTaken(c: Acl, data: seq<byte>)
    requires c.flow.phase in {Negotiate, Authenticate}
    ensures RecvKeyValue(c, 5, Some(HexText(data))).acl.recvChallenge == if 1 <= |data| <= 1024 then Some(data) else None
  {
    hide TextToData, HexText, Block.Set;
    HexRoundTrip(data, LARGE_BINARY_MAX_LEN);
  }

  // ---------- configuration ----------

  /** The methods on offer: CHAP (2) alone for a client that authenticates its peer; else None
      (1) alone for a target or without a secret; else both. */
  function Offerable(cfg: Config): seq<int> {
    if cfg.authRmt then [2] else if cfg.nodeType == Target || cfg.passwd.None? then [1] else [2, 1]
  }

  function OfferText(cfg: Config): CString {
    if cfg.authRmt then "CHAP" else if cfg.passwd.None? then "None" else "CHAP,None"
  }

  /** What a client in configuration would do first agrees with what it was told last. */
  ghost predicate Consistent(c: Acl) {
    c.flow.phase == Configure ==>
      && c.cfg.methodList == [2, 1] && c.cfg.validMethods == Offerable(c.cfg)
      && (c.cfg.nodeType == Initiator ==>
            && c.cfg.methodNegRole == c.negRole == Originator
            && c.send.values == map[AuthMethod := OfferText(c.cfg)] && c.send.transitBit == !c.cfg.authRmt)
      && (c.cfg.nodeType == Target ==> c.negRole == Responder && c.send.values == map[] && !c.send.transitBit)
  }

  lemma MethodsIn(cfg: Config)
    requires cfg.methodList == [2, 1]
    ensures ValidMethods(cfg) == Offerable(cfg)
    ensures cfg.nodeType == Initiator ==> MethodKey(Offerable(cfg)) == Some(OfferText(cfg))
  {
    var m := [2, 1];
    assert m[1..] == [1] && [1][1..] == [] && [2][1..] == [];
    assert KeepMethods(m, true, false) == [2] && KeepMethods(m, false, true) == [1] && KeepMethods(m, false, false) == [2, 1];
    assert MethodTexts([1]) == ["None"] && MethodTexts([2]) == ["CHAP"];
    assert MethodTexts(m) == ["CHAP", "None"];
    assert ["CHAP", "None"][1..] == ["None"];
    assert Join(["CHAP", "None"]) == "CHAP" + "," + "None" == "CHAP,None";
  }

  lemma SetConsistent(c: Acl, cfg: Config)
    requires cfg.methodList == [2, 1] && (cfg.nodeType == Initiator ==> cfg.methodNegRole == Originator)
    ensures Consistent(SetMethodValid(c, cfg))
  {
    hide ValidMethods, MethodKey;
    MethodsIn(cfg);
    MethodsIn(cfg.(validMethods := ValidMethods(cfg)));
  }

  lemma ConsistentStep(h: Digest, c: Acl, op: Op)
    requires Inv(c) && Consistent(c)
    ensures Consistent(Step(h, c, op).acl)
  {
    hide ValidMethods, MethodKey, RecvEnd, ValidAlgList, TextToData, Outgoing, SetMethodValid, ExchangeInv, Consistent;
    StepForward(h, c, op);
    if Step(h, c, op).acl.flow.phase == Configure {
      StaysConsistent(h, c, op);
    } else {
      LaterConsistent(Step(h, c, op).acl);
    }
  }

  lemma LaterConsistent(c: Acl)
    requires c.flow.phase != Configure
    ensures Consistent(c)
  {
  }

  lemma StaysConsistent(h: Digest, c: Acl, op: Op)
    requires Inv(c) && Consistent(c) && c.flow.phase == Configure && Step(h, c, op).acl.flow.phase == Configure
    ensures Consistent(Step(h, c, op).acl)
  {
    hide ValidMethods, MethodKey, RecvEnd, ValidAlgList, TextToData, Outgoing, SetMethodValid, ExchangeInv, Consistent;
    ConsistentMethods(c);
    match op
    case SetPasswd(data) => SetConsistent(c, c.cfg.(passwd := Some(data)));
    case SetAuthRmt(on) => SetConsistent(c, c.cfg.(authRmt := on));
    case End(s, o) => IdleEnd(h, c, s, o);
    case _ => SameConsistent(c, Step(h, c, op).acl);
  }

  lemma ConsistentMethods(c: Acl)
    requires Consistent(c) && c.flow.phase == Configure
    ensures c.cfg.methodList == [2, 1] && (c.cfg.nodeType == Initiator ==> c.cfg.methodNegRole == Originator)
  {
  }

  lemma SameConsistent(c: Acl, d: Acl)
    requires Consistent(c) && d.flow.phase == c.flow.phase
    requires d.cfg == c.cfg.(username := d.cfg.username, ipSec := d.cfg.ipSec, algList := d.cfg.algList) && d.negRole == c.negRole
    requires d.send.values == c.send.values && d.send.transitBit == c.send.transitBit
    ensures Consistent(d)
  {
  }

  /** In whatever order a client is configured, its offer is the one for its configuration. */
  lemma {:induction false} OfferIsConsistent(h: Digest, n: NodeType, ops: seq<Op>)
    ensures Consistent(Run(h, Init(n), ops))
  {
    if ops == [] {
      StartConsistent(n);
    } else {
      hide Step, Init, Inv, Consistent;
      var k := |ops| - 1;
      OfferIsConsistent(h, n, ops[..k]);
      RunInv(h, n, ops[..k]);
      ConsistentStep(h, Run(h, Init(n), ops[..k]), ops[k]);
    }
  }

  lemma StartConsistent(n: NodeType)
    ensures Consistent(Init(n))
  {
    hide ValidMethods, MethodKey;
    MethodsIn(Init(n).cfg);
    MethodsIn(Init(n).cfg.(validMethods := []));
  }

  // ---------- messages ----------

  /** A message is complete, and neither it nor the number of messages before it is in the
      way. */
  predicate Received(c: Acl) {
    c.recvInProgress && c.flow.phase in {Negotiate, Authenticate} && c.recvEndCount <= 10 && !c.recv.Defective()
  }

  lemma ScreenedIs(c: Acl)
    requires Received(c)
    ensures Screened(c) == c.(recvEndCount := c.recvEndCount + 1)
  {
  }

  /** A message whose work is done: what is left is the transit bit and the status. */
  lemma EndIs(h: Digest, c: Acl, s: Session, o: Oracle)
    requires Received(c)
    ensures RecvEnd(h, c, s, o) == EndStatus(HandShake(Advanced(h, c.(recvEndCount := c.recvEndCount + 1), s, o)))
  {
    hide Screened, Advanced, HandShake, EndStatus;
    ScreenedIs(c);
  }

  /** Whatever the state of the client, without a response on record there is no PASS for a
      peer that has to authenticate itself. */
  lemma NoPassUnanswered(h: Digest, c: Acl, s: Session, o: Oracle)
    ensures var r := RecvEnd(h, c, s, o);
            r.status == Pass && r.acl.cfg.authRmt ==> r.acl.flow.authRspFlag
  {
    hide Screened, Advanced, Block.Set, Block.HasUnprocessed, Block.Defective;
  }

  /** A target that is not convinced by the response goes no further. */
  lemma NotConvinced(h: Digest, c: Acl, s: Session, o: Oracle)
    requires Inv(c) && c.cfg.nodeType == Target
    ensures var r := RecvEnd(h, c, s, o);
            GoesOn(r.status) && r.acl.flow.phase in {Authenticate, PhaseDone} ==>
              r.acl.flow.rmtState != RmtDone || r.acl.flow.rmtAuthStatus == Pass
  {
    hide Screened, Advanced, HandShake, EndStatus, ProvesPeer, Challenges, ExpectedKeys;
    if c.recvInProgress && c.flow.phase != PhaseError {
      ScreenedFacts(h, c, s);
      AdvancedFacts(h, Screened(c), s, o);
      Convinced(Advanced(h, Screened(c), s, o));
    }
  }

  lemma Convinced(a: Acl)
    requires a.cfg.nodeType == Target && a.flow.rmtAuthStatus in {NoError, Pass, Fail}
    ensures var r := EndStatus(HandShake(a));
            GoesOn(r.status) && r.acl.flow.phase in {Authenticate, PhaseDone} ==>
              r.acl.flow.rmtState != RmtDone || r.acl.flow.rmtAuthStatus == Pass
  {
    hide Block.Set, Block.HasUnprocessed, Block.Defective;
  }

  /** A failed exchange sends nothing, except that a target may say what it rejects. */
  lemma FailureSends(h: Digest, c: Acl, s: Session, o: Oracle)
    ensures var r := RecvEnd(h, c, s, o);
            r.status == Fail ==>
              if r.acl.cfg.nodeType == Initiator then r.acl.send.values == map[]
              else r.acl.send.values in {map[], map[AuthMethod := "Reject"], map[ChapAlg := "Reject"]}
  {
    hide Screened, Advanced, HandShake, Block.HasUnprocessed;
  }

  /** An initiator that has done its part waits for the target's transit bit, but for no more
      than eleven messages; the bit ends the exchange with the verdict on the target, unless
      it answers a message that did not have it. */
  lemma WaitsForTransit(h: Digest, c: Acl, s: Session, o: Oracle)
    requires Inv(c) && c.recvInProgress && c.flow.phase == Authenticate && c.cfg.nodeType == Initiator
    requires c.flow.rmtState == RmtDone && c.recv == EmptyBlock.(transitBit := c.recv.transitBit) && c.send == EmptyBlock
    ensures var r := RecvEnd(h, c, s, o);
            if c.recvEndCount >= 11 then r.status == Fail
            else if !c.recv.transitBit then r.status == Continue && r.acl.flow == c.flow && r.acl.send.transitBit
            else r.status == (if c.transitBitSent then c.flow.rmtAuthStatus else Fail) && r.acl.flow.phase == PhaseDone
  {
    hide LocalAuth, RmtAuth, Block.Set;
    if c.recvEndCount <= 10 {
      EndIs(h, c, s, o);
      hide RecvEnd;
      var n := c.(recvEndCount := c.recvEndCount + 1);
      LocalAuthFacts(h, n, o);
      RmtAuthFacts(h, n, s, o);
      assert Advanced(h, n, s, o) == n;
    }
  }

  // ---------- the method ----------

  /** The message has no AuthMethod.  Whoever had offered methods fails the exchange.  A
      target that was to answer offers its own, unless it need not authenticate its peer and
      the peer is done: then the exchange is passed. */
  lemma MethodAbsent(h: Digest, c: Acl, s: Session, o: Oracle)
    requires Inv(c) && Received(c) && c.flow.phase == Negotiate && c.recv.values == map[] && c.send == EmptyBlock
    ensures var r := RecvEnd(h, c, s, o);
            if c.negRole == Originator then r.status == Fail
            else if c.cfg.authRmt || !c.recv.transitBit then
              && r.acl.negRole == Originator
              && (!EmptyBlock.Set(AuthMethod, MethodKey(c.cfg.validMethods)).Defective() ==>
                    r.status == Continue && r.acl.flow == c.flow && r.acl.send.Value(AuthMethod) == MethodKey(c.cfg.validMethods))
            else r.status == Pass && r.acl.send.values == map[]
  {
    hide ChapStep, MethodKey, FirstMethod, RecvEnd;
    EndIs(h, c, s, o);
  }

  predicate Names(methods: seq<int>, item: CString) {
    exists k :: 0 <= k < |methods| && MethodText(methods[k]) == Some(item)
  }

  lemma {:induction false} FindNone(methods: seq<int>, item: CString)
    requires !Names(methods, item)
    ensures FindMethod(methods, item) == None
  {
    hide MethodText;
    if methods != [] {
      assert methods[0] == methods[0];
      assert forall k :: 0 <= k < |methods[1..]| ==> methods[1..][k] == methods[k + 1];
      FindNone(methods[1..], item);
    }
  }

  lemma {:induction false} FirstNone(methods: seq<int>, items: seq<CString>)
    requires forall i :: 0 <= i < |items| ==> !Names(methods, items[i])
    ensures FirstMethod(methods, items) == None
  {
    hide Names, FindMethod;
    if items != [] {
      FindNone(methods, items[0]);
      FirstNone(methods, items[1..]);
    }
  }

  /** A target that can use none of the methods on offer answers with Reject, and nothing
      else. */
  lemma MethodRejected(h: Digest, c: Acl, s: Session, o: Oracle)
    requires Inv(c) && Received(c) && c.flow.phase == Negotiate && c.cfg.nodeType == Target && c.negRole == Responder
    requires AuthMethod in c.recv.values && c.send == EmptyBlock
    requires forall i :: 0 <= i < |Items(c.recv.values[AuthMethod])| ==>
                           !Names(c.cfg.validMethods, Items(c.recv.values[AuthMethod])[i])
    ensures var r := RecvEnd(h, c, s, o);
            r.acl.send.values == map[AuthMethod := "Reject"] && (c.cfg.authRmt ==> r.status == Fail)
  {
    hide ChapStep, FirstMethod, Items, Names, RecvEnd;
    FirstNone(c.cfg.validMethods, Items(c.recv.values[AuthMethod]));
    RejectText();
    EndIs(h, c, s, o);
    hide MethodKey;
  }

  lemma RejectText()
    ensures MethodKey([OPTION_REJECT]) == Some("Reject")
  {
    assert MethodTexts([OPTION_REJECT]) == ["Reject"];
  }

  // ---------- the challenge ----------

  /** A target that can use none of the algorithms on offer answers with Reject. */
  lemma AlgRejected(h: Digest, c: Acl, s: Session, o: Oracle)
    requires Inv(c) && Received(c) && c.flow.phase == Authenticate && c.cfg.nodeType == Target
    requires c.flow.localState == LocalSendAlg && ChapAlg in c.recv.values && c.send == EmptyBlock
    requires FirstAlg(c.cfg.algList, Items(c.recv.values[ChapAlg])) == None
    ensures var r := RecvEnd(h, c, s, o);
            r.status == Fail && r.acl.send.values == map[ChapAlg := "Reject"]
  {
    hide RmtAuth, FirstAlg, Items, RecvEnd;
    EndIs(h, c, s, o);
  }

  /** The message has an identifier of one byte and a challenge, which is not the one this
      target has sent itself; and this side has a secret, of at least twelve bytes unless
      IPsec protects the session. */
  predicate Answerable(c: Acl, o: Oracle) {
    && ChapIdentifier in c.recv.values && ChapChallenge in c.recv.values && c.recvChallenge.Some?
    && (var id := TextToNumber(c.recv.values[ChapIdentifier]); id.Some? && id.value <= 255)
    && !(c.cfg.nodeType == Target && c.recvChallenge.value == c.sendChallenge)
    && c.cfg.passwd.Some? && (c.cfg.ipSec || |c.cfg.passwd.value| >= 12) && o.localHashOk
  }

  lemma ChallengeIs(h: Digest, c: Acl, o: Oracle)
    ensures var d := LocalChallenge(h, c, o);
            d.flow.localState ==
              if (Answerable(c, o) && c.neg.chapAlg in {5, 6, 7, 8}) ||
                 (c.cfg.nodeType == Target && ChapIdentifier !in c.recv.values && ChapChallenge !in c.recv.values)
              then LocalDone else LocalError
  {
    hide TextToNumber, ResponseText, Block.Set;
  }

  lemma WorkIs(h: Digest, c: Acl, s: Session, o: Oracle)
    requires c.flow.phase == Authenticate && LockStep(c) && c.flow.rmtAuthStatus in {NoError, Pass, Fail}
    ensures var l, a := LocalAuth(h, c, o), Advanced(h, c, s, o);
            && a.flow.localState == l.flow.localState && a.flow.phase in {Authenticate, PhaseDone}
            && a.flow.rmtAuthStatus in {NoError, Pass, Fail}
            && (l.flow.localState == LocalError ==> a.flow.phase == PhaseDone && a.flow.rmtAuthStatus == Fail)
  {
    hide LocalAuth, RmtAuth, LocalKeys, RmtKeys, InStep;
    LocalAuthFacts(h, c, o);
    var l := LocalAuth(h, c, o);
    InStepMoves(c);
    if l.flow.localState != LocalError {
      RmtAuthFacts(h, l, s, o);
    }
  }

  lemma InStepMoves(c: Acl)
    requires LockStep(c)
    ensures c.flow.rmtState != RmtUnset && c.flow.rmtState != RmtError
  {
  }

  /** The state of the local half after a message is the one that its work left. */
  lemma LocalAfter(h: Digest, c: Acl, s: Session, o: Oracle)
    requires Inv(c) && Received(c) && c.flow.phase == Authenticate
    ensures var l := LocalAuth(h, c.(recvEndCount := c.recvEndCount + 1), o);
            var r := RecvEnd(h, c, s, o);
            r.acl.flow.localState == l.flow.localState && (l.flow.localState == LocalError ==> r.status == Fail)
  {
    hide LocalAuth, Advanced, HandShake, EndStatus, RecvEnd, Inv, InStep;
    var n := c.(recvEndCount := c.recvEndCount + 1);
    EndIs(h, c, s, o);
    InvLockStep(c);
    WorkIs(h, n, s, o);
    var a := Advanced(h, n, s, o);
    HandShakeFacts(a);
    EndStatusFacts(HandShake(a));
    FailedEnd(a);
  }

  lemma FailedEnd(a: Acl)
    ensures a.flow.phase == PhaseDone && a.flow.rmtAuthStatus == Fail ==> EndStatus(HandShake(a)).status == Fail
  {
    hide Block.Set;
  }

  lemma InvLockStep(c: Acl)
    requires Inv(c) && c.flow.phase == Authenticate
    ensures LockStep(c) && c.flow.rmtAuthStatus in {NoError, Pass, Fail}
  {
  }

  /** A target that awaits a challenge is content with none at all; otherwise it must be one
      that it can answer, or the exchange fails. */
  lemma TargetAnswers(h: Digest, c: Acl, s: Session, o: Oracle)
    requires Inv(c) && Received(c) && c.flow.phase == Authenticate && c.cfg.nodeType == Target
    requires c.flow.localState == LocalRecvChallenge
    ensures var r := RecvEnd(h, c, s, o);
            var fine := if ChapIdentifier !in c.recv.values && ChapChallenge !in c.recv.values then true
                        else Answerable(c, o) && c.neg.chapAlg in {5, 6, 7, 8};
            r.acl.flow.localState == (if fine then LocalDone else LocalError) && (!fine ==> r.status == Fail)
  {
    hide LocalChallenge, Answerable, RecvEnd, Inv;
    LocalAfter(h, c, s, o);
    var n := c.(recvEndCount := c.recvEndCount + 1);
    ChallengeIs(h, n, o);
    assert Answerable(n, o) == Answerable(c, o) by { SameAnswer(c, n, o); }
  }

  lemma SameAnswer(c: Acl, n: Acl, o: Oracle)
    requires n.cfg == c.cfg && n.recv.values == c.recv.values && n.recvChallenge == c.recvChallenge
    requires n.sendChallenge == c.sendChallenge
    ensures Answerable(n, o) == Answerable(c, o)
  {
    hide TextToNumber;
  }

  lemma NoAlg(algs: seq<int>)
    ensures FirstAlg(algs, []) == None
  {
  }

  /** An initiator must be challenged, with an algorithm it has offered, and be able to
      answer, or the exchange fails. */
  lemma InitiatorAnswers(h: Digest, c: Acl, s: Session, o: Oracle)
    requires Inv(c) && Received(c) && c.flow.phase == Authenticate && c.cfg.nodeType == Initiator
    requires c.flow.localState == LocalRecvAlg
    ensures var r := RecvEnd(h, c, s, o);
            var alg := FirstAlg(c.cfg.algList, ItemsOf(c.recv.Value(ChapAlg)));
            var fine := Answerable(c, o) && alg.Some? && alg.value in {5, 6, 7, 8};
            r.acl.flow.localState == (if fine then LocalDone else LocalError) && (!fine ==> r.status == Fail)
  {
    hide LocalChallenge, Answerable, RecvEnd, Inv, FirstAlg, Items;
    NoAlg(c.cfg.algList);
    LocalAfter(h, c, s, o);
    var n := c.(recvEndCount := c.recvEndCount + 1);
    var a := CheckAlg(n);
    ChallengeIs(h, a, o);
    SameAnswer(c, a, o);
  }
}
