/** Two clients of this implementation of which one does not ask for authentication, or the
    initiator offers none: whether they settle on the method None. */
module ChapNone {
  import opened CText
  import opened Codec
  import opened KeyBlocks
  import opened Chap
  import opened ChapLists
  import opened ChapExchange
  import opened ChapHonest

  function InitiatorMethods(p: Side): seq<int> {
    if p.authRmt then [METHOD_CHAP] else if p.passwd.None? then [OPTION_NONE] else [METHOD_CHAP, OPTION_NONE]
  }

  function TargetMethods(q: Side): seq<int> { if q.authRmt then [METHOD_CHAP] else [OPTION_NONE] }

  function Offer(p: Side): CString {
    if p.authRmt then "CHAP" else if p.passwd.None? then "None" else "CHAP,None"
  }

  /** A configured client, before its first message. */
  predicate Ready(c: Acl, n: NodeType, p: Side, methods: seq<int>) {
    && c.live && !c.recvInProgress && c.flow == Fresh && c.recvEndCount == 0 && !c.send.Defective()
    && c.cfg.nodeType == n && c.cfg.authRmt == p.authRmt && c.cfg.validMethods == methods
    && c.negRole == (if n == Initiator then Originator else Responder)
  }

  lemma OnlyNone()
    ensures KeepMethods([METHOD_CHAP, OPTION_NONE], false, true) == [OPTION_NONE] && MethodKey([OPTION_NONE]) == Some("None")
    ensures MethodKey([OPTION_REJECT]) == Some("Reject")
  {
    var m := [METHOD_CHAP, OPTION_NONE];
    assert m[1..] == [OPTION_NONE] && [OPTION_NONE][1..] == [] && [OPTION_REJECT][1..] == [];
    assert KeepMethods([OPTION_NONE], false, true) == [OPTION_NONE];
    assert MethodTexts([OPTION_NONE]) == ["None"] && MethodTexts([OPTION_REJECT]) == ["Reject"];
  }

  lemma InitiatorReady(h: Digest, p: Side)
    requires Acceptable(p)
    ensures var c := Run(h, Init(Initiator), ConfigOps(p));
            && Ready(c, Initiator, p, InitiatorMethods(p))
            && c.send.values == map[AuthMethod := Offer(p)] && c.send.transitBit == !p.authRmt
  {
    hide Run, ConfigOps, ValidAlgList, KeepMethods, MethodKey;
    MethodLists(false);
    MethodLists(true);
    OnlyNone();
    ConfiguredClient(h, Initiator, p);
  }

  lemma TargetReady(h: Digest, q: Side)
    requires Acceptable(q)
    ensures Ready(Run(h, Init(Target), ConfigOps(q)), Target, q, TargetMethods(q))
  {
    hide Run, ConfigOps, ValidAlgList, KeepMethods, MethodKey;
    MethodLists(false);
    MethodLists(true);
    OnlyNone();
    ConfiguredClient(h, Target, q);
  }

  // ---------- what is chosen ----------

  lemma ItemLists()
    ensures Items("CHAP") == ["CHAP"] && Items("None") == ["None"] && Items("CHAP,None") == ["CHAP", "None"]
  {
    hide Items;
    assert "CHAP,None" == "CHAP" + "," + "None";
    ItemsStep("CHAP", "None", "CHAP,None");
    ItemsStep("CHAP", "", "CHAP");
    ItemsStep("None", "", "None");
    NoItems();
  }

  lemma NoItems()
    ensures Items("") == []
  {
  }

  /** A client that knows only None, or only CHAP, looks at an offer. */
  lemma Choices(p: Side)
    ensures FirstMethod([OPTION_NONE], Items(Offer(p))) == if p.authRmt then None else Some(OPTION_NONE)
    ensures p.passwd.None? && !p.authRmt ==> FirstMethod([METHOD_CHAP], Items(Offer(p))) == None
    ensures !p.authRmt ==> FirstMethod(InitiatorMethods(p), Items("None")) == Some(OPTION_NONE)
  {
    hide Items;
    ItemLists();
    FindOne();
  }

  lemma FindOne()
    ensures FindMethod([OPTION_NONE], "None") == Some(OPTION_NONE) && FindMethod([OPTION_NONE], "CHAP") == None
    ensures FindMethod([METHOD_CHAP], "None") == None
    ensures FindMethod([METHOD_CHAP, OPTION_NONE], "None") == Some(OPTION_NONE)
    ensures FirstMethod([OPTION_NONE], ["None"]) == Some(OPTION_NONE) && FirstMethod([OPTION_NONE], ["CHAP"]) == None
    ensures FirstMethod([OPTION_NONE], ["CHAP", "None"]) == Some(OPTION_NONE) && FirstMethod([METHOD_CHAP], ["None"]) == None
    ensures FirstMethod([METHOD_CHAP, OPTION_NONE], ["None"]) == Some(OPTION_NONE)
  {
    assert [METHOD_CHAP, OPTION_NONE][1..] == [OPTION_NONE];
    assert ["CHAP", "None"][1..] == ["None"] && ["None"][1..] == [] && ["CHAP"][1..] == [];
    assert "CHAP" != "None";
  }

  // ---------- one message each way ----------

  const NothingToProve := Flow(Authenticate, LocalDone, RmtDone, Pass, false)

  lemma SettlesOn(c: Acl, key: CString)
    requires c.flow == Fresh.(phase := Negotiate) && c.recv.Value(AuthMethod) == Some(key)
    ensures var m := Negotiated(Some(key), FirstMethod(c.cfg.validMethods, Items(key)));
            var n := NegotiateMethod(c);
            && n == c.(neg := c.neg.(authMethod := m), recv := c.recv.Seen(AuthMethod), send := n.send, flow := n.flow)
            && n.send == (if c.negRole == Responder then c.send.Set(AuthMethod, MethodKey([m])) else c.send)
            && (m in {OPTION_REJECT, OPTION_NONE} && !c.cfg.authRmt ==> n.flow == NothingToProve)
            && (m in {OPTION_REJECT, OPTION_NONE} && c.cfg.authRmt ==> n.flow.phase == PhaseDone && n.flow.rmtAuthStatus == Fail)
  {
    hide FirstMethod, Items, MethodKey, Block.Set;
    ChosenPresent(c.cfg.validMethods, Items(key));
  }

  lemma {:induction false} FindIn(methods: seq<int>, item: CString)
    ensures FindMethod(methods, item).Some? ==> MethodText(FindMethod(methods, item).value).Some?
  {
    if methods != [] {
      FindIn(methods[1..], item);
    }
  }

  lemma {:induction false} ChosenPresent(methods: seq<int>, items: seq<CString>)
    ensures FirstMethod(methods, items).Some? ==> FirstMethod(methods, items).value != OPTION_NOT_PRESENT
  {
    if items != [] {
      FindIn(methods, items[0]);
      ChosenPresent(methods, items[1..]);
    }
  }

  /** The target's half. */
  lemma TargetSettles(h: Digest, b: Acl, p: Side, q: Side, s: Session, o: Oracle)
    requires b.flow == Fresh.(phase := Negotiate) && b.cfg.nodeType == Target && b.negRole == Responder
    requires b.cfg.authRmt == q.authRmt && b.cfg.validMethods == TargetMethods(q)
    requires b.recv.values == map[AuthMethod := Offer(p)] && b.recv.processed == {} && b.send == EmptyBlock
    requires !q.authRmt || (p.passwd.None? && !p.authRmt)
    ensures var a := Worked(h, b, s, o);
            && a.cfg == b.cfg && a.recv.transitBit == b.recv.transitBit
            && (q.authRmt ==> a.flow.phase == PhaseDone && a.flow.rmtAuthStatus == Fail)
            && (!q.authRmt ==> a.flow == NothingToProve && Clean(a))
            && (!q.authRmt && !p.authRmt ==> a.neg.authMethod == OPTION_NONE && a.send.values == map[AuthMethod := "None"])
  {
    hide Items, FirstMethod, NegotiateMethod, ChapStep, MethodKey;
    OnlyNone();
    Choices(p);
    SettlesOn(b.(recvEndCount := b.recvEndCount + 1), Offer(p));
  }

  /** The initiator's half, when the target answers None. */
  lemma InitiatorSettles(h: Digest, b: Acl, p: Side, s: Session, o: Oracle)
    requires b.flow == Fresh.(phase := Negotiate) && b.cfg.nodeType == Initiator && b.negRole == Originator
    requires !b.cfg.authRmt && !p.authRmt && b.cfg.validMethods == InitiatorMethods(p)
    requires b.recv.values == map[AuthMethod := "None"] && b.recv.processed == {} && b.send == EmptyBlock
    ensures var a := Worked(h, b, s, o);
            && a.cfg == b.cfg && a.recv.transitBit == b.recv.transitBit && a.transitBitSent == b.transitBitSent
            && a.flow == NothingToProve && Clean(a) && a.neg.authMethod == OPTION_NONE
  {
    hide Items, FirstMethod, NegotiateMethod, MethodKey, LocalAlg, LocalChallenge, RmtChallenge, RmtResponse;
    Choices(p);
    SettlesOn(b.(recvEndCount := b.recvEndCount + 1), "None");
  }

  lemma WaitsOn(h: Digest, b: Acl, s: Session, o: Oracle)
    requires Whole(b) && b.cfg.nodeType == Target && !b.recv.transitBit
    requires var a := Worked(h, b, s, o);
             a.flow == NothingToProve && a.cfg == b.cfg && a.recv.transitBit == b.recv.transitBit
    ensures RecvEnd(h, b, s, o).status != Pass
  {
    hide Advanced, SuppressedKeys;
    var a := Worked(h, b, s, o);
    assert HandShake(a).flow == a.flow;
  }

  /** Without a target that asks for authentication, or with an initiator that neither asks
      for it nor has a secret, nothing is proved: both sides end in PASS with the method
      None after one message each way, if and only if neither asks for authentication. */
  lemma NoneComposition(h: Digest, p: Side, q: Side, sI: Session, sT: Session, oI: Oracle, oT: Oracle)
    requires Acceptable(p) && Acceptable(q) && (!q.authRmt || (p.passwd.None? && !p.authRmt))
    ensures var i0, t0 := Run(h, Init(Initiator), ConfigOps(p)), Run(h, Init(Target), ConfigOps(q));
            var t1 := Deliver(h, i0, t0, sT, oT);
            var i1 := Deliver(h, t1.acl, i0, sI, oI);
            && (t1.status == Pass && i1.status == Pass <==> !p.authRmt && !q.authRmt)
            && (!p.authRmt && !q.authRmt ==> t1.acl.neg.authMethod == i1.acl.neg.authMethod == OPTION_NONE)
  {
    hide Run, ConfigOps, ValidAlgList, Take, RecvEnd, Worked, InitiatorMethods, TargetMethods;
    var i0, t0 := Run(h, Init(Initiator), ConfigOps(p)), Run(h, Init(Target), ConfigOps(q));
    InitiatorReady(h, p);
    TargetReady(h, q);
    assert Modest(i0);
    TakeFacts(t0, i0);
    var b := Take(t0, i0);
    TargetSettles(h, b, p, q, sT, oT);
    if q.authRmt {
      EndsInFail(h, b, sT, oT);
    } else if p.authRmt {
      WaitsOn(h, b, sT, oT);
    } else {
      EndsInPass(h, b, sT, oT);
      var t1 := Deliver(h, i0, t0, sT, oT).acl;
      assert Modest(t1);
      TakeFacts(i0, t1);
      InitiatorSettles(h, Take(i0, t1), p, sI, oI);
      EndsInPass(h, Take(i0, t1), sI, oI);
    }
  }
}
