/** Properties of every sequence of calls on an authentication client. */
module ChapRuns {
  import opened CText
  import opened Codec
  import opened KeyBlocks
  import opened Chap
  import opened ChapSteps
  import opened ChapInvariant

  /** The client after the first `i` calls of a run. */
  function At(h: Digest, n: NodeType, ops: seq<Op>, i: nat): Acl
    requires i <= |ops|
  {
    Run(h, Init(n), ops[..i])
  }

  lemma RunLast(h: Digest, n: NodeType, ops: seq<Op>)
    requires ops != []
    ensures Run(h, Init(n), ops) == Step(h, At(h, n, ops, |ops| - 1), ops[|ops| - 1]).acl
  {
    hide Step, Init;
  }

  lemma AtIsRun(h: Digest, n: NodeType, ops: seq<Op>, i: nat)
    requires i <= |ops|
    ensures At(h, n, ops, i) == Run(h, Init(n), ops[..i])
  {
  }

  lemma AtPrefix(h: Digest, n: NodeType, ops: seq<Op>, k: nat, i: nat)
    requires i <= k <= |ops|
    ensures At(h, n, ops[..k], i) == At(h, n, ops, i)
  {
    hide Run, Init;
    assert ops[..k][..i] == ops[..i];
  }

  lemma {:induction false} RunInv(h: Digest, n: NodeType, ops: seq<Op>)
    ensures Inv(Run(h, Init(n), ops)) && Run(h, Init(n), ops).cfg.nodeType == n
  {
    if ops == [] {
      InitInv(n);
    } else {
      hide Step, Inv;
      var k := |ops| - 1;
      RunInv(h, n, ops[..k]);
      var c := Run(h, Init(n), ops[..k]);
      StepKeepsInv(h, c, ops[k]);
      StepKeepsType(h, c, ops[k]);
    }
  }

  lemma InitInv(n: NodeType)
    ensures Inv(Init(n)) && Init(n).cfg.nodeType == n && Init(n).live
    ensures var c := Init(n); c.flow.phase == Configure && c.flow.rmtAuthStatus == NoError && c.recvEndCount == 0
  {
    hide KeepMethods, MethodKey, KeyBlocks.Block.Set;
  }

  lemma StepKeepsType(h: Digest, c: Acl, op: Op)
    requires Inv(c)
    ensures Step(h, c, op).acl.cfg.nodeType == c.cfg.nodeType
  {
    hide RecvEnd;
    if !op.End? {
      hide Step;
      QuietStep(h, c, op);
    } else if c.recvInProgress && c.flow.phase != PhaseError {
      EndFacts(h, c, op.session, op.oracle);
    } else {
      IdleEnd(h, c, op.session, op.oracle);
    }
  }

  /** Call `j` of the run sent the peer this identifier and this challenge, both drawn
      from the random generator in that call. */
  ghost predicate SentAt(h: Digest, n: NodeType, ops: seq<Op>, j: nat, id: byte, challenge: seq<byte>) {
    && j < |ops| && ops[j].End?
    && id == ops[j].oracle.id && challenge == Draw(|challenge|, ops[j].oracle.challenge)
    && var r := Step(h, At(h, n, ops, j), ops[j]);
       && r.status == Continue
       && Outgoing(r.acl, ChapIdentifier) == Some(Decimal(id))
       && Outgoing(r.acl, ChapChallenge) == Some(HexText(challenge))
  }

  /** The message completed by call `i` proves that the peer knows the expected secret. */
  ghost predicate ProvedAt(h: Digest, n: NodeType, ops: seq<Op>, i: nat) {
    && i < |ops| && ops[i].End?
    && AwaitingResponse(At(h, n, ops, i)) && ProvesPeer(h, At(h, n, ops, i), ops[i].session)
  }

  lemma EndSends(h: Digest, c: Acl, op: Op)
    requires Inv(c) && c.live && op.End? && AwaitingResponse(Step(h, c, op).acl)
    ensures var r := Step(h, c, op);
            && r.status == Continue && r.acl.sendId == op.oracle.id
            && r.acl.sendChallenge == Draw(|r.acl.sendChallenge|, op.oracle.challenge)
            && Outgoing(r.acl, ChapIdentifier) == Some(Decimal(op.oracle.id))
            && Outgoing(r.acl, ChapChallenge) == Some(HexText(r.acl.sendChallenge))
  {
    hide RecvEnd, Decimal, HexText, Draw;
    if c.recvInProgress && c.flow.phase != PhaseError {
      EndSecrets(h, c, op.session, op.oracle);
    } else {
      IdleEnd(h, c, op.session, op.oracle);
    }
  }

  lemma EndProves(h: Digest, c: Acl, op: Op)
    requires Inv(c) && op.End?
    ensures var d := Step(h, c, op).acl;
            && d.cfg == c.cfg
            && (c.cfg.authRmt && d.flow.rmtAuthStatus == Pass && c.flow.rmtAuthStatus != Pass ==>
                  AwaitingResponse(c) && ProvesPeer(h, c, op.session))
  {
    hide RecvEnd, ProvesPeer;
    if c.recvInProgress && c.flow.phase != PhaseError {
      EndSecrets(h, c, op.session, op.oracle);
      EndFacts(h, c, op.session, op.oracle);
    } else {
      IdleEnd(h, c, op.session, op.oracle);
    }
  }

  /** A side that awaits a response has sent the challenge it will check it against. */
  lemma {:induction false} ChallengeWasSent(h: Digest, n: NodeType, ops: seq<Op>) returns (j: nat)
    requires AwaitingResponse(Run(h, Init(n), ops))
    ensures var c := Run(h, Init(n), ops);
            SentAt(h, n, ops, j, c.sendId, c.sendChallenge)
  {
    hide Init, Step;
    if ops == [] {
      InitInv(n);
      assert false;
    }
    RunLast(h, n, ops);
    hide Step, Init, Run, At, Decimal, HexText, Draw, Outgoing, Inv;
    var k := |ops| - 1;
    var c := At(h, n, ops, k);
    AtIsRun(h, n, ops, k);
    RunInv(h, n, ops[..k]);
    if ops[k].End? && c.live {
      EndSends(h, c, ops[k]);
      j := k;
    } else {
      if ops[k].End? { DeadStep(h, c, ops[k]); } else { QuietStep(h, c, ops[k]); }
      j := ChallengeWasSent(h, n, ops[..k]);
      AtPrefix(h, n, ops, k, j);
    }
  }

  lemma DeadStep(h: Digest, c: Acl, op: Op)
    requires !c.live
    ensures Step(h, c, op) == Result(c, Error)
  {
  }

  /** A side that has accepted its peer has been shown the peer's secret. */
  lemma {:induction false} PeerWasProved(h: Digest, n: NodeType, ops: seq<Op>) returns (i: nat)
    requires var c := Run(h, Init(n), ops); c.cfg.authRmt && c.flow.rmtAuthStatus == Pass
    ensures ProvedAt(h, n, ops, i)
  {
    hide Init, Step;
    if ops == [] {
      InitInv(n);
      assert false;
    }
    RunLast(h, n, ops);
    hide Step, Init, Run, At, ProvesPeer, Inv;
    var k := |ops| - 1;
    var c := At(h, n, ops, k);
    AtIsRun(h, n, ops, k);
    RunInv(h, n, ops[..k]);
    if ops[k].End? { EndProves(h, c, ops[k]); } else { QuietStep(h, c, ops[k]); }
    if c.flow.rmtAuthStatus == Pass {
      i := PeerWasProved(h, n, ops[..k]);
      AtPrefix(h, n, ops, k, i);
    } else {
      i := k;
    }
  }

  /** Authentication soundness.  Whatever calls are made and whatever the peer sends, an
      exchange that has to authenticate the peer ends in PASS only if CHAP was
      negotiated and, in this very run, this side sent an identifier and a challenge it
      drew at random and later received, under the expected user name, the digest of
      that identifier, the expected secret and that challenge. */
  lemma AuthenticationSoundness(h: Digest, n: NodeType, ops: seq<Op>)
    requires ops != []
    requires At(h, n, ops, |ops| - 1).cfg.authRmt
    requires Step(h, At(h, n, ops, |ops| - 1), ops[|ops| - 1]).status == Pass
    ensures Run(h, Init(n), ops).neg.authMethod == METHOD_CHAP
    ensures exists i, j | 0 <= j < i < |ops| ::
              ProvedAt(h, n, ops, i) && SentAt(h, n, ops, j, At(h, n, ops, i).sendId, At(h, n, ops, i).sendChallenge)
  {
    RunLast(h, n, ops);
    hide Step, Init, Run, At, SentAt, ProvesPeer, Inv;
    var k := |ops| - 1;
    var c := At(h, n, ops, k);
    AtIsRun(h, n, ops, k);
    RunInv(h, n, ops[..k]);
    RunInv(h, n, ops);
    PassMeansAccepted(h, c, ops[k]);
    var i := PeerWasProved(h, n, ops);
    AtIsRun(h, n, ops, i);
    var j := ChallengeWasSent(h, n, ops[..i]);
    SentEarlier(h, n, ops, i, j, At(h, n, ops, i).sendId, At(h, n, ops, i).sendChallenge);
  }

  lemma SentEarlier(h: Digest, n: NodeType, ops: seq<Op>, i: nat, j: nat, id: byte, challenge: seq<byte>)
    requires i <= |ops| && SentAt(h, n, ops[..i], j, id, challenge)
    ensures SentAt(h, n, ops, j, id, challenge)
  {
    hide Step, Init, Run, At, Outgoing, Draw, Decimal, HexText;
    AtPrefix(h, n, ops, i, j);
  }

  lemma PassMeansAccepted(h: Digest, c: Acl, op: Op)
    requires Inv(c) && Step(h, c, op).status == Pass
    ensures op.End? && c.live && c.recvInProgress && c.flow.phase != PhaseError
    ensures c.cfg.nodeType == Initiator ==> c.recv.transitBit && c.transitBitSent
    ensures var d := Step(h, c, op).acl;
            d.cfg == c.cfg && d.flow.rmtAuthStatus == Pass && d.flow.phase == PhaseDone
  {
    hide RecvEnd;
    if !op.End? {
      hide Step;
      QuietStep(h, c, op);
    } else if c.recvInProgress && c.flow.phase != PhaseError {
      EndFacts(h, c, op.session, op.oracle);
    } else {
      IdleEnd(h, c, op.session, op.oracle);
    }
  }

  // ---------- lock step ----------

  lemma {:induction false} RunAppend(h: Digest, c: Acl, ops: seq<Op>, more: seq<Op>)
    ensures Run(h, c, ops + more) == Run(h, Run(h, c, ops), more)
  {
    hide Step;
    if more == [] {
      assert ops + more == ops;
    } else {
      var k := |more| - 1;
      RunAppend(h, c, ops, more[..k]);
      assert (ops + more)[..|ops + more| - 1] == ops + more[..k];
    }
  }

  lemma SettledStep(h: Digest, c: Acl, op: Op)
    requires Inv(c) && Settled(c)
    ensures var d := Step(h, c, op).acl; Settled(d) && SameNonce(c, d)
  {
    hide RecvEnd, ExchangeInv;
    if !op.End? {
      hide Step;
      QuietStep(h, c, op);
    } else if c.recvInProgress && c.flow.phase != PhaseError {
      EndSecrets(h, c, op.session, op.oracle);
    } else {
      IdleEnd(h, c, op.session, op.oracle);
    }
  }

  lemma {:induction false} SettledRun(h: Digest, c: Acl, more: seq<Op>)
    requires Inv(c) && Settled(c)
    ensures var d := Run(h, c, more); Inv(d) && Settled(d) && SameNonce(c, d)
  {
    hide Step, Inv;
    if more != [] {
      var k := |more| - 1;
      SettledRun(h, c, more[..k]);
      var d := Run(h, c, more[..k]);
      StepKeepsInv(h, d, more[k]);
      SettledStep(h, d, more[k]);
    }
  }

  /** Initiator lock step.  Once the initiator awaits the target's response its own half
      is done, the algorithm is one it offered, the challenge has that algorithm's
      digest length, and algorithm, identifier and challenge are fixed for good. */
  lemma InitiatorLockStep(h: Digest, ops: seq<Op>, more: seq<Op>)
    requires Run(h, Init(Initiator), ops).flow.rmtState == RmtRecvRsp
    ensures var c := Run(h, Init(Initiator), ops);
            && c.flow.localState == LocalDone
            && c.neg.chapAlg in {5, 6, 7, 8} && c.neg.chapAlg in c.cfg.algList
            && c.neg.challengeLen == |c.sendChallenge| == DigestBytes(c.neg.chapAlg)
            && SameNonce(c, Run(h, Init(Initiator), ops + more))
  {
    hide Step, Init, Run;
    RunInv(h, Initiator, ops);
    Algorithms(Run(h, Init(Initiator), ops).neg.chapAlg);
    SettledRun(h, Run(h, Init(Initiator), ops), more);
    RunAppend(h, Init(Initiator), ops, more);
  }

  // ---------- phases ----------

  function Rank(phase: Phase): nat {
    match phase case Configure => 0 case Negotiate => 1 case Authenticate => 2 case PhaseDone => 3 case PhaseError => 4
  }

  lemma EndForward(h: Digest, c: Acl, s: Session, o: Oracle)
    requires Inv(c) && c.recvInProgress && c.flow.phase != PhaseError
    ensures Rank(c.flow.phase) <= Rank(RecvEnd(h, c, s, o).acl.flow.phase)
  {
    hide Screened, Advanced, HandShake, EndStatus, ProvesPeer, Challenges, ExpectedKeys;
    ScreenedFacts(h, c, s);
    AdvancedFacts(h, Screened(c), s, o);
    var a := Advanced(h, Screened(c), s, o);
    HandShakeFacts(a);
    EndStatusFacts(HandShake(a));
  }

  lemma StepForward(h: Digest, c: Acl, op: Op)
    requires Inv(c)
    ensures Rank(c.flow.phase) <= Rank(Step(h, c, op).acl.flow.phase)
  {
    hide RecvEnd, ExchangeInv;
    if !op.End? {
      hide Step;
      QuietStep(h, c, op);
    } else if c.recvInProgress && c.flow.phase != PhaseError {
      EndForward(h, c, op.session, op.oracle);
    } else {
      IdleEnd(h, c, op.session, op.oracle);
    }
  }

  /** The phases of an exchange are passed in their order, and none is ever come back to:
      configuration, negotiation, authentication, done, error. */
  lemma {:induction false} PhasesForward(h: Digest, n: NodeType, ops: seq<Op>, more: seq<Op>)
    ensures Rank(Run(h, Init(n), ops).flow.phase) <= Rank(Run(h, Init(n), ops + more).flow.phase)
    decreases |more|
  {
    hide Step, Init, Inv, Rank;
    if more == [] {
      assert ops + more == ops;
    } else {
      var k := |more| - 1;
      PhasesForward(h, n, ops, more[..k]);
      RunInv(h, n, ops + more[..k]);
      assert (ops + more)[..|ops + more| - 1] == ops + more[..k];
      StepForward(h, Run(h, Init(n), ops + more[..k]), more[k]);
    }
  }

  // ---------- the transit bit ----------

  /** A message is in progress since its acl_recv_begin, which recorded whether this
      side's own preceding message had the transit bit. */
  lemma {:induction false} ProgressBegan(h: Digest, n: NodeType, ops: seq<Op>) returns (j: nat)
    requires var c := Run(h, Init(n), ops); c.live && c.recvInProgress && c.flow.phase != PhaseError
    ensures j < |ops| && ops[j] == Begin && (forall k :: j < k < |ops| ==> ops[k] != Begin)
    ensures Run(h, Init(n), ops).transitBitSent == At(h, n, ops, j).send.transitBit
  {
    hide Init, Step;
    if ops == [] {
      InitInv(n);
      assert false;
    }
    RunLast(h, n, ops);
    hide Step, Init, Run, At, Inv;
    var k := |ops| - 1;
    var c := At(h, n, ops, k);
    AtIsRun(h, n, ops, k);
    RunInv(h, n, ops[..k]);
    ProgressStep(h, c, ops[k]);
    if ops[k] == Begin {
      j := k;
    } else {
      j := ProgressBegan(h, n, ops[..k]);
      AtPrefix(h, n, ops, k, j);
      assert forall m :: j < m < k ==> ops[..k][m] == ops[m];
    }
  }

  lemma ProgressStep(h: Digest, c: Acl, op: Op)
    requires Inv(c)
    requires var d := Step(h, c, op).acl; d.live && d.recvInProgress && d.flow.phase != PhaseError
    ensures var d := Step(h, c, op).acl;
            && c.live && c.flow.phase != PhaseError
            && (if op.Begin? then d.transitBitSent == c.send.transitBit
                else c.recvInProgress && d.transitBitSent == c.transitBitSent)
  {
    hide RecvEnd;
    if op.End? && c.recvInProgress && c.flow.phase != PhaseError {
      EndFacts(h, c, op.session, op.oracle);
    } else if op.End? {
      IdleEnd(h, c, op.session, op.oracle);
    } else {
      QuietStep(h, c, op);
    }
  }

  /** Transit-bit handshake.  An initiator's PASS means the message just received had the
      transit bit, and so had the initiator's own message before it. */
  lemma TransitHandshake(h: Digest, ops: seq<Op>) returns (j: nat)
    requires ops != []
    requires Step(h, At(h, Initiator, ops, |ops| - 1), ops[|ops| - 1]).status == Pass
    ensures At(h, Initiator, ops, |ops| - 1).recv.transitBit
    ensures j < |ops| && ops[j] == Begin && (forall k :: j < k < |ops| ==> ops[k] != Begin)
    ensures At(h, Initiator, ops, j).send.transitBit
  {
    hide Init, Run, At, Inv, Step;
    var k := |ops| - 1;
    var c := At(h, Initiator, ops, k);
    AtIsRun(h, Initiator, ops, k);
    RunInv(h, Initiator, ops[..k]);
    PassMeansAccepted(h, c, ops[k]);
    j := ProgressBegan(h, Initiator, ops[..k]);
    AtPrefix(h, Initiator, ops, k, j);
    assert forall m :: j < m < k ==> ops[..k][m] == ops[m];
  }

  // ---------- termination ----------

  /** How many received messages the calls complete. */
  function Rounds(ops: seq<Op>): nat {
    if ops == [] then 0
    else Rounds(ops[..|ops| - 1]) + if ops[|ops| - 1].End? then 1 else 0
  }

  predicate Over(c: Acl) { c.flow.phase in {PhaseDone, PhaseError} }

  lemma CountedStep(h: Digest, c: Acl, op: Op)
    requires Inv(c) && c.live
    ensures var d := Step(h, c, op).acl;
            && (Over(c) ==> Over(d))
            && (!Over(d) ==> d.recvEndCount == c.recvEndCount + (if op.End? then 1 else 0))
            && (!Over(d) && op.End? ==> c.recvEndCount <= RECV_END_MAX_COUNT)
  {
    hide RecvEnd, ExchangeInv;
    if !op.End? {
      hide Step;
      QuietStep(h, c, op);
    } else if c.recvInProgress && c.flow.phase != PhaseError {
      EndFacts(h, c, op.session, op.oracle);
    } else {
      IdleEnd(h, c, op.session, op.oracle);
    }
  }

  lemma {:induction false} CountedRun(h: Digest, n: NodeType, ops: seq<Op>)
    ensures var c := Run(h, Init(n), ops);
            c.live && !Over(c) ==> c.recvEndCount == Rounds(ops) <= RECV_END_MAX_COUNT + 1
  {
    hide Init, Step, Inv;
    if ops == [] {
      InitInv(n);
    } else {
      var k := |ops| - 1;
      CountedRun(h, n, ops[..k]);
      RunInv(h, n, ops[..k]);
      var c := Run(h, Init(n), ops[..k]);
      if c.live { CountedStep(h, c, ops[k]); } else { DeadStep(h, c, ops[k]); }
    }
  }

  /** Every exchange is over, in DONE or in ERROR, by its twelfth received message. */
  lemma TwelveRounds(h: Digest, n: NodeType, ops: seq<Op>)
    requires Rounds(ops) >= 12 && Run(h, Init(n), ops).live
    ensures Over(Run(h, Init(n), ops))
  {
    hide Init, Run;
    CountedRun(h, n, ops);
  }

  /** ERROR is left only by acl_finish: every other call reports an error and stays. */
  lemma {:induction false} ErrorAbsorbs(h: Digest, c: Acl, more: seq<Op>, op: Op)
    requires c.flow.phase == PhaseError
    ensures Run(h, c, more).flow.phase == PhaseError
    ensures op != Finish ==> Step(h, Run(h, c, more), op).status == Error
  {
    hide Step;
    if more != [] {
      ErrorAbsorbs(h, c, more[..|more| - 1], op);
      ErrorStep(h, Run(h, c, more[..|more| - 1]), more[|more| - 1]);
    }
    ErrorStep(h, Run(h, c, more), op);
  }

  lemma ErrorStep(h: Digest, c: Acl, op: Op)
    requires c.flow.phase == PhaseError
    ensures Step(h, c, op).acl.flow.phase == PhaseError
    ensures op != Finish ==> Step(h, c, op).status == Error
  {
    hide Screened, Advanced, HandShake, EndStatus, SetMethodValid, TextToData, Outgoing, Block.Set, ValidAlgList;
  }

  // ---------- keys ----------

  /** Key discipline.  A message that is accepted carries no key outside the set its state
      fixes, and a message that fails makes an initiator send no key at all. */
  lemma KeyDiscipline(h: Digest, n: NodeType, ops: seq<Op>, s: Session, o: Oracle)
    ensures var c := Run(h, Init(n), ops); var r := RecvEnd(h, c, s, o);
            && (GoesOn(r.status) ==> c.recv.values.Keys <= ExpectedKeys(c))
            && (r.status == Fail && n == Initiator ==> r.acl.send == EmptyBlock)
  {
    hide Init, Run, RecvEnd, ExpectedKeys, Inv;
    RunInv(h, n, ops);
    var c := Run(h, Init(n), ops);
    if c.recvInProgress && c.flow.phase != PhaseError {
      EndFacts(h, c, s, o);
    } else {
      IdleEnd(h, c, s, o);
    }
  }

  /** What the sets are, for an initiator: AuthMethod; then the algorithm, identifier and
      challenge; then the response and name; then nothing. */
  lemma InitiatorKeys(h: Digest, ops: seq<Op>)
    ensures var c := Run(h, Init(Initiator), ops);
            && (c.flow.phase == Negotiate ==> ExpectedKeys(c) == {AuthMethod})
            && (c.flow.phase == Authenticate ==>
                  match c.flow.rmtState
                  case RmtSendChallenge => ExpectedKeys(c) == {ChapAlg, ChapIdentifier, ChapChallenge}
                  case RmtRecvRsp => ExpectedKeys(c) == {ChapRsp, ChapUsername}
                  case RmtDone => ExpectedKeys(c) == {}
                  case _ => false)
  {
    hide Init, Run;
    RunInv(h, Initiator, ops);
  }
}
