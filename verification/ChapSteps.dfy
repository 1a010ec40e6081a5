/** What one received message does to the authentication machine: the facts from which
    the properties of whole runs follow. */
module ChapSteps {
  import opened CText
  import opened Codec
  import opened KeyBlocks
  import opened Chap

  /** The digest sizes of MD5 (5), SHA1 (6), SHA-256 (7) and SHA3-256 (8). */
  function DigestBytes(alg: int): nat {
    match alg case 5 => 16 case 6 => 20 case 7 => 32 case 8 => 32 case _ => 0
  }

  lemma Algorithms(alg: int)
    ensures RealAlg(alg) <==> alg in {5, 6, 7, 8}
    ensures DigestLen(alg) == DigestBytes(alg)
  {
  }

  /** The algorithm is one this side configured, and the challenge and response lengths
      are those of its digest. */
  predicate AgreedAlg(cfg: Config, neg: Terms) {
    RealAlg(neg.chapAlg) && neg.chapAlg in cfg.algList && neg.challengeLen == DigestLen(neg.chapAlg)
  }

  predicate Agreed(c: Acl) { AgreedAlg(c.cfg, c.neg) }

  /** The two halves of the machine move in lock step; `sent` is the length of the
      challenge this side sent. */
  predicate InStep(cfg: Config, flow: Flow, neg: Terms, sent: nat) {
    var l := flow.localState;
    match flow.rmtState
    case RmtSendAlg => l == LocalSendAlg && neg.authMethod == METHOD_CHAP
    case RmtSendChallenge => l == LocalRecvAlg && cfg.nodeType == Initiator && neg.authMethod == METHOD_CHAP
    case RmtRecvRsp =>
      && neg.authMethod == METHOD_CHAP
      && l == (if cfg.nodeType == Initiator then LocalDone else LocalRecvChallenge)
      && AgreedAlg(cfg, neg) && sent == neg.challengeLen
    case RmtDone => l == LocalDone || (cfg.nodeType == Target && l == LocalRecvChallenge)
    case _ => false
  }

  predicate LockStep(c: Acl) { InStep(c.cfg, c.flow, c.neg, |c.sendChallenge|) }

  /** The keys a message may carry in this state. */
  function LocalKeys(c: Acl): set<Key> {
    match c.flow.localState
    case LocalSendAlg => if c.cfg.nodeType == Initiator then {} else {ChapAlg}
    case LocalRecvAlg => {ChapAlg, ChapIdentifier, ChapChallenge}
    case LocalRecvChallenge => {ChapIdentifier, ChapChallenge}
    case _ => {}
  }

  function RmtKeys(c: Acl): set<Key> {
    if c.flow.rmtState == RmtRecvRsp then {ChapRsp, ChapUsername} else {}
  }

  function ExpectedKeys(c: Acl): set<Key> {
    if c.flow.phase == Negotiate then
      if c.cfg.nodeType == Target && c.negRole == Originator then {AuthMethod, ChapAlg} else {AuthMethod}
    else if c.flow.phase == Authenticate then LocalKeys(c) + RmtKeys(c)
    else {}
  }

  /** The message in `c` carries the digest of the identifier and the challenge this side
      sent and of the expected secret, under the expected user name. */
  predicate ProvesPeer(h: Digest, c: Acl, s: Session) {
    && RealAlg(c.neg.chapAlg)
    && c.recv.Value(ChapUsername) == Some(s.usernameIn)
    && s.usernameIn != "" && s.passwordIn != []
    && TextToData(c.recv.Value(ChapRsp), STR_MAX_LEN)
       == Some(h(c.neg.chapAlg, [c.sendId] + s.passwordIn + c.sendChallenge))
  }

  /** The response one client computes to another's challenge, and the other's check of it,
      agree: a client with a secret, of at least twelve bytes unless IPsec protects the
      session, answers; the answer is accepted exactly if it comes under the expected name
      and the expected secret gives the same digest.  A secret that begins with a zero byte
      is never accepted. */
  lemma ResponseVerifies(h: Digest, a: Acl, b: Acl, s: Session)
    requires a.neg.chapAlg == b.neg.chapAlg && Agreed(b)
    ensures var alg, id, challenge := b.neg.chapAlg, b.sendId, b.sendChallenge;
            var rsp := OwnResponse(h, a, false, id, challenge, true);
            && (rsp.Some? <==> a.cfg.passwd.Some? && (a.cfg.ipSec || |a.cfg.passwd.value| >= 12))
            && (rsp.Some? ==>
                  (PeerVerified(h, b, s, a.cfg.username, rsp.value, true) <==>
                   && s.usernameIn != "" && a.cfg.username == s.usernameIn
                   && s.passwordIn != [] && s.passwordIn[0] != 0
                   && h(alg, [id] + s.passwordIn + challenge) == h(alg, [id] + a.cfg.passwd.value + challenge)))
  {
  }

  /** The identifier and the challenge drawn in this call are in the send block, unless
      setting them failed and the block says so. */
  predicate Challenges(c: Acl, o: Oracle) {
    && c.sendId == o.id && c.sendChallenge == Draw(c.neg.challengeLen, o.challenge)
    && (c.send.Defective() ||
        (c.send.Value(ChapIdentifier) == Some(Decimal(o.id)) && ChapChallenge in c.send.values))
  }

  /** What the work on a message leaves alone. */
  predicate SameMessage(c: Acl, d: Acl) {
    && d.live == c.live && d.cfg == c.cfg && d.recvInProgress == c.recvInProgress
    && d.recvEndCount == c.recvEndCount && d.transitBitSent == c.transitBitSent
    && (c.flow.phase != Negotiate ==> d.neg.authMethod == c.neg.authMethod)
    && d.flow.rmtAuthStatus in {c.flow.rmtAuthStatus, Pass, Fail}
    && d.recvChallenge == c.recvChallenge
    && d.recv.values == c.recv.values && d.recv.transitBit == c.recv.transitBit
  }

  lemma LocalChallengeFacts(h: Digest, c: Acl, o: Oracle)
    ensures var d := LocalChallenge(h, c, o);
            && SameMessage(c, d) && d.neg == c.neg && d.sendId == c.sendId && d.sendChallenge == c.sendChallenge
            && d.negRole == c.negRole
            && d.recv.processed == c.recv.processed + {ChapIdentifier, ChapChallenge}
            && (d.flow.localState == LocalDone || d.flow.localState == LocalError)
            && d.flow == c.flow.(localState := d.flow.localState)
  {
    hide ResponseTo, ResponseText;
  }

  lemma CheckAlgFacts(c: Acl)
    ensures var d := CheckAlg(c);
            && SameMessage(c, d) && d.sendId == c.sendId && d.sendChallenge == c.sendChallenge
            && d.negRole == c.negRole && d.flow == c.flow && d.send == c.send
            && d.recv.processed == c.recv.processed + {ChapAlg}
            && (RealAlg(d.neg.chapAlg) ==> Agreed(d))
  {
    hide ItemsOf;
  }

  lemma LocalAlgFacts(h: Digest, c: Acl, o: Oracle)
    ensures var d := LocalAlg(h, c, o);
            && SameMessage(c, d) && d.sendId == c.sendId && d.sendChallenge == c.sendChallenge
            && d.negRole == c.negRole
            && d.recv.processed <= c.recv.processed +
                 (if c.cfg.nodeType == Target then {ChapAlg} else {ChapAlg, ChapIdentifier, ChapChallenge})
            && d.flow == c.flow.(localState := d.flow.localState)
            && (d.flow.localState == LocalError ||
                (Agreed(d) && d.flow.localState == (if c.cfg.nodeType == Target then LocalRecvChallenge else LocalDone)))
  {
    hide LocalChallenge, AlgKey, CheckAlg;
    CheckAlgFacts(c);
    LocalChallengeFacts(h, CheckAlg(c), o);
  }

  lemma LocalAuthFacts(h: Digest, c: Acl, o: Oracle)
    requires LockStep(c)
    ensures var d := LocalAuth(h, c, o);
            && SameMessage(c, d) && d.sendId == c.sendId && d.sendChallenge == c.sendChallenge
            && d.negRole == c.negRole
            && d.recv.processed <= c.recv.processed + LocalKeys(c)
            && d.flow == c.flow.(localState := d.flow.localState)
            && (c.flow.localState == LocalDone ==> d == c)
            && (c.flow.rmtState == RmtRecvRsp || c.flow.rmtState == RmtDone ==>
                  d.neg == c.neg && d.flow.localState in {LocalDone, LocalError})
            && (c.flow.rmtState == RmtSendAlg && c.cfg.nodeType == Initiator ==>
                  d.flow.localState == LocalRecvAlg)
            && (c.flow.rmtState == RmtSendAlg && c.cfg.nodeType == Target ==>
                  d.flow.localState == LocalError || (d.flow.localState == LocalRecvChallenge && Agreed(d)))
            && (c.flow.rmtState == RmtSendChallenge ==>
                  d.flow.localState == LocalError || (d.flow.localState == LocalDone && Agreed(d)))
  {
    hide LocalChallenge, LocalAlg, AlgKey;
    if c.flow.localState == LocalRecvChallenge {
      LocalChallengeFacts(h, c, o);
    } else if c.flow.localState == LocalRecvAlg || c.flow.localState == LocalSendAlg {
      LocalAlgFacts(h, c, o);
    }
  }

  lemma RmtChallengeFacts(c: Acl, o: Oracle)
    ensures var d := RmtChallenge(c, o);
            && SameMessage(c, d) && d.neg == c.neg && d.negRole == c.negRole && d.recv == c.recv
            && d.flow == c.flow.(rmtState := d.flow.rmtState, rmtAuthStatus := d.flow.rmtAuthStatus)
            && (d.flow.rmtState == RmtError || d.flow.rmtState == (if c.cfg.authRmt then RmtRecvRsp else RmtDone))
            && (d.flow.rmtState == RmtRecvRsp ==> Challenges(d, o) && |d.sendChallenge| == d.neg.challengeLen)
            && (c.cfg.authRmt ==> d.flow.rmtAuthStatus == c.flow.rmtAuthStatus)
  {
    hide Decimal;
  }

  lemma RmtResponseFacts(h: Digest, c: Acl, s: Session, o: Oracle)
    ensures var d := RmtResponse(h, c, s, o);
            && SameMessage(c, d) && d.neg == c.neg && d.negRole == c.negRole
            && d.sendId == c.sendId && d.sendChallenge == c.sendChallenge
            && d.recv.processed == c.recv.processed + {ChapRsp, ChapUsername}
            && d.flow.phase == c.flow.phase && d.flow.localState == c.flow.localState
            && (d.flow.rmtState == RmtError || (d.flow.rmtState == RmtDone && d.flow.authRspFlag))
            && (d.flow.rmtState == RmtDone && d.flow.rmtAuthStatus == Pass ==> ProvesPeer(h, c, s))
  {
    hide OwnResponse, TextToData;
  }

  lemma RmtAuthFacts(h: Digest, c: Acl, s: Session, o: Oracle)
    requires c.flow.rmtState != RmtUnset && c.flow.rmtState != RmtError
    ensures var d := RmtAuth(h, c, s, o);
            && SameMessage(c, d) && d.neg == c.neg && d.negRole == c.negRole
            && d.recv.processed <= c.recv.processed + RmtKeys(c)
            && d.flow.phase == c.flow.phase && d.flow.localState == c.flow.localState
            && (c.flow.rmtState == RmtDone ==> d == c)
            && (c.flow.rmtState == RmtSendAlg && c.cfg.nodeType == Initiator ==> d == c.WithRmt(RmtSendChallenge))
            && ((c.flow.rmtState == RmtSendAlg && c.cfg.nodeType == Target) || c.flow.rmtState == RmtSendChallenge ==>
                  d == RmtChallenge(c, o))
            && (c.flow.rmtState == RmtRecvRsp ==> d == RmtResponse(h, c, s, o))
  {
    hide RmtChallenge, RmtResponse;
    RmtChallengeFacts(c, o);
    RmtResponseFacts(h, c, s, o);
  }

  lemma ChapStepKeeps(h: Digest, c: Acl, s: Session, o: Oracle)
    requires c.flow.phase == Authenticate && LockStep(c)
    ensures var d := ChapStep(h, c, s, o);
            && SameMessage(c, d) && d.negRole == c.negRole
            && d.recv.processed <= c.recv.processed + LocalKeys(c) + RmtKeys(c)
            && (d.flow.phase == PhaseDone ==> d.flow.rmtAuthStatus == Fail)
            && (c.flow.rmtState in {RmtRecvRsp, RmtDone} ==>
                  && d.neg == c.neg && d.sendId == c.sendId && d.sendChallenge == c.sendChallenge
                  && d.flow.rmtState in {RmtDone, c.flow.rmtState, RmtError})
  {
    hide LocalAuth, RmtAuth, RmtChallenge, RmtResponse, Challenges, TextToData;
    LocalAuthFacts(h, c, o);
    var l := LocalAuth(h, c, o);
    if l.flow.localState != LocalError {
      RmtAuthFacts(h, l, s, o);
      RmtResponseFacts(h, l, s, o);
    }
  }

  /** The remote half moves with the local half. */
  lemma RmtMoves(h: Digest, c: Acl, l: Acl, s: Session, o: Oracle)
    requires c.flow.phase == Authenticate && LockStep(c) && l == LocalAuth(h, c, o) && l.flow.localState != LocalError
    ensures var r := RmtAuth(h, l, s, o);
            && r.flow.phase == Authenticate && r.flow.rmtState != RmtSendAlg
            && (r.flow.rmtState == RmtError || LockStep(r))
            && (r.flow.rmtState == RmtRecvRsp ==> Challenges(r, o))
  {
    hide LocalAuth, RmtAuth, RmtChallenge, RmtResponse, Challenges, ProvesPeer, TextToData, LocalKeys, RmtKeys;
    LocalAuthFacts(h, c, o);
    RmtAuthFacts(h, l, s, o);
    RmtChallengeFacts(l, o);
    RmtResponseFacts(h, l, s, o);
  }

  lemma ChapStepMoves(h: Digest, c: Acl, s: Session, o: Oracle)
    requires c.flow.phase == Authenticate && LockStep(c)
    ensures var d := ChapStep(h, c, s, o);
            && (d.flow.phase == PhaseDone || (d.flow.phase == Authenticate && LockStep(d)))
            && (d.flow.phase == Authenticate ==> d.flow.rmtState != RmtSendAlg)
            && (c.cfg.nodeType == Initiator && d.flow.rmtState == RmtRecvRsp ==> d.flow.phase == Authenticate)
            && (d.flow.phase == Authenticate && d.flow.rmtState == RmtRecvRsp ==> Challenges(d, o))
  {
    hide LocalAuth, RmtAuth, Challenges, SameMessage, LocalKeys;
    LocalAuthFacts(h, c, o);
    var l := LocalAuth(h, c, o);
    if l.flow.localState != LocalError {
      RmtMoves(h, c, l, s, o);
    }
  }

  lemma ChapStepProves(h: Digest, c: Acl, s: Session, o: Oracle)
    requires c.flow.phase == Authenticate && LockStep(c)
    ensures var d := ChapStep(h, c, s, o);
            c.cfg.authRmt && d.flow.rmtAuthStatus == Pass ==>
              || (d.flow.authRspFlag == c.flow.authRspFlag && c.flow.rmtAuthStatus == Pass)
              || (c.flow.rmtState == RmtRecvRsp && d.flow.authRspFlag && ProvesPeer(h, c, s))
  {
    hide LocalAuth, RmtAuth, RmtChallenge, RmtResponse, Challenges, TextToData, LocalKeys, RmtKeys;
    LocalAuthFacts(h, c, o);
    var l := LocalAuth(h, c, o);
    if l.flow.localState != LocalError {
      RmtAuthFacts(h, l, s, o);
      RmtChallengeFacts(l, o);
      RmtResponseFacts(h, l, s, o);
    }
  }

  /** One step of the CHAP exchange keeps the lock step, or ends the exchange. */
  lemma ChapStepFacts(h: Digest, c: Acl, s: Session, o: Oracle)
    requires c.flow.phase == Authenticate && LockStep(c)
    ensures var d := ChapStep(h, c, s, o);
            && SameMessage(c, d) && d.negRole == c.negRole
            && d.recv.processed <= c.recv.processed + LocalKeys(c) + RmtKeys(c)
            && (d.flow.phase == PhaseDone ==> d.flow.rmtAuthStatus == Fail)
            && (d.flow.phase == PhaseDone || (d.flow.phase == Authenticate && LockStep(d)))
            && (c.flow.rmtState in {RmtRecvRsp, RmtDone} ==>
                  && d.neg == c.neg && d.sendId == c.sendId && d.sendChallenge == c.sendChallenge
                  && d.flow.rmtState in {RmtDone, c.flow.rmtState, RmtError})
            && (d.flow.phase == Authenticate ==> d.flow.rmtState != RmtSendAlg)
            && (c.cfg.nodeType == Initiator && d.flow.rmtState == RmtRecvRsp ==> d.flow.phase == Authenticate)
            && (d.flow.phase == Authenticate && d.flow.rmtState == RmtRecvRsp ==> Challenges(d, o))
            && (c.cfg.authRmt && d.flow.rmtAuthStatus == Pass ==>
                  || (d.flow.authRspFlag == c.flow.authRspFlag && c.flow.rmtAuthStatus == Pass)
                  || (c.flow.rmtState == RmtRecvRsp && d.flow.authRspFlag && ProvesPeer(h, c, s)))
  {
    hide ChapStep, SameMessage, LockStep, Challenges, ProvesPeer;
    ChapStepKeeps(h, c, s, o);
    ChapStepMoves(h, c, s, o);
    ChapStepProves(h, c, s, o);
  }

  lemma NegotiateFacts(c: Acl)
    requires c.flow.phase == Negotiate
    ensures var d := NegotiateMethod(c);
            && SameMessage(c, d) && d.sendId == c.sendId && d.sendChallenge == c.sendChallenge
            && d.neg.chapAlg == c.neg.chapAlg && d.neg.challengeLen == c.neg.challengeLen
            && d.recv.processed == c.recv.processed + {AuthMethod}
            && d.flow.authRspFlag == c.flow.authRspFlag
            && (d.flow.phase == Negotiate ==> d.flow == c.flow)
            && (d.flow.phase == Authenticate ==>
                  LockStep(d) && ((d.flow.rmtState == RmtDone && d.flow.localState == LocalDone) || d.flow.rmtState == RmtSendAlg))
            && d.flow.phase in {Negotiate, Authenticate, PhaseDone}
            && (d.flow.phase == PhaseDone ==> d.flow.rmtAuthStatus == Fail && d.flow.rmtState in {RmtDone, c.flow.rmtState})
            && (c.cfg.authRmt && d.flow.rmtAuthStatus == Pass ==> c.flow.rmtAuthStatus == Pass)
            && (c.negRole == Originator ==> d.negRole == Originator)
  {
    hide MethodKey, FirstMethod, ItemsOf;
  }

  /** What the work of the phase may do to a client in step. */
  ghost predicate AdvanceOf(h: Digest, c: Acl, s: Session, o: Oracle, d: Acl) {
    && SameMessage(c, d) && (c.negRole == Originator ==> d.negRole == Originator)
    && d.recv.processed <= c.recv.processed + ExpectedKeys(c)
    && d.flow.phase in {Negotiate, Authenticate, PhaseDone}
    && (d.flow.phase == Negotiate ==> d.flow == c.flow)
    && (c.flow.phase == PhaseDone ==> d == c)
    && (d.flow.phase == PhaseDone ==> d == c || d.flow.rmtAuthStatus == Fail)
    && (d.flow.phase == Authenticate ==>
          LockStep(d) && (c.cfg.nodeType == Initiator ==> d.flow.rmtState != RmtSendAlg))
    && (d.flow.phase == Authenticate && d.flow.rmtState == RmtRecvRsp ==> Challenges(d, o))
    && (c.cfg.nodeType == Initiator && d.flow.rmtState == RmtRecvRsp ==> LockStep(d))
    && (c.flow.rmtState in {RmtRecvRsp, RmtDone} ==>
          && d.neg == c.neg && d.sendId == c.sendId && d.sendChallenge == c.sendChallenge
          && (d.flow.rmtState in {RmtRecvRsp, RmtDone} || d.flow.phase == PhaseDone))
    && (c.cfg.authRmt && d.flow.rmtAuthStatus == Pass ==>
          || (d.flow.authRspFlag == c.flow.authRspFlag && c.flow.rmtAuthStatus == Pass)
          || (c.flow.phase == Authenticate && c.flow.rmtState == RmtRecvRsp && d.flow.authRspFlag && ProvesPeer(h, c, s)))
  }

  lemma AdvancedFacts(h: Digest, c: Acl, s: Session, o: Oracle)
    requires c.flow.phase in {Negotiate, Authenticate, PhaseDone}
    requires c.flow.phase == Negotiate ==> c.flow.rmtState == RmtUnset
    requires c.flow.phase == Authenticate ==> LockStep(c)
    requires c.cfg.nodeType == Initiator && c.flow.rmtState == RmtRecvRsp ==> LockStep(c)
    ensures AdvanceOf(h, c, s, o, Advanced(h, c, s, o))
  {
    hide NegotiateMethod, ChapStep, Challenges, TextToData;
    if c.flow.phase == Negotiate {
      NegotiateFacts(c);
      var n := NegotiateMethod(c);
      if n.flow.phase == Authenticate {
        ChapStepFacts(h, n, s, o);
      }
    } else if c.flow.phase == Authenticate {
      ChapStepFacts(h, c, s, o);
    }
  }
}
