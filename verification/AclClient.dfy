/** struct iscsi_acl and the functions of usr/auth.c that update it, each proved to do
    what the transition function of module Chap says. */
module AclClients {
  import opened CText
  import opened Codec
  import opened CodecBuffers
  import opened KeyBlocks
  import opened KeyArenas
  import opened Chap
  import opened AclText

  /** The filter loop of acl_set_auth_method_valid. */
  method KeptMethods(methods: seq<int>, noNone: bool, onlyNone: bool) returns (kept: seq<int>)
    ensures kept == KeepMethods(methods, noNone, onlyNone)
  {
    hide KeepMethods;
    kept := [];
    assert methods[0..] == methods;
    assert [] + KeepMethods(methods, noNone, onlyNone) == KeepMethods(methods, noNone, onlyNone);
    for i := 0 to |methods|
      invariant kept + KeepMethods(methods[i..], noNone, onlyNone) == KeepMethods(methods, noNone, onlyNone)
    {
      KeepFrom(methods, i, noNone, onlyNone);
      if noNone {
        if methods[i] == OPTION_NONE { continue; }
      } else if onlyNone && methods[i] != OPTION_NONE {
        continue;
      }
      kept := kept + [methods[i]];
    }
    KeepNothing(methods[|methods|..], noNone, onlyNone);
  }

  lemma KeepNothing(methods: seq<int>, noNone: bool, onlyNone: bool)
    requires methods == []
    ensures KeepMethods(methods, noNone, onlyNone) == []
  {
  }

  lemma KeepFrom(methods: seq<int>, i: nat, noNone: bool, onlyNone: bool)
    requires i < |methods|
    ensures var dropped := (noNone && methods[i] == OPTION_NONE) || (!noNone && onlyNone && methods[i] != OPTION_NONE);
            KeepMethods(methods[i..], noNone, onlyNone)
            == (if dropped then [] else [methods[i]]) + KeepMethods(methods[i + 1..], noNone, onlyNone)
  {
    assert methods[i..][1..] == methods[i + 1..];
  }

  class AclClient {
    const h: Digest
    var live: bool
    var nodeType: NodeType
    var authMethodList: seq<int>
    var authMethodNegRole: Role
    var chapAlgList: seq<int>
    var authRmt: bool
    var username: CString
    var passwd: Option<seq<byte>>
    var ipSec: bool
    var authMethodValidList: seq<int>
    var authMethodValidNegRole: Role
    var recvInProgress: bool
    var recvEndCount: nat
    var phase: Phase
    var localState: LocalState
    var rmtState: RmtState
    var rmtAuthStatus: Status
    var negotiatedAuthMethod: int
    var negotiatedChapAlg: int
    var chapChallengeLen: nat
    var authRspFlag: bool
    var transitBitSent: bool
    var sendChapIdentifier: byte
    var sendChapChallenge: seq<byte>
    var recvChapChallengeOk: bool
    var recvChapChallengeLength: nat
    const recvChapBinary: array<byte>
    const recvKeyBlock: KeyArena
    const sendKeyBlock: KeyArena

    ghost predicate Valid()
      reads this, recvKeyBlock, sendKeyBlock, recvKeyBlock.strBlock, sendKeyBlock.strBlock
    {
      && recvKeyBlock.Valid() && sendKeyBlock.Valid()
      && recvKeyBlock != sendKeyBlock && recvKeyBlock.strBlock != sendKeyBlock.strBlock
      && recvChapBinary.Length == LARGE_BINARY_MAX_LEN && recvChapChallengeLength <= LARGE_BINARY_MAX_LEN
    }

    ghost function ConfigView(): Config
      reads this
    {
      Config(nodeType, authMethodList, authMethodNegRole, chapAlgList, authRmt, username, passwd, ipSec, authMethodValidList)
    }

    ghost function FlowView(): Flow
      reads this
    {
      Flow(phase, localState, rmtState, rmtAuthStatus, authRspFlag)
    }

    ghost function View(): Acl
      requires Valid()
      reads this, recvKeyBlock, sendKeyBlock, recvKeyBlock.strBlock, sendKeyBlock.strBlock, recvChapBinary
    {
      Acl(live, ConfigView(), authMethodValidNegRole, recvInProgress, recvEndCount, transitBitSent, FlowView(),
          Terms(negotiatedAuthMethod, negotiatedChapAlg, chapChallengeLen), sendChapIdentifier, sendChapChallenge,
          if recvChapChallengeOk then Some(recvChapBinary[..recvChapChallengeLength]) else None,
          recvKeyBlock.View(), sendKeyBlock.View())
    }

    /** acl_init */
    constructor (h: Digest, nodeType: NodeType)
      ensures Valid() && View() == Init(nodeType)
    {
      this.h := h;
      this.live, this.nodeType, this.authRmt, this.passwd, this.ipSec := true, nodeType, true, None, false;
      this.username, this.chapAlgList := "", [];
      phase, localState, rmtState, rmtAuthStatus := Configure, LocalUnset, RmtUnset, NoError;
      negotiatedAuthMethod, negotiatedChapAlg, chapChallengeLen := OPTION_NOT_PRESENT, OPTION_NOT_PRESENT, 0;
      authMethodNegRole := if nodeType == Initiator then Originator else Responder;
      authMethodList := [METHOD_CHAP, OPTION_NONE];
      authMethodValidList, authMethodValidNegRole := [], Responder;
      recvInProgress, recvEndCount, authRspFlag, transitBitSent := false, 0, false, false;
      sendChapIdentifier, sendChapChallenge := 0, [];
      recvChapChallengeOk, recvChapChallengeLength := true, 0;
      recvChapBinary := new byte[LARGE_BINARY_MAX_LEN](_ => 0);
      recvKeyBlock := new KeyArena();
      sendKeyBlock := new KeyArena();
      new;
      assert recvChapBinary[..0] == [];
      SetAuthMethodValid();
    }

    /** What the fields say of the view. */
    lemma Reads()
      requires Valid()
      ensures View().flow == FlowView() && View().cfg == ConfigView() && View().negRole == authMethodValidNegRole
      ensures View().neg == Terms(negotiatedAuthMethod, negotiatedChapAlg, chapChallengeLen)
      ensures View().live == live && View().recvInProgress == recvInProgress
      ensures View().recv.transitBit == recvKeyBlock.transitBit && View().send.transitBit == sendKeyBlock.transitBit
    {
    }

    // ---------- one change at a time ----------

    method Break() returns (status: Status)
      requires Valid()
      modifies `phase
      ensures Valid() && Result(View(), status) == Result(old(View()).Broken(), Error)
    {
      hide KeyArena.Valid, KeyArena.View, Claimed, Processed;
      phase := PhaseError;
      return Error;
    }

    method Refuse()
      requires Valid()
      modifies `phase, `rmtAuthStatus
      ensures Valid() && View() == old(View()).Failed()
    {
      hide KeyArena.Valid, KeyArena.View, Claimed, Processed;
      rmtAuthStatus, phase := Fail, PhaseDone;
    }

    method EnterLocal(l: LocalState)
      requires Valid()
      modifies `localState
      ensures Valid() && View() == old(View()).WithLocal(l)
    {
      hide KeyArena.Valid, KeyArena.View, Claimed, Processed;
      localState := l;
    }

    method EnterRmt(r: RmtState)
      requires Valid()
      modifies `rmtState
      ensures Valid() && View() == old(View()).WithRmt(r)
    {
      hide KeyArena.Valid, KeyArena.View, Claimed, Processed;
      rmtState := r;
    }

    method Look(k: Key) returns (text: Option<CString>)
      requires Valid()
      modifies recvKeyBlock
      ensures Valid() && text == old(View()).recv.Value(k)
      ensures var c := old(View()); View() == c.(recv := c.recv.Seen(k))
    {
      hide KeyArena.Valid, KeyArena.View, Claimed, Processed;
      text := recvKeyBlock.GetKeyVal(k);
    }

    method LookPair(k: Key, k': Key) returns (text: Option<CString>, text': Option<CString>)
      requires Valid()
      modifies recvKeyBlock
      ensures Valid() && text == old(View()).recv.Value(k) && text' == old(View()).recv.Value(k')
      ensures var c := old(View()); View() == c.(recv := c.recv.Seen(k).Seen(k'))
    {
      hide View, Valid;
      text := Look(k);
      text' := Look(k');
    }

    method Offer(k: Key, text: Option<CString>)
      requires Valid()
      modifies sendKeyBlock, sendKeyBlock.strBlock
      ensures Valid()
      ensures var c := old(View()); View() == c.(send := c.send.Set(k, text))
    {
      hide KeyArena.Valid, KeyArena.View, Claimed, Processed, Block.Set;
      sendKeyBlock.SetKeyValue(k, text);
    }

    method Restart(transit: bool, k: Key, text: Option<CString>)
      requires Valid()
      modifies sendKeyBlock, sendKeyBlock.strBlock
      ensures Valid() && View() == old(View()).(send := EmptyBlock.(transitBit := transit).Set(k, text))
    {
      hide KeyArena.Valid, KeyArena.View, Claimed, Processed, Block.Set;
      sendKeyBlock.Restart(transit, k, text);
    }

    method ClearSend()
      requires Valid()
      modifies sendKeyBlock
      ensures Valid() && View() == old(View()).(send := EmptyBlock)
    {
      hide KeyArena.Valid, KeyArena.View, Claimed, Processed;
      sendKeyBlock.Clear();
    }

    // ---------- configuration ----------

    method ChooseMethods()
      requires Valid()
      modifies `authMethodValidList, `authMethodValidNegRole
      ensures Valid()
      ensures var c := old(View());
              View() == c.(cfg := c.cfg.(validMethods := ValidMethods(c.cfg)), negRole := ValidRole(c.cfg))
    {
      hide View, Valid, KeepMethods;
      Reads();
      var kept := KeptMethods(authMethodList, authRmt, !authRmt && (nodeType == Target || passwd.None?));
      StoreMethods(kept, if nodeType == Target then Responder else if authRmt then Originator else authMethodNegRole);
    }

    method StoreMethods(methods: seq<int>, role: Role)
      requires Valid()
      modifies `authMethodValidList, `authMethodValidNegRole
      ensures Valid()
      ensures var c := old(View()); View() == c.(cfg := c.cfg.(validMethods := methods), negRole := role)
    {
      hide KeyArena.Valid, KeyArena.View, Claimed, Processed;
      authMethodValidList, authMethodValidNegRole := methods, role;
    }

    /** acl_set_auth_method_valid */
    method SetAuthMethodValid()
      requires Valid()
      modifies `authMethodValidList, `authMethodValidNegRole, sendKeyBlock, sendKeyBlock.strBlock
      ensures Valid() && View() == SetMethodValid(old(View()), old(View()).cfg)
    {
      hide View, Valid, ValidMethods, ValidRole, MethodKey, Block.Set;
      ChooseMethods();
      Reads();
      Restart(nodeType == Initiator && !authRmt, AuthMethod,
              if authMethodValidNegRole == Originator then MethodKey(authMethodValidList) else None);
    }

    /** acl_set_user_name */
    method SetUserName(name: Option<CString>) returns (status: Status)
      requires Valid()
      modifies `phase, `username
      ensures Valid() && Result(View(), status) == Step(h, old(View()), Op.SetUserName(name))
    {
      hide KeyArena.Valid, KeyArena.View, Claimed, Processed;
      if !live {
        return Error;
      }
      if phase != Configure || name.None? || |name.value| >= STR_MAX_LEN {
        status := Break();
        return;
      }
      username := name.value;
      return NoError;
    }

    method SetIpSec(on: bool) returns (status: Status)
      requires Valid()
      modifies `phase, `ipSec
      ensures Valid() && Result(View(), status) == Step(h, old(View()), Op.SetIpSec(on))
    {
      hide KeyArena.Valid, KeyArena.View, Claimed, Processed;
      if !live {
        return Error;
      }
      if phase != Configure {
        status := Break();
        return;
      }
      ipSec := on;
      return NoError;
    }

    method KeepPasswd(data: seq<byte>)
      requires Valid()
      modifies `passwd
      ensures Valid()
      ensures var c := old(View()); View() == c.(cfg := c.cfg.(passwd := Some(data)))
    {
      hide KeyArena.Valid, KeyArena.View, Claimed, Processed;
      passwd := Some(data);
    }

    /** acl_set_passwd */
    method SetPasswd(data: seq<byte>) returns (status: Status)
      requires Valid()
      modifies `phase, `passwd, `authMethodValidList, `authMethodValidNegRole, sendKeyBlock, sendKeyBlock.strBlock
      ensures Valid() && Result(View(), status) == Step(h, old(View()), Op.SetPasswd(data))
    {
      hide View, Valid, ValidMethods, ValidRole, MethodKey, Block.Set;
      Reads();
      if !live {
        return Error;
      }
      if phase != Configure || |data| > STR_MAX_LEN {
        status := Break();
        return;
      }
      KeepPasswd(data);
      SetAuthMethodValid();
      return NoError;
    }

    method KeepAuthRmt(on: bool)
      requires Valid()
      modifies `authRmt
      ensures Valid()
      ensures var c := old(View()); View() == c.(cfg := c.cfg.(authRmt := on))
    {
      hide KeyArena.Valid, KeyArena.View, Claimed, Processed;
      authRmt := on;
    }

    /** acl_set_auth_rmt */
    method SetAuthRmt(on: bool) returns (status: Status)
      requires Valid()
      modifies `phase, `authRmt, `authMethodValidList, `authMethodValidNegRole, sendKeyBlock, sendKeyBlock.strBlock
      ensures Valid() && Result(View(), status) == Step(h, old(View()), Op.SetAuthRmt(on))
    {
      hide View, Valid, ValidMethods, ValidRole, MethodKey, Block.Set;
      Reads();
      if !live {
        return Error;
      }
      if phase != Configure {
        status := Break();
        return;
      }
      KeepAuthRmt(on);
      SetAuthMethodValid();
      return NoError;
    }

    /** acl_set_chap_alg_list */
    method SetChapAlgList(algs: seq<int>) returns (status: Status)
      requires Valid()
      modifies `phase, `chapAlgList
      ensures Valid() && Result(View(), status) == Step(h, old(View()), Op.SetChapAlgList(algs))
    {
      hide KeyArena.Valid, KeyArena.View, Claimed, Processed, ValidAlgList;
      if !live {
        return Error;
      }
      var ok := CheckAlgList(algs);
      if phase != Configure || !ok {
        status := Break();
        return;
      }
      chapAlgList := algs;
      return NoError;
    }

    // ---------- the phases ----------

    /** acl_next_phase */
    method AdvancePhase()
      modifies `phase, `localState, `rmtState, `rmtAuthStatus
      ensures FlowView() == NextPhase(old(FlowView()), authRmt, negotiatedAuthMethod)
    {
      match phase
      case Configure => phase := Negotiate;
      case Negotiate =>
        phase := Authenticate;
        if negotiatedAuthMethod == OPTION_REJECT || negotiatedAuthMethod == OPTION_NOT_PRESENT
           || negotiatedAuthMethod == OPTION_NONE {
          localState, rmtState := LocalDone, RmtDone;
          if authRmt {
            rmtAuthStatus, phase := Fail, PhaseDone;
          } else {
            rmtAuthStatus := Pass;
          }
        } else if negotiatedAuthMethod == METHOD_CHAP {
          localState, rmtState := LocalSendAlg, RmtSendAlg;
        } else {
          localState, rmtState, rmtAuthStatus := LocalDone, RmtDone, Fail;
        }
      case Authenticate => phase := PhaseDone;
      case _ => phase := PhaseError;
    }

    /** acl_hand_shake: what it does to the flow, and whether it sets the transit bit */
    method Shake() returns (transit: bool)
      requires Valid()
      modifies `phase, `localState, `rmtState, `rmtAuthStatus
      ensures FlowView() == HandShakes(old(View())).flow && transit == HandShakes(old(View())).transit
    {
      hide NextPhase, KeyArena.Valid, Claimed, Processed;
      transit := false;
      if phase == PhaseDone {
        return;
      }
      if nodeType == Initiator && recvKeyBlock.transitBit && !transitBitSent {
        rmtAuthStatus, phase := Fail, PhaseDone;
        return;
      }
      if phase == Negotiate {
        transit := nodeType == Initiator;
        return;
      }
      if rmtState == RmtRecvRsp || rmtState == RmtDone {
        if nodeType == Initiator {
          if recvKeyBlock.transitBit {
            if rmtState != RmtDone {
              rmtAuthStatus, phase := Fail, PhaseDone;
            } else {
              AdvancePhase();
            }
          } else {
            transit := true;
          }
        } else if rmtState == RmtDone && rmtAuthStatus != Pass {
          AdvancePhase();
        } else if recvKeyBlock.transitBit {
          transit := true;
          AdvancePhase();
        }
      } else if nodeType == Initiator && recvKeyBlock.transitBit {
        rmtAuthStatus, phase := Fail, PhaseDone;
      }
    }

    method ShakeHands()
      requires Valid()
      modifies `phase, `localState, `rmtState, `rmtAuthStatus, sendKeyBlock
      ensures Valid() && View() == HandShake(old(View()))
    {
      hide View, Valid, HandShakes;
      var transit := ShakeFlow();
      if transit {
        SetSentTransit();
      }
    }

    method ShakeFlow() returns (transit: bool)
      requires Valid()
      modifies `phase, `localState, `rmtState, `rmtAuthStatus
      ensures Valid() && transit == HandShakes(old(View())).transit
      ensures View() == old(View()).(flow := HandShakes(old(View())).flow)
    {
      hide KeyArena.Valid, KeyArena.View, Claimed, Processed, HandShakes;
      transit := Shake();
    }

    method SetSentTransit()
      requires Valid()
      modifies sendKeyBlock
      ensures Valid()
      ensures var c := old(View()); View() == c.(send := c.send.(transitBit := true))
    {
      hide KeyArena.Valid, KeyArena.View, Claimed, Processed;
      sendKeyBlock.SetTransitBit(true);
    }

    /** acl_chap_compute_rsp */
    method ComputeRsp(rmtAuth: bool, id: byte, challenge: seq<byte>, hashOk: bool) returns (rsp: Option<seq<byte>>)
      requires Valid()
      ensures rsp == OwnResponse(h, View(), rmtAuth, id, challenge, hashOk)
    {
      hide KeyArena.Valid, KeyArena.View, Claimed, Processed;
      if passwd.None? {
        return None;
      }
      if !hashOk || !RealAlg(negotiatedChapAlg) {
        return None;
      }
      if !rmtAuth && !ipSec && |passwd.value| < 12 {
        return None;
      }
      return Some(h(negotiatedChapAlg, [id] + passwd.value + challenge));
    }

    /** acl_chap_auth_request */
    method AuthRequest(s: Session, name: CString, rsp: seq<byte>, hashOk: bool) returns (ok: bool)
      requires Valid()
      ensures ok == PeerVerified(h, View(), s, name, rsp, hashOk)
    {
      hide KeyArena.Valid, KeyArena.View, Claimed, Processed;
      if s.usernameIn == "" {
        return false;
      }
      if name != s.usernameIn {
        return false;
      }
      if |s.passwordIn| < 1 || s.passwordIn[0] == 0 {
        return false;
      }
      if |rsp| != chapChallengeLen {
        return false;
      }
      if !hashOk || !RealAlg(negotiatedChapAlg) {
        return false;
      }
      return rsp == h(negotiatedChapAlg, [sendChapIdentifier] + s.passwordIn + sendChapChallenge);
    }

    /** acl_chk_auth_method_key */
    method CheckAuthMethodKey()
      requires Valid()
      modifies `negotiatedAuthMethod, recvKeyBlock
      ensures Valid() && View() == CheckMethod(old(View()))
    {
      hide View, Valid, FirstMethod, Items;
      var key := Look(AuthMethod);
      Reads();
      if key.None? {
        AgreeMethod(OPTION_NOT_PRESENT);
        return;
      }
      var chosen := ChooseMethod(key.value, authMethodValidList);
      AgreeMethod(if chosen.Some? then chosen.value else OPTION_REJECT);
    }

    method AgreeMethod(m: int)
      requires Valid()
      modifies `negotiatedAuthMethod
      ensures Valid()
      ensures var c := old(View()); View() == c.(neg := c.neg.(authMethod := m))
    {
      hide KeyArena.Valid, KeyArena.View, Claimed, Processed;
      negotiatedAuthMethod := m;
    }

    /** acl_chk_chap_alg_key */
    method CheckChapAlgKey()
      requires Valid()
      modifies `negotiatedChapAlg, `chapChallengeLen, recvKeyBlock
      ensures Valid() && View() == CheckAlg(old(View()))
    {
      hide View, Valid, FirstAlg, Items;
      var key := Look(ChapAlg);
      Reads();
      if key.None? {
        AgreeAlg(OPTION_NOT_PRESENT);
        return;
      }
      var chosen := ChooseAlg(key.value, chapAlgList);
      AgreeAlg(if chosen.Some? then chosen.value else OPTION_REJECT);
    }

    method AgreeAlg(alg: int)
      requires Valid()
      modifies `negotiatedChapAlg, `chapChallengeLen
      ensures Valid()
      ensures var c := old(View());
              View() == c.(neg := c.neg.(chapAlg := alg,
                                         challengeLen := if RealAlg(alg) then DigestLen(alg) else c.neg.challengeLen))
    {
      hide KeyArena.Valid, KeyArena.View, Claimed, Processed;
      negotiatedChapAlg := alg;
      if RealAlg(alg) {
        chapChallengeLen := DigestLen(alg);
      }
    }

    /** acl_local_auth */
    method LocalAuthenticate(o: Oracle)
      requires Valid()
      modifies `phase, `localState, `negotiatedChapAlg, `chapChallengeLen, recvKeyBlock, sendKeyBlock, sendKeyBlock.strBlock
      ensures Valid() && View() == LocalAuth(h, old(View()), o)
    {
      hide View, Valid, LocalAlg, LocalChallenge, Block.Set, AlgKey;
      Reads();
      if localState == LocalSendAlg && nodeType == Initiator {
        Offer(ChapAlg, AlgKey(chapAlgList));
        EnterLocal(LocalRecvAlg);
      } else if localState == LocalSendAlg || localState == LocalRecvAlg {
        ReceiveAlg(o);
      } else if localState == LocalRecvChallenge {
        AnswerChallenge(o);
      } else if localState != LocalDone {
        var _ := Break();
      }
    }

    method ReceiveAlg(o: Oracle)
      requires Valid()
      modifies `localState, `negotiatedChapAlg, `chapChallengeLen, recvKeyBlock, sendKeyBlock, sendKeyBlock.strBlock
      ensures Valid() && View() == LocalAlg(h, old(View()), o)
    {
      hide View, Valid, FirstAlg, Items, LocalChallenge, Block.Set, AlgKey, RealAlg;
      CheckChapAlgKey();
      Reads();
      if nodeType == Target {
        Offer(ChapAlg, AlgKey([negotiatedChapAlg]));
        EnterLocal(if RealAlg(negotiatedChapAlg) then LocalRecvChallenge else LocalError);
      } else if !RealAlg(negotiatedChapAlg) {
        EnterLocal(LocalError);
      } else {
        AnswerChallenge(o);
      }
    }

    method AnswerChallenge(o: Oracle)
      requires Valid()
      modifies `localState, recvKeyBlock, sendKeyBlock, sendKeyBlock.strBlock
      ensures Valid() && View() == LocalChallenge(h, old(View()), o)
    {
      hide View, Valid, Block.Set, ResponseText, ResponseTo;
      var silent, rsp := ReadChallenge(o);
      if rsp.Some? {
        OfferResponse(rsp.value);
      }
      EnterLocal(if silent || rsp.Some? then LocalDone else LocalError);
    }

    method ReadChallenge(o: Oracle) returns (silent: bool, rsp: Option<seq<byte>>)
      requires Valid()
      modifies recvKeyBlock
      ensures Valid()
      ensures var c := old(View());
              var idKey, challengeKey := c.recv.Value(ChapIdentifier), c.recv.Value(ChapChallenge);
              && View() == c.(recv := c.recv.Seen(ChapIdentifier).Seen(ChapChallenge))
              && silent == (c.cfg.nodeType == Target && idKey.None? && challengeKey.None?)
              && rsp == if idKey.Some? && challengeKey.Some? then ResponseTo(h, c, idKey.value, o) else None
    {
      hide View, Valid, ResponseTo, Block.Value, Block.Seen;
      Reads();
      var idKey, challengeKey := LookPair(ChapIdentifier, ChapChallenge);
      silent, rsp := nodeType == Target && idKey.None? && challengeKey.None?, None;
      if idKey.Some? && challengeKey.Some? {
        rsp := RespondTo(idKey.value, o);
        SameResponse(h, old(View()), View(), idKey.value, o);
      }
    }

    method OfferResponse(rsp: seq<byte>)
      requires Valid()
      modifies sendKeyBlock, sendKeyBlock.strBlock
      ensures Valid()
      ensures var c := old(View());
              View() == c.(send := c.send.Set(ChapRsp, Some(ResponseText(rsp))).Set(ChapUsername, Some(c.cfg.username)))
    {
      hide View, Valid, Block.Set, ResponseText;
      Reads();
      var text := ResponseTextOf(rsp);
      Offer(ChapRsp, Some(text));
      Offer(ChapUsername, Some(username));
    }

    method RespondTo(idText: CString, o: Oracle) returns (rsp: Option<seq<byte>>)
      requires Valid()
      ensures rsp == ResponseTo(h, View(), idText, o)
    {
      hide KeyArena.Valid, KeyArena.View, Claimed, Processed, OwnResponse, TextToNumber;
      var id := TextToNumber(idText);
      if id.None? || 255 < id.value {
        return None;
      }
      if !recvChapChallengeOk {
        return None;
      }
      var challenge := recvChapBinary[..recvChapChallengeLength];
      if nodeType == Target && challenge == sendChapChallenge {
        return None;
      }
      rsp := ComputeRsp(false, id.value, challenge, o.localHashOk);
    }

    /** acl_rmt_auth */
    method RmtAuthenticate(s: Session, o: Oracle)
      requires Valid()
      modifies `phase, `rmtState, `rmtAuthStatus, `authRspFlag, `sendChapIdentifier, `sendChapChallenge
      modifies recvKeyBlock, sendKeyBlock, sendKeyBlock.strBlock
      ensures Valid() && View() == RmtAuth(h, old(View()), s, o)
    {
      hide View, Valid, RmtChallenge, RmtResponse;
      Reads();
      if rmtState == RmtSendAlg && nodeType == Initiator {
        EnterRmt(RmtSendChallenge);
      } else if rmtState == RmtSendAlg || rmtState == RmtSendChallenge {
        SendChallenge(o);
      } else if rmtState == RmtRecvRsp {
        ReceiveResponse(s, o);
      } else if rmtState != RmtDone {
        var _ := Break();
      }
    }

    method SendChallenge(o: Oracle)
      requires Valid()
      modifies `rmtState, `rmtAuthStatus, `sendChapIdentifier, `sendChapChallenge, sendKeyBlock, sendKeyBlock.strBlock
      ensures Valid() && View() == RmtChallenge(old(View()), o)
    {
      hide View, Valid, Block.Set, Decimal, Draw;
      Reads();
      if !authRmt {
        Trust();
      } else if !o.idOk {
        EnterRmt(RmtError);
      } else {
        Challenge(o.id, Draw(chapChallengeLen, o.challenge));
        Offer(ChapIdentifier, Some(Decimal(o.id)));
        if o.challengeOk {
          Offer(ChapChallenge, Some(""));
        }
        EnterRmt(if o.challengeOk then RmtRecvRsp else RmtError);
      }
    }

    method Trust()
      requires Valid()
      modifies `rmtState, `rmtAuthStatus
      ensures Valid()
      ensures var c := old(View()); View() == c.(flow := c.flow.(rmtAuthStatus := Pass, rmtState := RmtDone))
    {
      hide KeyArena.Valid, KeyArena.View, Claimed, Processed;
      rmtAuthStatus, rmtState := Pass, RmtDone;
    }

    method Challenge(id: byte, challenge: seq<byte>)
      requires Valid()
      modifies `sendChapIdentifier, `sendChapChallenge
      ensures Valid() && View() == old(View()).(sendId := id, sendChallenge := challenge)
    {
      hide KeyArena.Valid, KeyArena.View, Claimed, Processed;
      sendChapIdentifier, sendChapChallenge := id, challenge;
    }

    method ReceiveResponse(s: Session, o: Oracle)
      requires Valid()
      modifies `rmtState, `rmtAuthStatus, `authRspFlag, recvKeyBlock
      ensures Valid() && View() == RmtResponse(h, old(View()), s, o)
    {
      hide View, Valid, ResponseFlow;
      var rspKey, usernameKey := LookPair(ChapRsp, ChapUsername);
      SameFlow(h, old(View()), View(), s, o, rspKey, usernameKey);
      VerifyResponse(s, o, rspKey, usernameKey);
    }

    method VerifyResponse(s: Session, o: Oracle, rspKey: Option<CString>, usernameKey: Option<CString>)
      requires Valid()
      modifies `rmtState, `rmtAuthStatus, `authRspFlag
      ensures Valid()
      ensures View() == old(View()).(flow := ResponseFlow(h, old(View()), s, o, rspKey, usernameKey))
    {
      hide KeyArena.Valid, KeyArena.View, Claimed, Processed, ResponseFlow;
      VerifyFlow(s, o, rspKey, usernameKey);
    }

    method VerifyFlow(s: Session, o: Oracle, rspKey: Option<CString>, usernameKey: Option<CString>)
      requires Valid()
      modifies `rmtState, `rmtAuthStatus, `authRspFlag
      ensures FlowView() == ResponseFlow(h, old(View()), s, o, rspKey, usernameKey)
    {
      hide KeyArena.Valid, KeyArena.View, Claimed, Processed, TextToData, OwnResponse, PeerVerified;
      var rsp := Decoded(rspKey);
      if usernameKey.None? || rsp.None? {
        rmtState := RmtError;
        return;
      }
      var own := ComputeRsp(true, sendChapIdentifier, sendChapChallenge, o.ownHashOk);
      if |rsp.value| == chapChallengeLen && own == rsp {
        rmtState := RmtError;
        return;
      }
      var ok := AuthRequest(s, usernameKey.value, rsp.value, o.verifyHashOk);
      rmtAuthStatus := if ok then Pass else Fail;
      authRspFlag := true;
      rmtState := RmtDone;
    }

    // ---------- the end of a message ----------

    /** acl_rcv_end_status: all incoming keys have been looked at */
    method AllProcessed() returns (ok: bool)
      requires Valid()
      ensures ok == !View().recv.HasUnprocessed()
    {
      for i := 0 to 6
        invariant forall k :: SlotOf(k) < i ==> (recvKeyBlock.slots[SlotOf(k)].present ==> recvKeyBlock.slots[SlotOf(k)].processed)
      {
        if recvKeyBlock.slots[i].present && !recvKeyBlock.slots[i].processed {
          ghost var k := KeyOf(i).value;
          assert SlotOf(k) == i;
          assert k in recvKeyBlock.texts && k !in Processed(recvKeyBlock.slots);
          return false;
        }
      }
      return true;
    }

    method Judge() returns (status: Status)
      requires Valid()
      modifies `phase, `rmtAuthStatus
      ensures Valid() && status == EndStatus(old(View())).status
      ensures View() == old(View()).(flow := EndStatus(old(View())).acl.flow)
    {
      hide KeyArena.Valid, KeyArena.View, Claimed, Processed, EndStatus;
      status := JudgeFlow();
    }

    /** acl_rcv_end_status: the verdict and what becomes of the flow */
    method JudgeFlow() returns (status: Status)
      requires Valid()
      modifies `phase, `rmtAuthStatus
      ensures status == EndStatus(old(View())).status && FlowView() == EndStatus(old(View())).acl.flow
    {
      hide KeyArena.Valid, Claimed, Processed, Block.HasUnprocessed, SuppressedKeys;
      if phase == PhaseError {
        return Error;
      }
      if phase == PhaseDone {
        if authRmt && !authRspFlag && rmtAuthStatus == Pass {
          rmtAuthStatus := Fail;
        }
        status := rmtAuthStatus;
      } else {
        status := Continue;
      }
      if status == Continue || status == Pass {
        var processed := AllProcessed();
        if sendKeyBlock.dupSet || sendKeyBlock.strTooLong || sendKeyBlock.tooMuchData || !processed {
          rmtAuthStatus, phase, status := Fail, PhaseDone, Fail;
        }
      }
    }

    /** acl_rcv_end_status */
    method EndStatusOf() returns (status: Status)
      requires Valid()
      modifies `phase, `rmtAuthStatus, `recvInProgress, sendKeyBlock, sendKeyBlock.strBlock
      ensures Valid() && Result(View(), status) == EndStatus(old(View()))
    {
      hide View, Valid, SuppressedKeys, EndStatus;
      EndStatusShape(View());
      Reads();
      var broken := phase == PhaseError;
      status := Judge();
      if !broken {
        CloseMessage();
        if status != Pass && status != Continue {
          SameSuppressed(old(View()), View());
          SuppressKeys();
        }
      }
    }

    method CloseMessage()
      requires Valid()
      modifies `recvInProgress
      ensures Valid() && View() == old(View()).(recvInProgress := false)
    {
      hide KeyArena.Valid, KeyArena.View, Claimed, Processed;
      recvInProgress := false;
    }

    method SuppressKeys()
      requires Valid()
      modifies sendKeyBlock, sendKeyBlock.strBlock
      ensures Valid() && View() == old(View()).(send := SuppressedKeys(old(View())))
    {
      hide View, Valid, Block.Set;
      Reads();
      var method_ := Offered(AuthMethod);
      var alg := Offered(ChapAlg);
      if nodeType == Target && method_ && negotiatedAuthMethod == OPTION_REJECT {
        Restart(false, AuthMethod, Some("Reject"));
      } else if nodeType == Target && !method_ && alg && negotiatedChapAlg == OPTION_REJECT {
        Restart(false, ChapAlg, Some("Reject"));
      } else {
        ClearSend();
      }
    }

    method Offered(k: Key) returns (present: bool)
      requires Valid()
      ensures present == (k in View().send.values)
    {
      hide KeyArena.Valid, KeyArena.View, Claimed, Processed;
      present := sendKeyBlock.Has(k);
    }

    /** acl_recv_end: the checks on the message as a whole */
    method Screen()
      requires Valid()
      modifies `recvEndCount, `phase, `rmtAuthStatus
      ensures Valid() && View() == Screened(old(View()))
    {
      hide View, Valid;
      var tooMany := CountMessage();
      var defective := ReceivedDefective();
      if tooMany || defective {
        Refuse();
      }
    }

    method CountMessage() returns (tooMany: bool)
      requires Valid()
      modifies `recvEndCount
      ensures Valid() && tooMany == (old(View()).recvEndCount > RECV_END_MAX_COUNT)
      ensures View() == old(View()).(recvEndCount := old(View()).recvEndCount + 1)
    {
      hide KeyArena.Valid, KeyArena.View, Claimed, Processed;
      tooMany := recvEndCount > RECV_END_MAX_COUNT;
      recvEndCount := recvEndCount + 1;
    }

    method ReceivedDefective() returns (bad: bool)
      requires Valid()
      ensures bad == View().recv.Defective()
    {
      hide KeyArena.Valid, Claimed, Processed;
      bad := recvKeyBlock.dupSet || recvKeyBlock.strTooLong || recvKeyBlock.tooMuchData;
    }

    /** acl_recv_end: the AuthMethod negotiation */
    method NegotiateAuthMethod()
      requires Valid()
      modifies `phase, `localState, `rmtState, `rmtAuthStatus, `negotiatedAuthMethod, `authMethodValidNegRole
      modifies recvKeyBlock, sendKeyBlock, sendKeyBlock.strBlock
      ensures Valid() && View() == NegotiateMethod(old(View()))
    {
      hide View, Valid, FirstMethod, Items, MethodKey, NextPhase, Block.Set;
      CheckAuthMethodKey();
      Reads();
      if authMethodValidNegRole == Responder {
        if negotiatedAuthMethod == OPTION_NOT_PRESENT {
          if authRmt || !recvKeyBlock.transitBit {
            TakeOver();
            Offer(AuthMethod, MethodKey(authMethodValidList));
          } else {
            NextPhaseStep();
          }
        } else {
          Offer(AuthMethod, MethodKey([negotiatedAuthMethod]));
          NextPhaseStep();
        }
      } else if negotiatedAuthMethod == OPTION_NOT_PRESENT {
        Refuse();
      } else {
        NextPhaseStep();
      }
    }

    method TakeOver()
      requires Valid()
      modifies `authMethodValidNegRole
      ensures Valid() && View() == old(View()).(negRole := Originator)
    {
      hide KeyArena.Valid, KeyArena.View, Claimed, Processed;
      authMethodValidNegRole := Originator;
    }

    method NextPhaseStep()
      requires Valid()
      modifies `phase, `localState, `rmtState, `rmtAuthStatus
      ensures Valid()
      ensures var c := old(View()); View() == c.(flow := NextPhase(c.flow, c.cfg.authRmt, c.neg.authMethod))
    {
      hide KeyArena.Valid, KeyArena.View, Claimed, Processed, NextPhase;
      AdvancePhase();
    }

    /** acl_recv_end: the CHAP exchange */
    method ChapExchange(s: Session, o: Oracle)
      requires Valid()
      modifies `phase, `localState, `rmtState, `rmtAuthStatus, `authRspFlag, `negotiatedChapAlg, `chapChallengeLen
      modifies `sendChapIdentifier, `sendChapChallenge, recvKeyBlock, sendKeyBlock, sendKeyBlock.strBlock
      ensures Valid() && View() == ChapStep(h, old(View()), s, o)
    {
      hide View, Valid, LocalAuth, RmtAuth;
      LocalAuthenticate(o);
      Reads();
      if localState == LocalError {
        Refuse();
        return;
      }
      RmtAuthenticate(s, o);
      Reads();
      if rmtState == RmtError {
        Refuse();
      }
    }

    /** acl_recv_end: the work of the phase */
    method Advance(s: Session, o: Oracle)
      requires Valid()
      modifies `phase, `localState, `rmtState, `rmtAuthStatus, `authRspFlag, `negotiatedChapAlg, `chapChallengeLen
      modifies `negotiatedAuthMethod, `authMethodValidNegRole
      modifies `sendChapIdentifier, `sendChapChallenge, recvKeyBlock, sendKeyBlock, sendKeyBlock.strBlock
      ensures Valid() && View() == Advanced(h, old(View()), s, o)
    {
      hide View, Valid, NegotiateMethod, ChapStep;
      Reads();
      if phase == Negotiate {
        var goesOn := nodeType == Initiator || authMethodValidNegRole == Originator;
        NegotiateAuthMethod();
        Reads();
        if phase == Authenticate && goesOn {
          ChapExchange(s, o);
        }
      } else if phase == Authenticate {
        ChapExchange(s, o);
      }
    }

    // ---------- the exchange ----------

    method OpenMessage()
      requires Valid()
      modifies `phase, `recvInProgress, `transitBitSent, recvKeyBlock, sendKeyBlock
      ensures Valid()
      ensures var c := old(View());
              View() == c.(flow := if c.flow.phase == Configure then c.flow.(phase := Negotiate) else c.flow,
                           recvInProgress := true, transitBitSent := c.send.transitBit,
                           recv := EmptyBlock, send := EmptyBlock)
    {
      hide View, Valid;
      Reads();
      StartMessage(sendKeyBlock.transitBit);
      ClearRecv();
      ClearSend();
    }

    method StartMessage(transit: bool)
      requires Valid()
      modifies `phase, `recvInProgress, `transitBitSent
      ensures Valid()
      ensures var c := old(View());
              View() == c.(flow := if c.flow.phase == Configure then c.flow.(phase := Negotiate) else c.flow,
                           recvInProgress := true, transitBitSent := transit)
    {
      hide KeyArena.Valid, KeyArena.View, Claimed, Processed;
      if phase == Configure {
        phase := Negotiate;
      }
      recvInProgress, transitBitSent := true, transit;
    }

    method ClearRecv()
      requires Valid()
      modifies recvKeyBlock
      ensures Valid() && View() == old(View()).(recv := EmptyBlock)
    {
      hide KeyArena.Valid, KeyArena.View, Claimed, Processed;
      recvKeyBlock.Clear();
    }

    /** acl_recv_begin */
    method RecvBegin() returns (status: Status)
      requires Valid()
      modifies `phase, `recvInProgress, `transitBitSent, recvKeyBlock, sendKeyBlock
      ensures Valid() && Result(View(), status) == Step(h, old(View()), Op.Begin)
    {
      hide View, Valid;
      Reads();
      if !live || phase == PhaseError {
        return Error;
      }
      if phase == PhaseDone || recvInProgress {
        status := Break();
        return;
      }
      OpenMessage();
      return NoError;
    }

    method Receive(k: Key, text: Option<CString>)
      requires Valid()
      modifies recvKeyBlock, recvKeyBlock.strBlock
      ensures Valid()
      ensures var c := old(View()); View() == c.(recv := c.recv.Set(k, text))
    {
      hide KeyArena.Valid, KeyArena.View, Claimed, Processed, Block.Set;
      recvKeyBlock.SetKeyValue(k, text);
    }

    method StoreChallenge(text: Option<CString>)
      requires Valid()
      modifies `recvChapChallengeOk, `recvChapChallengeLength, recvChapBinary
      ensures Valid() && View() == old(View()).(recvChallenge := TextToData(text, LARGE_BINARY_MAX_LEN))
    {
      hide KeyArena.Valid, KeyArena.View, Claimed, Processed, TextToData;
      var len := TextToDataBuffer(text, recvChapBinary);
      recvChapChallengeOk := len.Some?;
      recvChapChallengeLength := if len.Some? then len.value else 0;
    }

    /** acl_recv_key_value */
    method RecvKeyValue(keyType: int, text: Option<CString>) returns (status: Status)
      requires Valid()
      modifies `phase, `recvChapChallengeOk, `recvChapChallengeLength, recvChapBinary
      modifies recvKeyBlock, recvKeyBlock.strBlock
      ensures Valid() && Result(View(), status) == Step(h, old(View()), Op.KeyValue(keyType, text))
    {
      hide View, Valid, TextToData, Block.Set, KeyOf;
      Reads();
      if !live {
        return Error;
      }
      if phase != Negotiate && phase != Authenticate {
        status := Break();
        return;
      }
      var key := KeyOf(keyType);
      if key.None? {
        status := Break();
        return;
      }
      if key.value == ChapChallenge {
        StoreChallenge(text);
        Receive(key.value, Some(""));
      } else {
        Receive(key.value, text);
      }
      return NoError;
    }

    method SetReceivedTransit(on: bool)
      requires Valid()
      modifies recvKeyBlock
      ensures Valid()
      ensures var c := old(View()); View() == c.(recv := c.recv.(transitBit := on))
    {
      hide KeyArena.Valid, KeyArena.View, Claimed, Processed;
      recvKeyBlock.SetTransitBit(on);
    }

    /** acl_recv_transit_bit */
    method RecvTransitBit(on: bool) returns (status: Status)
      requires Valid()
      modifies `phase, recvKeyBlock
      ensures Valid() && Result(View(), status) == Step(h, old(View()), Op.TransitBit(on))
    {
      hide View, Valid;
      Reads();
      if !live {
        return Error;
      }
      if phase != Negotiate && phase != Authenticate {
        status := Break();
        return;
      }
      SetReceivedTransit(on);
      return NoError;
    }

    /** acl_recv_end */
    method RecvEnd(s: Session, o: Oracle) returns (status: Status)
      requires Valid()
      modifies this, recvKeyBlock, sendKeyBlock, sendKeyBlock.strBlock
      ensures Valid() && Result(View(), status) == Step(h, old(View()), Op.End(s, o))
    {
      hide View, Valid, Screened, Advanced, HandShake, EndStatus;
      Reads();
      if !live || phase == PhaseError {
        return Error;
      }
      if !recvInProgress {
        status := Break();
        return;
      }
      Screen();
      Reads();
      if phase == Configure {
        status := Break();
        return;
      }
      Advance(s, o);
      ShakeHands();
      status := EndStatusOf();
    }

    method LookSend(k: Key) returns (text: Option<CString>)
      requires Valid()
      modifies sendKeyBlock
      ensures Valid() && text == old(View()).send.Value(k)
      ensures var c := old(View()); View() == c.(send := c.send.Seen(k))
    {
      hide KeyArena.Valid, KeyArena.View, Claimed, Processed;
      text := sendKeyBlock.GetKeyVal(k);
    }

    /** acl_send_key_val with a buffer of `room` characters */
    method SendKeyVal(keyType: int, room: nat) returns (status: Status, text: Option<CString>)
      requires Valid()
      modifies `phase, sendKeyBlock
      ensures Valid() && Result(View(), status) == Step(h, old(View()), Op.SendKeyVal(keyType, room))
      ensures status == NoError ==> text == Outgoing(old(View()), KeyOf(keyType).value)
    {
      hide View, Valid, KeyOf, HexText;
      Reads();
      if !live {
        return Error, None;
      }
      if phase == PhaseError || KeyOf(keyType).None? {
        status := Break();
        return status, None;
      }
      var key := KeyOf(keyType).value;
      text := LookSend(key);
      if text.Some? && key == ChapChallenge {
        text := ChallengeText(room);
        if text.None? {
          status := Break();
          return;
        }
      } else if text.Some? && |text.value| >= room {
        status := Break();
        return;
      }
      return NoError, text;
    }

    method ChallengeText(room: nat) returns (text: Option<CString>)
      requires Valid()
      ensures text == DataToText(View().sendChallenge, room)
    {
      hide KeyArena.Valid, KeyArena.View, Claimed, Processed, HexText;
      var buffer := new char[room](_ => '\0');
      var err := DataToTextBuffer(sendChapChallenge, buffer);
      return if err then None else Some(buffer[..2 + 2 * |sendChapChallenge|]);
    }

    /** acl_send_transit_bit */
    method SendTransitBit() returns (status: Status, on: bool)
      requires Valid()
      modifies `phase
      ensures Valid() && Result(View(), status) == Step(h, old(View()), Op.SendTransitBit)
      ensures status == NoError ==> on == View().send.transitBit
    {
      hide View, Valid;
      Reads();
      if !live || phase == PhaseError {
        return Error, false;
      }
      return NoError, sendKeyBlock.transitBit;
    }

    /** acl_finish */
    method Finish() returns (status: Status)
      requires Valid()
      modifies `live
      ensures Valid() && View() == Step(h, old(View()), Op.Finish).acl
      ensures status == Step(h, old(View()), Op.Finish).status
    {
      hide KeyArena.Valid, KeyArena.View, Claimed, Processed;
      if !live {
        return Error;
      }
      live := false;
      return NoError;
    }
  }

  lemma EndStatusShape(c: Acl)
    ensures var r := EndStatus(c);
            if c.flow.phase == PhaseError then r == Result(c, Error)
            else r.acl == c.(flow := r.acl.flow, recvInProgress := false,
                             send := if GoesOn(r.status) then c.send else SuppressedKeys(c))
  {
    hide SuppressedKeys;
  }

  lemma SameSuppressed(c: Acl, d: Acl)
    requires d == c.(flow := d.flow, recvInProgress := d.recvInProgress)
    ensures SuppressedKeys(c) == SuppressedKeys(d)
  {
  }

  lemma SameFlow(h: Digest, c: Acl, d: Acl, s: Session, o: Oracle, rspKey: Option<CString>, usernameKey: Option<CString>)
    requires d == c.(recv := d.recv)
    ensures ResponseFlow(h, c, s, o, rspKey, usernameKey) == ResponseFlow(h, d, s, o, rspKey, usernameKey)
  {
    hide TextToData;
  }

  lemma SameResponse(h: Digest, c: Acl, d: Acl, idText: CString, o: Oracle)
    requires d == c.(recv := d.recv)
    ensures ResponseTo(h, c, idText, o) == ResponseTo(h, d, idText, o)
  {
    hide TextToNumber;
  }

}
