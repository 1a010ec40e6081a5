/** The CHAP authentication machine of usr/auth.c as a transition function.

    Phase, local state and remote state advance on each received message.  The digest
    is a parameter, RAND_bytes and failures of the digest library are an `Oracle` of
    the call, and the peer's expected credentials come in with each acl_recv_end. */
module Chap {
  import opened CText
  import opened Codec
  import opened KeyBlocks

  const OPTION_REJECT := -2
  const OPTION_NOT_PRESENT := -1
  const OPTION_NONE := 1
  const METHOD_CHAP := 2
  const ALG_MD5 := 5
  const ALG_SHA1 := 6
  const ALG_SHA256 := 7
  const ALG_SHA3_256 := 8
  const ALG_MAX_COUNT := 5
  const RECV_END_MAX_COUNT := 10

  datatype NodeType = Initiator | Target
  datatype Role = Originator | Responder
  datatype Phase = Configure | Negotiate | Authenticate | PhaseDone | PhaseError
  datatype LocalState = LocalUnset | LocalSendAlg | LocalRecvAlg | LocalRecvChallenge | LocalDone | LocalError
  datatype RmtState = RmtUnset | RmtSendAlg | RmtSendChallenge | RmtRecvRsp | RmtDone | RmtError
  datatype Status = NoError | Error | Pass | Fail | Continue

  predicate RealAlg(alg: int) {
    alg == ALG_SHA3_256 || alg == ALG_SHA256 || alg == ALG_SHA1 || alg == ALG_MD5
  }

  function DigestLen(alg: int): nat {
    if alg == ALG_MD5 then 16
    else if alg == ALG_SHA1 then 20
    else if alg == ALG_SHA256 || alg == ALG_SHA3_256 then 32
    else 0
  }

  /** A digest function: its output length is that of the algorithm. */
  type Digest = h: (int, seq<byte>) -> seq<byte> |
    forall alg, x :: |h(alg, x)| == DigestLen(alg)
    ghost witness (alg, x) => seq(DigestLen(alg), _ => 0)

  /** The credentials this side expects of its peer: username_in and password_in. */
  datatype Session = Session(usernameIn: CString, passwordIn: seq<byte>)

  /** What the libraries do during one acl_recv_end: whether each use of the digest and
      of the random generator works, and the random bytes. */
  datatype Oracle = Oracle(
    localHashOk: bool, ownHashOk: bool, verifyHashOk: bool,
    idOk: bool, id: byte,
    challengeOk: bool, challenge: nat -> byte)

  /** What is fixed once the exchange begins. */
  datatype Config = Config(
    nodeType: NodeType,
    methodList: seq<int>,
    methodNegRole: Role,
    algList: seq<int>,
    authRmt: bool,
    username: CString,
    passwd: Option<seq<byte>>,
    ipSec: bool,
    validMethods: seq<int>)

  /** Where the exchange stands. */
  datatype Flow = Flow(
    phase: Phase,
    localState: LocalState,
    rmtState: RmtState,
    rmtAuthStatus: Status,
    authRspFlag: bool)

  /** What has been negotiated. */
  datatype Terms = Terms(authMethod: int, chapAlg: int, challengeLen: nat)

  datatype Acl = Acl(
    live: bool,
    cfg: Config,
    negRole: Role,
    recvInProgress: bool,
    recvEndCount: nat,
    transitBitSent: bool,
    flow: Flow,
    neg: Terms,
    sendId: byte,
    sendChallenge: seq<byte>,
    recvChallenge: Option<seq<byte>>,
    recv: Block,
    send: Block)
  {
    function Failed(): Acl { this.(flow := flow.(rmtAuthStatus := Fail, phase := PhaseDone)) }
    function Broken(): Acl { this.(flow := flow.(phase := PhaseError)) }
    function WithLocal(l: LocalState): Acl { this.(flow := flow.(localState := l)) }
    function WithRmt(r: RmtState): Acl { this.(flow := flow.(rmtState := r)) }
  }

  // ---------- option lists ----------

  /** acl_authmethod_optn_to_text */
  function MethodText(option: int): Option<CString> {
    if option == OPTION_REJECT then Some("Reject")
    else if option == OPTION_NONE then Some("None")
    else if option == METHOD_CHAP then Some("CHAP")
    else None
  }

  function CommaAt(text: string): (n: nat)
    ensures n <= |text|
    ensures ',' !in text[..n]
    ensures n < |text| ==> text[n] == ','
  {
    if text == "" || text[0] == ',' then 0
    else
      var n := CommaAt(text[1..]) + 1;
      assert text[..n] == [text[0]] + text[1..][..n - 1];
      n
  }

  lemma {:induction false} CommaIs(text: string, n: nat)
    requires n <= |text| && ',' !in text[..n] && (n < |text| ==> text[n] == ',')
    ensures CommaAt(text) == n
  {
    if n > 0 {
      assert text[0] == text[..n][0];
      assert text[1..][..n - 1] == text[..n][1..];
      CommaIs(text[1..], n - 1);
    }
  }

  /** The items of a comma-separated value; a final comma adds no empty item. */
  function Items(text: CString): seq<CString>
    decreases |text|
  {
    if text == "" then []
    else
      var n := CommaAt(text);
      [text[..n]] + Items(if n < |text| then text[n + 1..] else "")
  }

  function FindMethod(methods: seq<int>, item: CString): Option<int> {
    if methods == [] then None
    else if MethodText(methods[0]) == Some(item) then Some(methods[0])
    else FindMethod(methods[1..], item)
  }

  function FirstMethod(methods: seq<int>, items: seq<CString>): Option<int> {
    if items == [] then None
    else if FindMethod(methods, items[0]).Some? then FindMethod(methods, items[0])
    else FirstMethod(methods, items[1..])
  }

  function FirstAlg(algs: seq<int>, items: seq<CString>): (r: Option<int>)
    ensures r.Some? ==> r.value in algs
  {
    if items == [] then None
    else
      var n := TextToNumber(items[0]);
      if n.Some? && n.value in algs then Some(n.value) else FirstAlg(algs, items[1..])
  }

  /** The outcome of a negotiation key: the first item both sides know. */
  function Negotiated(key: Option<CString>, chosen: Option<int>): int {
    if key.None? then OPTION_NOT_PRESENT
    else if chosen.Some? then chosen.value
    else OPTION_REJECT
  }

  function ItemsOf(key: Option<CString>): seq<CString> {
    match key case Some(text) => Items(text) case None => []
  }

  /** acl_set_key for AuthMethod */
  function MethodKey(methods: seq<int>): Option<CString> {
    if methods == [] then Some("None")
    else if methods == [OPTION_NOT_PRESENT] then None
    else Some(Join(MethodTexts(methods)))
  }

  function MethodTexts(methods: seq<int>): seq<CString> {
    if methods == [] then []
    else
      var rest := MethodTexts(methods[1..]);
      match MethodText(methods[0]) case Some(t) => [t] + rest case None => rest
  }

  /** acl_set_chap_alg_key */
  function AlgKey(algs: seq<int>): Option<CString> {
    if algs == [] || algs == [OPTION_NOT_PRESENT] then None
    else if algs == [OPTION_REJECT] then Some("Reject")
    else Some(Join(AlgTexts(algs)))
  }

  function AlgTexts(algs: seq<int>): (r: seq<CString>)
    ensures |r| == |algs|
  {
    if algs == [] then [] else [Decimal(algs[0] % (ULONG_MAX + 1))] + AlgTexts(algs[1..])
  }

  // ---------- configuration ----------

  /** The methods a client may still agree on: not None if it authenticates its peer,
      otherwise only None for a target or for an initiator without a password. */
  function ValidMethods(cfg: Config): seq<int> {
    KeepMethods(cfg.methodList, cfg.authRmt, !cfg.authRmt && (cfg.nodeType == Target || cfg.passwd.None?))
  }

  function ValidRole(cfg: Config): Role {
    if cfg.nodeType == Target then Responder
    else if cfg.authRmt then Originator
    else cfg.methodNegRole
  }

  /** acl_set_auth_method_valid */
  function SetMethodValid(c: Acl, cfg: Config): Acl {
    var empty := EmptyBlock.(transitBit := cfg.nodeType == Initiator && !cfg.authRmt);
    c.(cfg := cfg.(validMethods := ValidMethods(cfg)), negRole := ValidRole(cfg),
       send := empty.Set(AuthMethod, if ValidRole(cfg) == Originator then MethodKey(ValidMethods(cfg)) else None))
  }

  function KeepMethods(methods: seq<int>, noNone: bool, onlyNone: bool): seq<int> {
    if methods == [] then []
    else
      var rest := KeepMethods(methods[1..], noNone, onlyNone);
      if (noNone && methods[0] == OPTION_NONE) || (!noNone && onlyNone && methods[0] != OPTION_NONE) then rest
      else [methods[0]] + rest
  }

  /** acl_init */
  function Init(nodeType: NodeType): Acl {
    var cfg := Config(nodeType, [METHOD_CHAP, OPTION_NONE], if nodeType == Initiator then Originator else Responder,
                      [], true, "", None, false, []);
    SetMethodValid(
      Acl(live := true, cfg := cfg, negRole := Responder, recvInProgress := false, recvEndCount := 0,
          transitBitSent := false, flow := Flow(Configure, LocalUnset, RmtUnset, NoError, false),
          neg := Terms(OPTION_NOT_PRESENT, OPTION_NOT_PRESENT, 0),
          sendId := 0, sendChallenge := [], recvChallenge := Some([]), recv := EmptyBlock, send := EmptyBlock),
      cfg)
  }

  predicate KnownAlgOption(alg: int) { alg == OPTION_NONE || RealAlg(alg) }

  predicate ValidAlgList(algs: seq<int>) {
    && 1 <= |algs| <= ALG_MAX_COUNT
    && (forall i :: 0 <= i < |algs| ==> KnownAlgOption(algs[i]))
    && (forall i, j :: 0 <= i < j < |algs| ==> algs[i] != algs[j])
  }

  // ---------- the machine ----------

  /** acl_next_phase */
  function NextPhase(f: Flow, authRmt: bool, negMethod: int): Flow {
    match f.phase
    case Configure => f.(phase := Negotiate)
    case Negotiate =>
      if negMethod == OPTION_REJECT || negMethod == OPTION_NOT_PRESENT || negMethod == OPTION_NONE then
        f.(phase := if authRmt then PhaseDone else Authenticate,
           localState := LocalDone, rmtState := RmtDone,
           rmtAuthStatus := if authRmt then Fail else Pass)
      else if negMethod == METHOD_CHAP then
        f.(phase := Authenticate, localState := LocalSendAlg, rmtState := RmtSendAlg)
      else
        f.(phase := Authenticate, localState := LocalDone, rmtState := RmtDone, rmtAuthStatus := Fail)
    case Authenticate => f.(phase := PhaseDone)
    case _ => f.(phase := PhaseError)
  }

  /** acl_chap_compute_rsp: the response to a challenge under this side's own secret */
  function OwnResponse(h: Digest, c: Acl, rmtAuth: bool, id: byte, challenge: seq<byte>, hashOk: bool)
    : Option<seq<byte>>
  {
    if c.cfg.passwd.None? || !hashOk || !RealAlg(c.neg.chapAlg) then None
    else if !rmtAuth && !c.cfg.ipSec && |c.cfg.passwd.value| < 12 then None
    else Some(h(c.neg.chapAlg, [id] + c.cfg.passwd.value + challenge))
  }

  /** acl_chk_auth_method_key */
  function CheckMethod(c: Acl): Acl {
    var key := c.recv.Value(AuthMethod);
    c.(neg := c.neg.(authMethod := Negotiated(key, FirstMethod(c.cfg.validMethods, ItemsOf(key)))),
       recv := c.recv.Seen(AuthMethod))
  }

  /** acl_chk_chap_alg_key */
  function CheckAlg(c: Acl): Acl {
    var key := c.recv.Value(ChapAlg);
    var alg := Negotiated(key, FirstAlg(c.cfg.algList, ItemsOf(key)));
    c.(neg := c.neg.(chapAlg := alg, challengeLen := if RealAlg(alg) then DigestLen(alg) else c.neg.challengeLen),
       recv := c.recv.Seen(ChapAlg))
  }

  /** acl_local_auth: answer the peer's challenge */
  function LocalAuth(h: Digest, c: Acl, o: Oracle): Acl {
    match c.flow.localState
    case LocalSendAlg =>
      if c.cfg.nodeType == Initiator then
        c.(send := c.send.Set(ChapAlg, AlgKey(c.cfg.algList))).WithLocal(LocalRecvAlg)
      else LocalAlg(h, c, o)
    case LocalRecvAlg => LocalAlg(h, c, o)
    case LocalRecvChallenge => LocalChallenge(h, c, o)
    case LocalDone => c
    case _ => c.Broken()
  }

  function LocalAlg(h: Digest, c: Acl, o: Oracle): Acl {
    var a := CheckAlg(c);
    if c.cfg.nodeType == Target then
      a.(send := a.send.Set(ChapAlg, AlgKey([a.neg.chapAlg])))
       .WithLocal(if RealAlg(a.neg.chapAlg) then LocalRecvChallenge else LocalError)
    else if !RealAlg(a.neg.chapAlg) then a.WithLocal(LocalError)
    else LocalChallenge(h, a, o)
  }

  function LocalChallenge(h: Digest, c: Acl, o: Oracle): Acl {
    var idKey := c.recv.Value(ChapIdentifier);
    var challengeKey := c.recv.Value(ChapChallenge);
    var silent := c.cfg.nodeType == Target && idKey.None? && challengeKey.None?;
    var rsp := if idKey.Some? && challengeKey.Some? then ResponseTo(h, c, idKey.value, o) else None;
    c.(recv := c.recv.Seen(ChapIdentifier).Seen(ChapChallenge),
       send := if rsp.None? then c.send
               else c.send.Set(ChapRsp, Some(ResponseText(rsp.value))).Set(ChapUsername, Some(c.cfg.username)),
       flow := c.flow.(localState := if silent || rsp.Some? then LocalDone else LocalError))
  }

  /** The response to the challenge just received: none if the identifier or the
      challenge is bad, or if the challenge is the one this target sent itself. */
  function ResponseTo(h: Digest, c: Acl, idText: CString, o: Oracle): Option<seq<byte>> {
    var id := TextToNumber(idText);
    if id.None? || 255 < id.value || c.recvChallenge.None? then None
    else if c.cfg.nodeType == Target && c.recvChallenge.value == c.sendChallenge then None
    else OwnResponse(h, c, false, id.value, c.recvChallenge.value, o.localHashOk)
  }

  /** The text stays empty when acl_data_to_text refuses. */
  function ResponseText(rsp: seq<byte>): CString {
    match DataToText(rsp, STR_MAX_LEN) case Some(t) => t case None => ""
  }

  /** acl_chap_auth_request: is this the response the expected peer would give? */
  predicate PeerVerified(h: Digest, c: Acl, s: Session, username: CString, rsp: seq<byte>, hashOk: bool) {
    && s.usernameIn != "" && username == s.usernameIn
    && |s.passwordIn| >= 1 && s.passwordIn[0] != 0
    && |rsp| == c.neg.challengeLen
    && hashOk && RealAlg(c.neg.chapAlg)
    && rsp == h(c.neg.chapAlg, [c.sendId] + s.passwordIn + c.sendChallenge)
  }

  /** acl_rmt_auth: challenge the peer and check its response */
  function RmtAuth(h: Digest, c: Acl, s: Session, o: Oracle): Acl {
    match c.flow.rmtState
    case RmtSendAlg =>
      if c.cfg.nodeType == Initiator then c.WithRmt(RmtSendChallenge) else RmtChallenge(c, o)
    case RmtSendChallenge => RmtChallenge(c, o)
    case RmtRecvRsp => RmtResponse(h, c, s, o)
    case RmtDone => c
    case _ => c.Broken()
  }

  /** The first `n` bytes of a random stream. */
  function Draw(n: nat, stream: nat -> byte): (r: seq<byte>)
    ensures |r| == n
  {
    if n == 0 then [] else Draw(n - 1, stream) + [stream(n - 1)]
  }

  function RmtChallenge(c: Acl, o: Oracle): Acl {
    if !c.cfg.authRmt then c.(flow := c.flow.(rmtAuthStatus := Pass, rmtState := RmtDone))
    else if !o.idOk then c.WithRmt(RmtError)
    else
      var withId := c.send.Set(ChapIdentifier, Some(Decimal(o.id)));
      c.(sendId := o.id, sendChallenge := Draw(c.neg.challengeLen, o.challenge),
         send := if o.challengeOk then withId.Set(ChapChallenge, Some("")) else withId)
       .WithRmt(if o.challengeOk then RmtRecvRsp else RmtError)
  }

  function RmtResponse(h: Digest, c: Acl, s: Session, o: Oracle): Acl {
    c.(recv := c.recv.Seen(ChapRsp).Seen(ChapUsername),
       flow := ResponseFlow(h, c, s, o, c.recv.Value(ChapRsp), c.recv.Value(ChapUsername)))
  }

  function ResponseFlow(h: Digest, c: Acl, s: Session, o: Oracle, rspKey: Option<CString>, usernameKey: Option<CString>)
    : Flow
  {
    var rsp := TextToData(rspKey, STR_MAX_LEN);
    var own := OwnResponse(h, c, true, c.sendId, c.sendChallenge, o.ownHashOk);
    if usernameKey.None? || rsp.None? || (|rsp.value| == c.neg.challengeLen && own == rsp) then
      c.flow.(rmtState := RmtError)
    else
      var ok := PeerVerified(h, c, s, usernameKey.value, rsp.value, o.verifyHashOk);
      c.flow.(rmtAuthStatus := if ok then Pass else Fail, authRspFlag := true, rmtState := RmtDone)
  }

  datatype Shake = Shake(flow: Flow, transit: bool)

  /** acl_hand_shake: the flow it leaves, and whether it sets the transit bit */
  function HandShakes(c: Acl): Shake {
    var f := c.flow;
    var failed := Shake(f.(rmtAuthStatus := Fail, phase := PhaseDone), false);
    var next := NextPhase(f, c.cfg.authRmt, c.neg.authMethod);
    if f.phase == PhaseDone then Shake(f, false)
    else if c.cfg.nodeType == Initiator then
      if c.recv.transitBit && !c.transitBitSent then failed
      else if f.phase == Negotiate then Shake(f, true)
      else if c.recv.transitBit then (if f.rmtState == RmtDone then Shake(next, false) else failed)
      else Shake(f, f.rmtState == RmtRecvRsp || f.rmtState == RmtDone)
    else if f.phase == Negotiate then Shake(f, false)
    else if f.rmtState == RmtDone && f.rmtAuthStatus != Pass then Shake(next, false)
    else if (f.rmtState == RmtRecvRsp || f.rmtState == RmtDone) && c.recv.transitBit then Shake(next, true)
    else Shake(f, false)
  }

  function HandShake(c: Acl): Acl {
    var k := HandShakes(c);
    c.(flow := k.flow, send := c.send.(transitBit := c.send.transitBit || k.transit))
  }

  datatype Result = Result(acl: Acl, status: Status)

  /** acl_rcv_end_status: the verdict on the exchange so far */
  function Verdict(c: Acl): Status {
    if c.flow.phase != PhaseDone then Continue
    else if c.cfg.authRmt && !c.flow.authRspFlag && c.flow.rmtAuthStatus == Pass then Fail
    else c.flow.rmtAuthStatus
  }

  predicate GoesOn(v: Status) { v == Continue || v == Pass }

  function EndStatus(c: Acl): Result {
    if c.flow.phase == PhaseError then Result(c, Error)
    else
      var v := Verdict(c);
      if GoesOn(v) && !c.send.Defective() && !c.recv.HasUnprocessed() then
        Result(c.(recvInProgress := false), v)
      else
        var status := if GoesOn(v) then Fail else v;
        Result(c.(flow := c.flow.(phase := PhaseDone, rmtAuthStatus := status),
                  send := SuppressedKeys(c), recvInProgress := false),
               status)
  }

  /** On failure every key but a target's Reject is withdrawn. */
  function SuppressedKeys(c: Acl): Block {
    if c.cfg.nodeType == Initiator then EmptyBlock
    else if AuthMethod in c.send.values then
      if c.neg.authMethod == OPTION_REJECT then EmptyBlock.Set(AuthMethod, Some("Reject")) else EmptyBlock
    else if ChapAlg in c.send.values && c.neg.chapAlg == OPTION_REJECT then EmptyBlock.Set(ChapAlg, Some("Reject"))
    else EmptyBlock
  }

  /** acl_recv_begin */
  function RecvBegin(c: Acl): Result {
    if c.flow.phase == PhaseError then Result(c, Error)
    else if c.flow.phase == PhaseDone || c.recvInProgress then Result(c.Broken(), Error)
    else
      Result(c.(flow := if c.flow.phase == Configure then c.flow.(phase := Negotiate) else c.flow,
                recvInProgress := true, transitBitSent := c.send.transitBit, recv := EmptyBlock, send := EmptyBlock),
             NoError)
  }

  /** acl_recv_end: the checks on the message as a whole */
  function Screened(c: Acl): Acl {
    var c := c.(recvEndCount := c.recvEndCount + 1);
    if c.recvEndCount > RECV_END_MAX_COUNT + 1 || c.recv.Defective() then c.Failed() else c
  }

  /** acl_recv_end: the AuthMethod negotiation */
  function NegotiateMethod(c: Acl): Acl {
    var m := CheckMethod(c);
    var absent := m.neg.authMethod == OPTION_NOT_PRESENT;
    var responder := m.negRole == Responder;
    var offer := responder && absent && (m.cfg.authRmt || !m.recv.transitBit);
    m.(negRole := if offer then Originator else m.negRole,
       send := if offer then m.send.Set(AuthMethod, MethodKey(m.cfg.validMethods))
               else if responder && !absent then m.send.Set(AuthMethod, MethodKey([m.neg.authMethod]))
               else m.send,
       flow := if offer then m.flow
               else if absent && !responder then m.flow.(rmtAuthStatus := Fail, phase := PhaseDone)
               else NextPhase(m.flow, m.cfg.authRmt, m.neg.authMethod))
  }

  /** acl_recv_end: the CHAP exchange */
  function ChapStep(h: Digest, c: Acl, s: Session, o: Oracle): Acl {
    var l := LocalAuth(h, c, o);
    if l.flow.localState == LocalError then l.Failed()
    else
      var r := RmtAuth(h, l, s, o);
      if r.flow.rmtState == RmtError then r.Failed() else r
  }

  /** acl_recv_end: the work of the phase.  A target that answers the peer's AuthMethod
      takes the CHAP exchange up only on the next message. */
  function Advanced(h: Digest, c: Acl, s: Session, o: Oracle): Acl {
    if c.flow.phase == Negotiate then
      var n := NegotiateMethod(c);
      if n.flow.phase == Authenticate && (c.cfg.nodeType == Initiator || c.negRole == Originator)
      then ChapStep(h, n, s, o) else n
    else if c.flow.phase == Authenticate then ChapStep(h, c, s, o)
    else c
  }

  function RecvEnd(h: Digest, c: Acl, s: Session, o: Oracle): Result {
    if c.flow.phase == PhaseError then Result(c, Error)
    else if !c.recvInProgress then Result(c.Broken(), Error)
    else
      var c := Screened(c);
      if c.flow.phase == Configure then Result(c.Broken(), Error)
      else EndStatus(HandShake(Advanced(h, c, s, o)))
  }

  // ---------- the interface ----------

  datatype Op =
    | SetUserName(name: Option<CString>)
    | SetPasswd(data: seq<byte>)
    | SetAuthRmt(on: bool)
    | SetIpSec(on: bool)
    | SetChapAlgList(algs: seq<int>)
    | Begin
    | KeyValue(keyType: int, text: Option<CString>)
    | TransitBit(on: bool)
    | End(session: Session, oracle: Oracle)
    | SendKeyVal(keyType: int, room: nat)
    | SendTransitBit
    | GetDbgStatus
    | Finish

  /** The configuration calls, allowed only before the exchange. */
  function Configured(c: Acl, op: Op): Result {
    if c.flow.phase != Configure then Result(c.Broken(), Error)
    else
      match op
      case SetUserName(name) =>
        if name.None? || |name.value| >= STR_MAX_LEN then Result(c.Broken(), Error)
        else Result(c.(cfg := c.cfg.(username := name.value)), NoError)
      case SetPasswd(data) =>
        if |data| > STR_MAX_LEN then Result(c.Broken(), Error)
        else Result(SetMethodValid(c, c.cfg.(passwd := Some(data))), NoError)
      case SetAuthRmt(on) => Result(SetMethodValid(c, c.cfg.(authRmt := on)), NoError)
      case SetIpSec(on) => Result(c.(cfg := c.cfg.(ipSec := on)), NoError)
      case SetChapAlgList(algs) =>
        if !ValidAlgList(algs) then Result(c.Broken(), Error)
        else Result(c.(cfg := c.cfg.(algList := algs)), NoError)
      case _ => Result(c, NoError)
  }

  predicate Exchanging(c: Acl) { c.flow.phase == Negotiate || c.flow.phase == Authenticate }

  /** acl_recv_key_value: a challenge is decoded at once, its text is not kept */
  function RecvKeyValue(c: Acl, keyType: int, text: Option<CString>): Result {
    if !Exchanging(c) || KeyOf(keyType).None? then Result(c.Broken(), Error)
    else
      var key := KeyOf(keyType).value;
      if key == ChapChallenge then
        Result(c.(recvChallenge := TextToData(text, LARGE_BINARY_MAX_LEN), recv := c.recv.Set(key, Some(""))), NoError)
      else Result(c.(recv := c.recv.Set(key, text)), NoError)
  }

  /** The text acl_send_key_val hands out for a key, given enough room. */
  function Outgoing(c: Acl, key: Key): Option<CString> {
    if key in c.send.values && key == ChapChallenge then Some(HexText(c.sendChallenge))
    else c.send.Value(key)
  }

  /** acl_send_key_val */
  function SendKey(c: Acl, keyType: int, room: nat): Result {
    if c.flow.phase == PhaseError || KeyOf(keyType).None? then Result(c.Broken(), Error)
    else
      var key := KeyOf(keyType).value;
      var seen := c.(send := c.send.Seen(key));
      if key in c.send.values && (|Outgoing(c, key).value| >= room || (key == ChapChallenge && c.sendChallenge == []))
      then Result(seen.Broken(), Error)
      else Result(seen, NoError)
  }

  function Step(h: Digest, c: Acl, op: Op): Result {
    if !c.live then Result(c, Error)
    else
      match op
      case Begin => RecvBegin(c)
      case KeyValue(keyType, text) => RecvKeyValue(c, keyType, text)
      case TransitBit(on) =>
        if !Exchanging(c) then Result(c.Broken(), Error)
        else Result(c.(recv := c.recv.(transitBit := on)), NoError)
      case End(session, oracle) => RecvEnd(h, c, session, oracle)
      case SendKeyVal(keyType, room) => SendKey(c, keyType, room)
      case SendTransitBit => Result(c, if c.flow.phase == PhaseError then Error else NoError)
      case GetDbgStatus => if c.flow.phase != PhaseDone then Result(c.Broken(), Error) else Result(c, NoError)
      case Finish => Result(c.(live := false), NoError)
      case _ => Configured(c, op)
  }

  /** The client after a sequence of calls. */
  function Run(h: Digest, c: Acl, ops: seq<Op>): Acl {
    if ops == [] then c
    else Step(h, Run(h, c, ops[..|ops| - 1]), ops[|ops| - 1]).acl
  }
}
