/** The session recovery machine of usr/initiator.c for transports that do not offload the
    login: one session with its leading connection, its two timers and its pool of event
    contexts, on top of the actor scheduler.

    Calls into the kernel, the file system, the login negotiation and the clock are an
    `Oracle` of the handler that makes them. */
module Sessions {
  import opened CText
  import opened Scheduling

  const CONTEXT_POOL_MAX := 32
  const INTERNAL_ERR_REOPEN_DELAY: uint32 := 5
  const CONN_ERR_REOPEN_DELAY: uint32 := 3

  datatype ConnState = FreeConn | XptWait | InLogin | LoggedIn | InLogout | LogoutRequested | CleanupWait
  datatype Stage = NoChange | Cleanup | Reopening | Redirected | Destroyed

  /** The actors of this session, and all others. */
  datatype ActorId = LoginTimer | NopTimer | Context(i: nat) | Foreign(n: nat)

  /** What an allocated event context waits to do. */
  datatype CtxEvent = RecvPdu | ConnError(invalidHost: bool) | PollConn | LogoutTimer | StopConn | LoginState

  datatype NopWork = SendNop | NopTimeout

  type Address = nat

  datatype Link = Link(
    state: ConnState,
    stage: Stage,
    reopenCnt: nat,
    time2wait: uint32,
    hasId: bool,
    logout: bool,
    notify: bool,
    saddr: Address,
    failback: Address)

  /** History: login-completion scans so far; whether every actor was set up, cleared and
      run only when that is safe; whether a logout was accepted while logged in. */
  datatype History = History(scans: nat, sound: bool, loggingOut: bool)

  /** A context that is not allocated is `None`. */
  datatype Sess = Sess(
    live: bool,
    link: Link,
    pool: seq<Option<CtxEvent>>,
    nop: NopWork,
    sched: Sched<ActorId>,
    hist: History)

  datatype Config = Config(
    defaultTime2Wait: uint32,
    reopenMax: nat,
    retryMax: nat,
    erl: nat,
    userspaceNop: bool,
    nopInterval: uint32,
    nopTimeout: uint32,
    loginTimeout: uint32,
    logoutTimeout: uint32)

  // ---------- what the outside does ----------

  datatype LoginRet = RetOk | RetRedirect | RetIoError | RetRedirectionFailed | RetOther

  /** A login response: whether it ends the negotiation step, how, the target's status, the
      address it moves us to, the wait it negotiates, and whether the full feature phase is
      reached. */
  datatype LoginRsp = LoginRsp(
    final: bool, ret: LoginRet, statusClass: int, statusDetail: int, moved: Option<Address>,
    time2wait: Option<uint32>, fullFeature: bool)

  datatype Pdu =
    | NopIn(answer: bool)
    | LogoutRsp(response: int, time2wait: uint32)
    | AsyncScsi
    | AsyncLogoutRequest
    | AsyncDropping(time2wait: uint32)
    | AsyncParamNegotiation
    | OtherPdu

  datatype PollResult = NotYet | Connected | PollFailed

  datatype Oracle = Oracle(
    clock: ActorId -> Option<int>,
    retryTime: Option<bool>,
    hasLead: bool, stopFails: bool, destroyConnFails: bool, destroySessionFails: bool,
    reopenStopFails: bool, netFails: bool, garbage: uint32, connectFails: bool,
    poll: PollResult, createSessionFails: bool, createConnFails: bool, bindFails: bool,
    paramsFail: bool, hostParamsFail: bool, loginBeginFails: bool, loginReqFails: bool,
    released: bool, recvFails: bool, pdu: Pdu, login: LoginRsp,
    negParamsFail: bool, startFails: bool,
    busy: bool, unbindFails: bool, sendFails: bool)

  // ---------- actors ----------

  predicate On(s: Sess, a: ActorId) {
    StateOf(s.sched, a) == Waiting || StateOf(s.sched, a) == Scheduled
  }

  /** actor_delete */
  function Del(s: Sess, a: ActorId): Sess {
    s.(sched := Delete(s.sched, a))
  }

  /** actor_init, which is safe only on an actor that is on no list */
  function SetUp(s: Sess, a: ActorId): Sess {
    s.(sched := Init(s.sched, a), hist := s.hist.(sound := s.hist.sound && !OnList(s.sched, a)))
  }

  /** Clearing the memory of an actor, likewise. */
  function Erase(s: Sess, a: ActorId): Sess {
    s.(sched := Wipe(s.sched, a), hist := s.hist.(sound := s.hist.sound && !OnList(s.sched, a)))
  }

  function Arm(s: Sess, a: ActorId, delay: uint32, head: bool, o: Oracle): Sess {
    s.(sched := Schedule(s.sched, o.clock(a), a, delay, head))
  }

  /** actor_timer */
  function StartTimer(s: Sess, a: ActorId, delay: uint32, o: Oracle): Sess {
    Arm(SetUp(s, a), a, delay, false, o)
  }

  /** actor_timer_mod */
  function ModTimer(s: Sess, a: ActorId, delay: uint32, o: Oracle): Sess {
    s.(sched := TimerMod(s.sched, o.clock(a), a, delay))
  }

  // ---------- the context pool ----------

  /** iscsi_ev_context_get finds the first context that is not allocated. */
  function FirstFree(pool: seq<Option<CtxEvent>>): (r: Option<nat>)
    ensures r.Some? ==> r.value < |pool| && pool[r.value].None?
    ensures r.None? ==> forall i :: 0 <= i < |pool| ==> pool[i].Some?
  {
    if pool == [] then None
    else if pool[0].None? then Some(0)
    else
      match FirstFree(pool[1..])
      case Some(i) => Some(i + 1)
      case None =>
        assert forall i :: 1 <= i < |pool| ==> pool[i] == pool[1..][i - 1];
        None
  }

  function GetContext(s: Sess, i: nat, ev: CtxEvent): Sess
    requires i < |s.pool|
  {
    Erase(s.(pool := s.pool[i := Some(ev)]), Context(i))
  }

  function PutContext(s: Sess, i: nat): Sess {
    if i < |s.pool| then s.(pool := s.pool[i := None]) else s
  }

  /** iscsi_sched_ev_context on a context just taken from the pool */
  function SchedContext(s: Sess, i: nat, ev: CtxEvent, delay: uint32, o: Oracle): Sess
    requires i < |s.pool|
  {
    Arm(SetUp(GetContext(s, i, ev), Context(i)), Context(i), delay, ev == ConnError(true), o)
  }

  /** iscsi_flush_context_pool, from index `i` on */
  function FlushFrom(s: Sess, i: nat): (r: Sess)
    ensures |r.pool| == |s.pool|
    decreases |s.pool| - i
  {
    if i >= |s.pool| then s
    else if s.pool[i].None? then FlushFrom(s, i + 1)
    else FlushFrom(PutContext(Del(s, Context(i)), i), i + 1)
  }

  function Flush(s: Sess): Sess { FlushFrom(s, 0) }

  /** conn_delete_timers */
  function DeleteTimers(s: Sess): Sess { Del(Del(s, LoginTimer), NopTimer) }

  // ---------- shutting down and opening again ----------

  function WithLink(s: Sess, link: Link): Sess { s.(link := link) }

  /** session_conn_shutdown cannot take the kernel's connection down. */
  predicate ConnStays(s: Sess, o: Oracle) {
    && s.link.hasId && o.hasLead
    && ((s.link.state in {InLogin, InLogout, LoggedIn} && o.stopFails) || o.destroyConnFails)
  }

  /** session_conn_shutdown: it can give up with the session alive. */
  function Shutdown(s: Sess, o: Oracle): Sess {
    if ConnStays(s, o) then s
    else if s.link.hasId && o.destroySessionFails then WithLink(s, s.link.(stage := Destroyed))
    else Flush(DeleteTimers(s)).(live := false)
  }

  /** iscsi_conn_connect: an attempt is under way, or `None` */
  function Connect(g: Config, s: Sess, o: Oracle): (r: (Sess, bool)) {
    match FirstFree(s.pool)
    case None => (s, false)
    case Some(i) =>
      if o.connectFails then (PutContext(GetContext(s, i, PollConn), i), false)
      else (ModTimer(SchedContext(s, i, PollConn, 0, o), LoginTimer, g.loginTimeout, o), true)
  }

  /** Connect now, or try again after `delay` seconds. */
  function ConnectOrRetry(g: Config, s: Sess, o: Oracle): Sess {
    var r := Connect(g, s, o);
    if r.1 then r.0 else ModTimer(r.0, LoginTimer, CONN_ERR_REOPEN_DELAY, o)
  }

  /** No context and no timer of the session is left to run. */
  function Quiesced(s: Sess): Sess {
    var f := DeleteTimers(Flush(s));
    WithLink(f, f.link.(state := XptWait))
  }

  /** Connect, unless the target asked for a wait.  When setting up the network fails on the
      redirected path, the delay has never been set. */
  function Attempt(g: Config, s: Sess, o: Oracle, redirected: bool): Sess {
    if redirected then
      if o.netFails then ModTimer(s, LoginTimer, o.garbage, o) else ConnectOrRetry(g, s, o)
    else
      var w := WithLink(s, s.link.(time2wait := 0));
      if s.link.time2wait != 0 then ModTimer(w, LoginTimer, s.link.time2wait, o)
      else
        var c := WithLink(w, w.link.(reopenCnt := w.link.reopenCnt + 1));
        if o.netFails then ModTimer(c, LoginTimer, 0, o) else ConnectOrRetry(g, c, o)
  }

  /** __session_conn_reopen */
  function Reopen(g: Config, s: Sess, o: Oracle, stop: bool, redirected: bool): Sess {
    var f := Quiesced(s);
    if stop && o.reopenStopFails then ModTimer(f, LoginTimer, INTERNAL_ERR_REOPEN_DELAY, o)
    else Attempt(g, f, o, redirected)
  }

  /** session_conn_reopen: back to the original address */
  function ConnReopen(g: Config, s: Sess, o: Oracle, stop: bool): Sess {
    Reopen(g, WithLink(s, s.link.(saddr := s.link.failback)), o, stop, false)
  }

  /** iscsi_retry_initial_login: the time decides, or the count when there is no time */
  predicate RetryInitial(g: Config, s: Sess, o: Oracle) {
    match o.retryTime case Some(b) => b case None => g.retryMax > s.link.reopenCnt
  }

  /** iscsi_login_eh */
  function LoginEh(g: Config, s: Sess, o: Oracle, fatal: bool): Sess {
    var f := Flush(s);
    var giveUp := fatal || !RetryInitial(g, f, o);
    if s.link.state == XptWait then
      match s.link.stage
      case NoChange => if giveUp then Shutdown(f, o) else ConnReopen(g, f, o, f.link.hasId)
      case Redirected => if giveUp then Shutdown(f, o) else ConnReopen(g, f, o, false)
      case Reopening =>
        if g.reopenMax != 0 && f.link.reopenCnt > g.reopenMax then Shutdown(f, o) else ConnReopen(g, f, o, false)
      case Cleanup => Shutdown(f, o)
      case Destroyed => f
    else if s.link.state == InLogin then
      match s.link.stage
      case NoChange => if giveUp then Shutdown(f, o) else ConnReopen(g, f, o, true)
      case Redirected => if giveUp then Shutdown(f, o) else ConnReopen(g, f, o, true)
      case Reopening => ConnReopen(g, f, o, true)
      case Cleanup => Shutdown(f, o)
      case Destroyed => f
    else f
  }

  /** __conn_error_handle; with ERL > 0 the connection is only marked as failed */
  function ErrorHandle(g: Config, s: Sess, o: Oracle): Sess {
    if s.link.logout then Shutdown(s, o)
    else if s.link.state == InLogout || s.link.state == LoggedIn then
      var c := WithLink(s, s.link.(state := CleanupWait,
                                   stage := if g.erl > 0 then s.link.stage else Reopening));
      if c.link.stage == Reopening then ConnReopen(g, c, o, true) else c
    else if s.link.state == InLogin && s.link.stage == Reopening then LoginEh(g, s, o, false)
    else s
  }

  // ---------- login ----------

  datatype LoginVerdict = LoginGood | LoginFailed | AuthFailed | LoginRetry | RedirectNow

  /** __login_response_status */
  function ResponseVerdict(ret: LoginRet): LoginVerdict {
    match ret
    case RetOk => LoginGood
    case RetRedirect => RedirectNow
    case RetIoError => LoginRetry
    case RetRedirectionFailed => LoginRetry
    case RetOther => LoginFailed
  }

  /** __check_iscsi_status_class: 0 success, 1 redirection, 2 initiator error, 3 target
      error (section 10.13.5 of RFC 3720) */
  function StatusVerdict(statusClass: int, detail: int): LoginVerdict {
    if statusClass == 0 then LoginGood
    else if statusClass == 1 then (if detail == 2 then RedirectNow else LoginRetry)
    else if statusClass == 2 then (if detail == 1 || detail == 2 then AuthFailed else LoginFailed)
    else if statusClass == 3 then LoginRetry
    else LoginFailed
  }

  /** iscsi_login_redirect */
  function LoginRedirect(g: Config, s: Sess, o: Oracle): Sess {
    Reopen(g, WithLink(s, s.link.(stage := if s.link.stage == NoChange then Redirected else s.link.stage)), o, true, true)
  }

  /** The session is logged in, and its host has been scanned if this was its first login. */
  function LoggedInNow(s: Sess): Sess {
    var first := s.link.stage == NoChange || s.link.stage == Redirected;
    s.(link := s.link.(state := LoggedIn, stage := NoChange, reopenCnt := 0, notify := first && s.link.notify),
       hist := s.hist.(scans := s.hist.scans + (if first then 1 else 0)),
       nop := SendNop)
  }

  /** setup_full_feature_phase: the first login scans the host, recoveries do not */
  function FullFeature(g: Config, s: Sess, o: Oracle): Sess {
    var d := Del(s, LoginTimer);
    if o.negParamsFail || o.startFails then LoginEh(g, d, o, false)
    else
      var l := LoggedInNow(d);
      if g.userspaceNop && g.nopInterval != 0 then StartTimer(l, NopTimer, g.nopInterval, o) else l
  }

  /** The verdict on a login response, and whether it is a permanent redirection. */
  function VerdictOn(rsp: LoginRsp): (r: (LoginVerdict, bool)) {
    if !rsp.final then (LoginGood, false)
    else if ResponseVerdict(rsp.ret) != LoginGood then (ResponseVerdict(rsp.ret), false)
    else
      var v := StatusVerdict(rsp.statusClass, rsp.statusDetail);
      (v, v == RedirectNow)
  }

  /** The negotiation code may move to another address, for good if the target says so, and
      takes the wait before a reconnection that the target asks for. */
  function Moved(link: Link, rsp: LoginRsp): Link {
    var saddr := if rsp.moved.Some? then rsp.moved.value else link.saddr;
    link.(saddr := saddr, failback := if VerdictOn(rsp).1 then saddr else link.failback,
          time2wait := if rsp.time2wait.Some? then rsp.time2wait.value else link.time2wait)
  }

  /** iscsi_recv_login_rsp */
  function RecvLoginRsp(g: Config, s: Sess, o: Oracle): Sess {
    ActOnLogin(g, WithLink(s, Moved(s.link, o.login)), o, VerdictOn(o.login).0)
  }

  function ActOnLogin(g: Config, s: Sess, o: Oracle, verdict: LoginVerdict): Sess {
    match verdict
    case RedirectNow => LoginRedirect(g, s, o)
    case LoginRetry => LoginEh(g, s, o, false)
    case LoginFailed => LoginEh(g, WithLink(s, s.link.(reopenCnt := g.retryMax)), o, true)
    case AuthFailed => LoginEh(g, WithLink(s, s.link.(reopenCnt := g.retryMax)), o, true)
    case LoginGood =>
      if o.login.fullFeature then FullFeature(g, s, o)
      else if o.loginReqFails then LoginEh(g, s, o, false)
      else s
  }

  // ---------- logout ----------

  /** iscsi_send_logout: the state may have changed even when it reports an error */
  function SendLogout(g: Config, s: Sess, o: Oracle): (r: (Sess, bool)) {
    if s.link.state != LoggedIn || o.sendFails then (s, false)
    else
      var l := WithLink(s, s.link.(state := InLogout));
      match FirstFree(l.pool)
      case None => (l, false)
      case Some(i) => (SchedContext(l, i, LogoutTimer, g.logoutTimeout, o), true)
  }

  /** session_logout_task refuses the request. */
  predicate RefusesLogout(s: Sess, o: Oracle) {
    || s.link.notify || s.link.logout || o.busy
    || (s.link.state in {XptWait, InLogin} && s.link.stage in {NoChange, Redirected})
  }

  /** session_logout_task.  As written, it reports success when sending the logout fails
      and drops the session when the logout was sent. */
  function LogoutTask(g: Config, s: Sess, o: Oracle): Sess {
    if RefusesLogout(s, o) then s
    else
      var l := s.(link := s.link.(logout := true),
                  hist := s.hist.(loggingOut := s.hist.loggingOut || s.link.state == LoggedIn));
      if l.link.state != LoggedIn then Shutdown(l, o)
      else if !o.unbindFails then l
      else
        var r := SendLogout(g, l, o);
        if r.1 then Shutdown(r.0, o) else r.0
  }

  // ---------- actors at work ----------

  /** session_conn_poll */
  function PollCb(g: Config, s: Sess, o: Oracle, i: nat): Sess {
    var p := PutContext(s, i);
    if p.link.state != XptWait then p
    else
      match o.poll
      case PollFailed => ModTimer(p, LoginTimer, CONN_ERR_REOPEN_DELAY, o)
      case NotYet =>
        (match FirstFree(p.pool)
         case None => LoginEh(g, p, o, false)
         case Some(k) => SchedContext(p, k, PollConn, 1, o))
      case Connected => ConnectedCb(g, p, o)
  }

  function ConnectedCb(g: Config, s: Sess, o: Oracle): Sess {
    if !s.link.hasId && o.createSessionFails then Shutdown(s, o)
    else
      var c := WithLink(s, s.link.(hasId := true));
      if !s.link.hasId && o.createConnFails then Shutdown(c, o)
      else
        var p := WithLink(c, c.link.(time2wait := g.defaultTime2Wait));
        if o.bindFails || o.paramsFail || o.hostParamsFail || o.loginBeginFails then LoginEh(g, p, o, false)
        else
          var l := WithLink(p, p.link.(state := InLogin));
          if o.loginReqFails then LoginEh(g, l, o, false) else l
  }

  /** iscsi_recv_nop_in */
  function RecvNop(g: Config, s: Sess, o: Oracle, answer: bool): Sess {
    if g.userspaceNop && answer then StartTimer(Del(s, NopTimer).(nop := SendNop), NopTimer, g.nopInterval, o) else s
  }

  function HandlePdu(g: Config, s: Sess, o: Oracle): Sess {
    match o.pdu
    case NopIn(answer) => RecvNop(g, s, o, answer)
    case LogoutRsp(response, wait) =>
      ErrorHandle(g, if response == 2 || response == 3 then WithLink(s, s.link.(time2wait := wait)) else s, o)
    case AsyncLogoutRequest => SendLogout(g, s, o).0
    case AsyncDropping(wait) => WithLink(s, s.link.(time2wait := wait))
    case AsyncParamNegotiation => ErrorHandle(g, s, o)
    case _ => s
  }

  /** session_conn_recv_pdu; reading the PDU releases the context unless reading goes wrong */
  function RecvPduCb(g: Config, s: Sess, o: Oracle, i: nat): Sess {
    var r := if o.released then PutContext(s, i) else s;
    if s.link.state == InLogin then RecvLoginRsp(g, r, o)
    else if s.link.state in {LoggedIn, InLogout, LogoutRequested} then (if o.recvFails then r else HandlePdu(g, r, o))
    else PutContext(s, i)
  }

  /** iscsi_stop */
  function StopCb(g: Config, s: Sess, o: Oracle, i: nat): Sess {
    var r := SendLogout(g, PutContext(s, i), o);
    if r.1 then r.0 else Shutdown(r.0, o)
  }

  function ContextCb(g: Config, s: Sess, o: Oracle, i: nat, ev: CtxEvent): Sess {
    match ev
    case RecvPdu => RecvPduCb(g, s, o, i)
    case ConnError(invalidHost) =>
      if invalidHost then Shutdown(PutContext(s, i), o) else ErrorHandle(g, PutContext(s, i), o)
    case PollConn => PollCb(g, s, o, i)
    case LogoutTimer => ErrorHandle(g, PutContext(s, i), o)
    case StopConn => StopCb(g, s, o, i)
    case LoginState => PutContext(s, i)
  }

  /** conn_send_nop_out and conn_nop_out_timeout */
  function NopCb(g: Config, s: Sess, o: Oracle): Sess {
    if s.nop == NopTimeout then ErrorHandle(g, s, o)
    else if s.link.state == InLogout then s
    else StartTimer(s.(nop := NopTimeout), NopTimer, g.nopTimeout, o)
  }

  /** An actor of this session that runs must still have its memory. */
  function Callback(g: Config, s: Sess, o: Oracle, a: ActorId): Sess {
    match a
    case Foreign(_) => s
    case LoginTimer => if s.live then LoginEh(g, s, o, false) else Unsound(s)
    case NopTimer => if s.live then NopCb(g, s, o) else Unsound(s)
    case Context(i) =>
      if s.live && i < |s.pool| && s.pool[i].Some? then ContextCb(g, s, o, i, s.pool[i].value) else Unsound(s)
  }

  function Unsound(s: Sess): Sess { s.(hist := s.hist.(sound := false)) }

  // ---------- runs ----------

  /** What happens: the kernel sends an event for the connection, actor_poll moves due
      actors or runs the first ready one, a logout is requested, or others use the
      scheduler for actors of their own. */
  datatype Step =
    | KernelEvent(ev: CtxEvent, o: Oracle)
    | PollMoves(now: int)
    | PollRuns(o: Oracle)
    | LogoutRequest(o: Oracle)
    | OtherInit(n: nat)
    | OtherDelete(n: nat)
    | OtherSchedule(n: nat, at: Option<int>, delay: uint32, head: bool)

  predicate Enabled(s: Sess, e: Step) {
    match e
    case KernelEvent(ev, o) => s.live && (ev.RecvPdu? || ev.ConnError? || ev.StopConn? || ev.LoginState?)
    case PollRuns(o) => s.sched.ready != []
    case LogoutRequest(o) => s.live
    case OtherInit(n) => !OnList(s.sched, Foreign(n))
    case _ => true
  }

  function Next(g: Config, s: Sess, e: Step): Sess
    requires Enabled(s, e)
  {
    match e
    case KernelEvent(ev, o) =>
      (match FirstFree(s.pool) case Some(i) => SchedContext(s, i, ev, 0, o) case None => s)
    case PollMoves(now) => s.(sched := Ripen(s.sched, now))
    case PollRuns(o) => Callback(g, s.(sched := Take(s.sched)), o, s.sched.ready[0])
    case LogoutRequest(o) => LogoutTask(g, s, o)
    case OtherInit(n) => s.(sched := Init(s.sched, Foreign(n)))
    case OtherDelete(n) => s.(sched := Delete(s.sched, Foreign(n)))
    case OtherSchedule(n, now, delay, head) => s.(sched := Schedule(s.sched, now, Foreign(n), delay, head))
  }

  /** A session just allocated and cleared, with the scheduler as others have left it. */
  function Blank(sched: Sched<ActorId>, link: Link): Sess {
    var s := Sess(true, link, seq(CONTEXT_POOL_MAX, _ => None), SendNop, sched, History(0, true, false));
    SetUp(Erase(Erase(s, NopTimer), LoginTimer), LoginTimer)
  }

  /** __session_login_task: a new session starts to connect */
  function LoginStart(g: Config, sched: Sched<ActorId>, address: Address, o: Oracle): Sess {
    ConnectOrRetry(g, Blank(sched, Link(XptWait, NoChange, 0, g.defaultTime2Wait, false, false, false, address, address)), o)
  }

  /** iscsi_sync_session: a session found in the kernel is opened again */
  function SyncStart(g: Config, sched: Sched<ActorId>, address: Address, o: Oracle): Sess {
    ConnReopen(g, Blank(sched, Link(CleanupWait, Reopening, 0, g.defaultTime2Wait, true, false, true, address, address)), o, true)
  }
}
