/** What a session makes of each event, by its observable fields: the state and stage of the
    connection, its addresses and counters, and when which of its actors runs. */
module SessionOutcomes {
  import opened CText
  import opened Scheduling
  import opened SchedSteps
  import opened Sessions
  import opened SessionSteps
  import opened SessionInvariant
  import opened SessionRuns
  import opened SessionDelays

  /** The actor runs `delay` seconds from now, if the clock can be read. */
  ghost predicate Timed(d: Sess, a: ActorId, o: Oracle, delay: uint32) {
    o.clock(a).Some? ==> RunsAt(d.sched, a, o.clock(a).value, delay)
  }

  // ---------- giving up and opening again ----------

  /** The session is freed with none of its actors left, exactly if the teardown works;
      otherwise nothing but its stage has changed, and that only once the kernel's connection
      is gone. */
  ghost predicate GivenUp(s: Sess, d: Sess, o: Oracle) {
    && (!d.live <==> TearsDown(s.link, o))
    && (!d.live ==> Gone(d))
    && (d.live ==> d.link == s.link.(stage := if ConnTearsDown(s.link, o) then Destroyed else s.link.stage))
  }

  /** The connection is opened again at the session's own address. */
  ghost predicate Reopened(g: Config, s: Sess, d: Sess, o: Oracle, stage: Stage, stop: bool) {
    && d.live
    && d.link == s.link.(state := XptWait, stage := stage, saddr := s.link.failback,
                         reopenCnt := s.link.reopenCnt + (if Counts(s, o, stop, false) then 1 else 0),
                         time2wait := if stop && o.reopenStopFails then s.link.time2wait else 0)
    && !On(d, NopTimer) && Timed(d, LoginTimer, o, ReopenDelay(g, s, o, stop, false))
  }

  lemma ShutdownGivesUp(s: Sess, o: Oracle)
    requires Base(s) && s.live
    ensures GivenUp(s, Shutdown(s, o), o)
  {
    hide Base, Shutdown;
    ShutdownFacts(s, o);
    ShutdownOutcome(s, o);
  }

  lemma ConnReopenReopens(g: Config, s: Sess, o: Oracle, stop: bool)
    requires Base(s) && s.live
    ensures Reopened(g, s, ConnReopen(g, s, o, stop), o, s.link.stage, stop)
  {
    hide Base, Reopen, RunsAt;
    var b := WithLink(s, s.link.(saddr := s.link.failback));
    SameBase(s, b);
    ReopenFacts(g, b, o, stop, false);
    ReopenCounts(g, b, o, stop, false);
    if o.clock(LoginTimer).Some? {
      ReopenDue(g, b, o, stop, false, o.clock(LoginTimer).value);
    }
  }

  /** The counters do not depend on the clock. */
  lemma ReopenCounts(g: Config, s: Sess, o: Oracle, stop: bool, redirected: bool)
    requires Base(s)
    ensures var d := Reopen(g, s, o, stop, redirected);
            && d.link.reopenCnt == s.link.reopenCnt + (if Counts(s, o, stop, redirected) then 1 else 0)
            && d.link.time2wait == (if redirected || (stop && o.reopenStopFails) then s.link.time2wait else 0)
  {
    hide Base, Flush, DeleteTimers, ModTimer, ConnectOrRetry;
    FlushBase(s);
    DeleteTimersBase(Flush(s));
    var f := Quiesced(s);
    var w := WithLink(f, f.link.(time2wait := 0));
    var c := WithLink(w, w.link.(reopenCnt := w.link.reopenCnt + 1));
    SameBase(DeleteTimers(Flush(s)), f);
    SameBase(f, w);
    SameBase(f, c);
    ModTimerBase(f, LoginTimer, INTERNAL_ERR_REOPEN_DELAY, o);
    ModTimerBase(f, LoginTimer, o.garbage, o);
    ModTimerBase(w, LoginTimer, f.link.time2wait, o);
    ModTimerBase(c, LoginTimer, 0, o);
    ConnectOrRetryFacts(g, f, o);
    ConnectOrRetryFacts(g, c, o);
  }

  // ---------- a login that goes wrong ----------

  /** A session that has not been logged in before gives up at once on a fatal error, and on
      any other when the time, or without a time the count, for its first login is used up.
      One in recovery gives up while connecting, after a number of attempts that may be
      unlimited. */
  predicate GivesUp(g: Config, s: Sess, o: Oracle, fatal: bool) {
    var retry := match o.retryTime case Some(inTime) => inTime case None => s.link.reopenCnt < g.retryMax;
    && Connecting(s.link.state)
    && match s.link.stage
       case NoChange => fatal || !retry
       case Redirected => fatal || !retry
       case Reopening => s.link.state == XptWait && g.reopenMax != 0 && s.link.reopenCnt > g.reopenMax
       case Cleanup => true
       case Destroyed => false
  }

  /** What becomes of a session whose login went wrong: it gives up, or connects again after
      stopping what there is to stop, or, outside a login, loses its queued events only. */
  ghost predicate LoginFailure(g: Config, s: Sess, d: Sess, o: Oracle, fatal: bool) {
    if GivesUp(g, s, o, fatal) then GivenUp(s, d, o)
    else if Connecting(s.link.state) && s.link.stage != Destroyed then
      Reopened(g, s, d, o, s.link.stage, s.link.state == InLogin || (s.link.stage == NoChange && s.link.hasId))
    else d.live && d.link == s.link && PoolEmpty(d) && TimersStay(s, d)
  }

  lemma LoginEhOutcome(g: Config, s: Sess, o: Oracle, fatal: bool)
    requires Base(s) && s.live
    ensures LoginFailure(g, s, LoginEh(g, s, o, fatal), o, fatal)
  {
    hide Base, Flush, Shutdown, ConnReopen, RunsAt, GivenUp, PoolEmpty;
    FlushBase(s);
    var f := Flush(s);
    ShutdownGivesUp(f, o);
    GivenUpLink(f, s, Shutdown(f, o), o);
    ConnReopenReopens(g, f, o, true);
    ConnReopenReopens(g, f, o, false);
  }

  // ---------- a connection that is lost ----------

  /** What becomes of a session whose connection is lost.  A session that is logging out for
      its user gives up.  A logged-in one connects again at its own address, unless error
      recovery above level 0 was negotiated, which ends in a dead end.  One that is logging
      in again starts over.  In any other state nothing happens. */
  ghost predicate LossHandled(g: Config, s: Sess, d: Sess, o: Oracle) {
    if s.link.logout then GivenUp(s, d, o)
    else if s.link.state == LoggedIn || s.link.state == InLogout then
      if g.erl == 0 || s.link.stage == Reopening then Reopened(g, s, d, o, Reopening, true)
      else d.live && d.link == s.link.(state := CleanupWait) && d.pool == s.pool && d.sched == s.sched
    else if s.link.state == InLogin && s.link.stage == Reopening then Reopened(g, s, d, o, Reopening, true)
    else d == s
  }

  lemma ErrorOutcome(g: Config, s: Sess, o: Oracle)
    requires Base(s) && s.live
    ensures LossHandled(g, s, ErrorHandle(g, s, o), o)
  {
    hide Base, Shutdown, ConnReopen, LoginEh, RunsAt, Gone;
    ShutdownGivesUp(s, o);
    LoginEhOutcome(g, s, o, false);
    var c := WithLink(s, s.link.(state := CleanupWait, stage := if g.erl > 0 then s.link.stage else Reopening));
    SameBase(s, c);
    ConnReopenReopens(g, c, o, true);
  }

  // ---------- timers ----------

  lemma ArmDue(s: Sess, a: ActorId, delay: uint32, head: bool, o: Oracle)
    requires Base(s) && StateOf(s.sched, a) == NotScheduled
    ensures Timed(Arm(s, a, delay, head, o), a, o, delay)
  {
    hide Inv, Place, RunsAt;
    StateTells(s.sched, a);
    if o.clock(a).Some? {
      PlaceDue(s.sched, o.clock(a).value, a, delay, head);
    }
  }

  lemma StartTimerDue(s: Sess, a: ActorId, delay: uint32, o: Oracle)
    requires Base(s) && !On(s, a)
    ensures Timed(StartTimer(s, a, delay, o), a, o, delay)
  {
    hide Base, SetUp, Arm, Timed;
    SetUpBase(s, a);
    ArmDue(SetUp(s, a), a, delay, false, o);
  }

  lemma ModTimerTimed(s: Sess, delay: uint32, o: Oracle)
    requires Base(s)
    ensures Timed(ModTimer(s, LoginTimer, delay, o), LoginTimer, o, delay)
  {
    hide Base, ModTimer, RunsAt;
    if o.clock(LoginTimer).Some? {
      ModTimerDue(s, delay, o, o.clock(LoginTimer).value);
    }
  }

  /** A context waits for `ev` and runs after `delay`. */
  ghost predicate Queued(s: Sess, d: Sess, ev: CtxEvent, delay: uint32, o: Oracle) {
    exists k :: 0 <= k < |s.pool| && s.pool[k].None? && d.pool == s.pool[k := Some(ev)] && Timed(d, Context(k), o, delay)
  }

  lemma SchedContextDue(s: Sess, i: nat, ev: CtxEvent, delay: uint32, o: Oracle)
    requires Base(s) && i < |s.pool| && s.pool[i].None?
    ensures var d := SchedContext(s, i, ev, delay, o); Queued(s, d, ev, delay, o) && d.link == s.link && d.live == s.live
  {
    hide Base, GetContext, SetUp, Arm, Timed;
    BasePool(s);
    SchedContextBase(s, i, ev, delay, o);
    GetBase(s, i, ev);
    SetUpBase(GetContext(s, i, ev), Context(i));
    ArmDue(SetUp(GetContext(s, i, ev), Context(i)), Context(i), delay, ev == ConnError(true), o);
  }

  // ---------- polling the transport ----------

  /** The link of a session whose transport is up: known to the kernel, and with the wait of
      its configuration. */
  function UpLink(g: Config, link: Link): Link {
    link.(hasId := true, time2wait := g.defaultTime2Wait)
  }

  /** What polling comes to while the session waits for its transport: another poll in a
      second, a new attempt in three, or a login, which begins, fails or is given up. */
  ghost predicate Polled(g: Config, s: Sess, d: Sess, o: Oracle, i: nat)
    requires i < |s.pool|
  {
    match o.poll
    case PollFailed =>
      d.live && d.link == s.link && d.pool == s.pool[i := None] && Timed(d, LoginTimer, o, 3)
    case NotYet =>
      d.live && d.link == s.link && Queued(s.(pool := s.pool[i := None]), d, PollConn, 1, o)
    case Connected =>
      var up, new_ := WithLink(s, UpLink(g, s.link)), !s.link.hasId;
      if new_ && o.createSessionFails then GivenUp(s, d, o)
      else if new_ && o.createConnFails then GivenUp(WithLink(s, s.link.(hasId := true)), d, o)
      else if o.bindFails || o.paramsFail || o.hostParamsFail || o.loginBeginFails then LoginFailure(g, up, d, o, false)
      else
        var l := WithLink(up, up.link.(state := InLogin));
        if o.loginReqFails then LoginFailure(g, l, d, o, false) else d.live && d.link == l.link
  }

  lemma PollOutcome(g: Config, s: Sess, o: Oracle, i: nat)
    requires Base(s) && s.live && s.link.state == XptWait && i < |s.pool| && !On(s, Context(i))
    ensures Polled(g, s, PollCb(g, s, o, i), o, i)
  {
    hide Base, ModTimer, LoginEh, SchedContext, ConnectedCb, FirstFree, Timed, LoginFailure, GivenUp, PutContext;
    BasePool(s);
    PutBase(s, i);
    PutPool(s, i);
    var p := PutContext(s, i);
    match o.poll
    case PollFailed =>
      ModTimerTimed(p, CONN_ERR_REOPEN_DELAY, o);
      ModTimerBase(p, LoginTimer, CONN_ERR_REOPEN_DELAY, o);
    case NotYet =>
      assert p.pool[i].None?;
      SchedContextDue(p, FirstFree(p.pool).value, PollConn, 1, o);
    case Connected =>
      ConnectedOutcome(g, s, p, o, i);
  }

  /** The outcome depends on the link, and on which timers run. */
  lemma SameOutcome(g: Config, s: Sess, p: Sess, d: Sess, o: Oracle, fatal: bool)
    requires p.link == s.link && TimersStay(s, p)
    ensures GivenUp(p, d, o) == GivenUp(s, d, o)
    ensures LoginFailure(g, p, d, o, fatal) == LoginFailure(g, s, d, o, fatal)
  {
    hide Timed, Gone, PoolEmpty, TearsDown;
  }

  lemma ConnectedOutcome(g: Config, s: Sess, p: Sess, o: Oracle, i: nat)
    requires Base(p) && p.live && p.link == s.link && i < |s.pool| && o.poll == Connected && TimersStay(s, p)
    ensures Polled(g, s, ConnectedCb(g, p, o), o, i)
  {
    hide Base, LoginEh, Shutdown, LoginFailure, GivenUp;
    var c := WithLink(p, p.link.(hasId := true));
    var u := WithLink(c, c.link.(time2wait := g.defaultTime2Wait));
    var l := WithLink(u, u.link.(state := InLogin));
    SameBase(p, c);
    SameBase(p, u);
    SameBase(p, l);
    var d := ConnectedCb(g, p, o);
    var up := WithLink(s, UpLink(g, s.link));
    SameOutcome(g, s, p, d, o, false);
    SameOutcome(g, WithLink(s, s.link.(hasId := true)), c, d, o, false);
    SameOutcome(g, up, u, d, o, false);
    SameOutcome(g, WithLink(up, up.link.(state := InLogin)), l, d, o, false);
    ShutdownGivesUp(p, o);
    ShutdownGivesUp(c, o);
    LoginEhOutcome(g, u, o, false);
    LoginEhOutcome(g, l, o, false);
  }

  // ---------- the login response ----------

  /** The login is complete: logged in with no attempts on record, the host scanned the first
      time, the login timer off, and the nop timer running if there is one. */
  ghost predicate LoggedOn(g: Config, s: Sess, d: Sess, o: Oracle) {
    var first := s.link.stage == NoChange || s.link.stage == Redirected;
    && d.live && d.nop == SendNop && !On(d, LoginTimer)
    && d.link == s.link.(state := LoggedIn, stage := NoChange, reopenCnt := 0, notify := first && s.link.notify)
    && d.hist == s.hist.(scans := s.hist.scans + if first then 1 else 0)
    && (if g.userspaceNop && g.nopInterval != 0 then Timed(d, NopTimer, o, g.nopInterval) else !On(d, NopTimer))
  }

  lemma FullFeatureOutcome(g: Config, s: Sess, o: Oracle)
    requires Safe(s) && s.live && s.link.state == InLogin
    ensures var d := FullFeature(g, s, o);
            if o.negParamsFail || o.startFails then LoginFailure(g, s.(sched := Delete(s.sched, LoginTimer)), d, o, false)
            else LoggedOn(g, s, d, o)
  {
    hide Base, Delete, LoginEh, StartTimer, Timed, GivenUp, Reopened, PoolEmpty;
    SafeBase(s);
    DelBase(s, LoginTimer);
    var d := Del(s, LoginTimer);
    LoginEhOutcome(g, d, o, false);
    LoggedInBase(d);
    var l := LoggedInNow(d);
    StartTimerBase(l, NopTimer, g.nopInterval, o);
    StartTimerDue(l, NopTimer, g.nopInterval, o);
  }

  /** The session has been moved and waits for its transport at the address it was given;
      its own address is that one if it was moved for good. */
  ghost predicate Relocated(g: Config, s: Sess, d: Sess, o: Oracle, address: Address, forGood: bool) {
    && d.live && d.link.state == XptWait && d.link.saddr == address
    && d.link.failback == (if forGood then address else s.link.failback)
    && d.link.stage == (if s.link.stage == NoChange then Redirected else s.link.stage)
    && d.link.reopenCnt == s.link.reopenCnt && d.link.hasId == s.link.hasId
    && !On(d, NopTimer) && Timed(d, LoginTimer, o, ReopenDelay(g, s, o, true, true))
  }

  lemma RedirectOutcome(g: Config, s: Sess, m: Sess, o: Oracle, forGood: bool)
    requires Base(m) && m.live
    requires m == WithLink(s, s.link.(saddr := m.link.saddr, failback := if forGood then m.link.saddr else s.link.failback,
                                      time2wait := m.link.time2wait))
    ensures Relocated(g, s, LoginRedirect(g, m, o), o, m.link.saddr, forGood)
  {
    hide Base, Reopen, RunsAt;
    var r := WithLink(m, m.link.(stage := if m.link.stage == NoChange then Redirected else m.link.stage));
    SameBase(m, r);
    ReopenFacts(g, r, o, true, true);
    ReopenCounts(g, r, o, true, true);
    if o.clock(LoginTimer).Some? {
      ReopenDue(g, r, o, true, true, o.clock(LoginTimer).value);
    }
  }

  /** The response moves the session: the negotiation says so, or the target's status is
      1/2, a permanent move (section 10.13.5 of RFC 3720). */
  predicate MovedFor(rsp: LoginRsp, forGood: bool) {
    && rsp.final
    && (if forGood then rsp.ret == RetOk && rsp.statusClass == 1 && rsp.statusDetail == 2 else rsp.ret == RetRedirect)
  }

  /** The login may succeed later: no connection, an unusable redirection, another status of
      class 1, or a target error, class 3. */
  predicate TryLater(rsp: LoginRsp) {
    && rsp.final
    && (|| rsp.ret == RetIoError || rsp.ret == RetRedirectionFailed
        || (rsp.ret == RetOk && (rsp.statusClass == 3 || (rsp.statusClass == 1 && rsp.statusDetail != 2))))
  }

  /** The login cannot succeed: an initiator error, class 2, an unknown class, or a
      negotiation that failed. */
  predicate Hopeless(rsp: LoginRsp) {
    && rsp.final
    && (rsp.ret == RetOther || (rsp.ret == RetOk && !(0 <= rsp.statusClass <= 3 && rsp.statusClass != 2)))
  }

  /** What a login response does to the session. */
  ghost predicate Answered(g: Config, s: Sess, d: Sess, o: Oracle) {
    var rsp := o.login;
    var address := match rsp.moved case Some(a) => a case None => s.link.saddr;
    var wait := match rsp.time2wait case Some(w) => w case None => s.link.time2wait;
    var m := WithLink(s, s.link.(saddr := address, time2wait := wait));
    if MovedFor(rsp, true) then Relocated(g, s, d, o, address, true)
    else if MovedFor(rsp, false) then Relocated(g, s, d, o, address, false)
    else if TryLater(rsp) then LoginFailure(g, m, d, o, false)
    else if Hopeless(rsp) then LoginFailure(g, WithLink(m, m.link.(reopenCnt := g.retryMax)), d, o, true)
    else if rsp.fullFeature then
      if o.negParamsFail || o.startFails then LoginFailure(g, m.(sched := Delete(m.sched, LoginTimer)), d, o, false)
      else LoggedOn(g, m, d, o)
    else if o.loginReqFails then LoginFailure(g, m, d, o, false)
    else d == m
  }

  lemma VerdictIs(rsp: LoginRsp)
    ensures var v := VerdictOn(rsp);
            && (v.0 == RedirectNow <==> MovedFor(rsp, true) || MovedFor(rsp, false)) && (v.1 <==> MovedFor(rsp, true))
            && (v.0 == LoginRetry <==> TryLater(rsp))
            && (v.0 == LoginFailed || v.0 == AuthFailed <==> Hopeless(rsp))
            && (v.0 == AuthFailed <==> rsp.final && rsp.ret == RetOk && rsp.statusClass == 2 && rsp.statusDetail in {1, 2})
  {
  }

  /** A login response, by its class and detail. */
  lemma LoginOutcome(g: Config, s: Sess, o: Oracle)
    requires Safe(s) && s.live && s.link.state == InLogin
    ensures Answered(g, s, RecvLoginRsp(g, s, o), o)
  {
    hide Safe, Base, LoginEh, LoginRedirect, FullFeature, VerdictOn, LoginFailure, Relocated, LoggedOn, Delete;
    VerdictIs(o.login);
    MovedSafe(s, o.login);
    var m := WithLink(s, Moved(s.link, o.login));
    SafeBase(m);
    RecountSafe(m, g.retryMax);
    SafeBase(WithLink(m, m.link.(reopenCnt := g.retryMax)));
    match VerdictOn(o.login).0
    case RedirectNow => RedirectOutcome(g, s, m, o, MovedFor(o.login, true));
    case LoginRetry => LoginEhOutcome(g, m, o, false);
    case LoginFailed => LoginEhOutcome(g, WithLink(m, m.link.(reopenCnt := g.retryMax)), o, true);
    case AuthFailed => LoginEhOutcome(g, WithLink(m, m.link.(reopenCnt := g.retryMax)), o, true);
    case LoginGood => LoginEhOutcome(g, m, o, false); FullFeatureOutcome(g, m, o);
  }

  // ---------- PDUs and nops ----------

  /** A logout is sent, and its answer awaited for as long as configured, exactly if the
      session is logged in, sending works and a context is free.  Without a context it is
      sent and nobody waits. */
  ghost predicate LogoutSent(g: Config, s: Sess, d: Sess, o: Oracle, sent: bool) {
    && d.live
    && (sent <==> s.link.state == LoggedIn && !o.sendFails && exists i :: 0 <= i < |s.pool| && s.pool[i].None?)
    && d.link == s.link.(state := if s.link.state == LoggedIn && !o.sendFails then InLogout else s.link.state)
    && (sent ==> Queued(s, d, LogoutTimer, g.logoutTimeout, o))
    && (!sent ==> d.pool == s.pool && d.sched == s.sched)
  }

  lemma SendLogoutOutcome(g: Config, s: Sess, o: Oracle)
    requires Base(s) && s.live
    ensures var r := SendLogout(g, s, o); LogoutSent(g, s, r.0, o, r.1)
  {
    hide Base, SchedContext, FirstFree, Timed;
    SomeFree(s.pool);
    var l := WithLink(s, s.link.(state := InLogout));
    SameBase(s, l);
    if s.link.state == LoggedIn && !o.sendFails && FirstFree(s.pool).Some? {
      BasePool(s);
      SchedContextDue(l, FirstFree(l.pool).value, LogoutTimer, g.logoutTimeout, o);
      QueuedSame(s, l, SchedContext(l, FirstFree(l.pool).value, LogoutTimer, g.logoutTimeout, o), g.logoutTimeout, o);
    }
  }

  lemma QueuedSame(s: Sess, l: Sess, d: Sess, delay: uint32, o: Oracle)
    requires l.pool == s.pool && Queued(l, d, LogoutTimer, delay, o)
    ensures Queued(s, d, LogoutTimer, delay, o)
  {
  }

  /** What a PDU does to a session that is not connecting. */
  ghost predicate PduHandled(g: Config, s: Sess, d: Sess, o: Oracle) {
    match o.pdu
    case NopIn(answer) => NopAnswered(g, s, d, o, answer)
    case LogoutRsp(response, wait) =>
      LossHandled(g, if response in {2, 3} then WithLink(s, s.link.(time2wait := wait)) else s, d, o)
    case AsyncScsi => d == s
    case AsyncLogoutRequest => exists sent :: LogoutSent(g, s, d, o, sent)
    case AsyncDropping(wait) => d == WithLink(s, s.link.(time2wait := wait))
    case AsyncParamNegotiation => LossHandled(g, s, d, o)
    case OtherPdu => d == s
  }

  /** An answer to a nop: the next one is sent after the configured interval. */
  ghost predicate NopAnswered(g: Config, s: Sess, d: Sess, o: Oracle, answer: bool) {
    if g.userspaceNop && answer then
      d.live && d.link == s.link && d.pool == s.pool && d.nop == SendNop && Timed(d, NopTimer, o, g.nopInterval)
    else d == s
  }

  lemma NopInOutcome(g: Config, s: Sess, o: Oracle, answer: bool)
    requires Base(s) && s.live
    ensures NopAnswered(g, s, RecvNop(g, s, o, answer), o, answer)
  {
    hide Base, Del, StartTimer, Timed;
    DelBase(s, NopTimer);
    var d := Del(s, NopTimer).(nop := SendNop);
    SameBase(Del(s, NopTimer), d);
    StartTimerBase(d, NopTimer, g.nopInterval, o);
    StartTimerDue(d, NopTimer, g.nopInterval, o);
  }

  lemma PduOutcome(g: Config, s: Sess, o: Oracle)
    requires Base(s) && s.live
    ensures PduHandled(g, s, HandlePdu(g, s, o), o)
  {
    hide Base, RecvNop, ErrorHandle, SendLogout, LossHandled, LogoutSent, NopAnswered;
    match o.pdu
    case NopIn(answer) => NopInOutcome(g, s, o, answer);
    case LogoutRsp(response, wait) =>
      var w := WithLink(s, s.link.(time2wait := wait));
      SameBase(s, w);
      ErrorOutcome(g, s, o);
      ErrorOutcome(g, w, o);
    case AsyncLogoutRequest => SendLogoutOutcome(g, s, o);
    case AsyncParamNegotiation => ErrorOutcome(g, s, o);
    case _ =>
  }

  /** The nop timer goes off: a nop is sent and its answer awaited, except during a logout;
      without an answer the connection is lost. */
  ghost predicate NopHandled(g: Config, s: Sess, d: Sess, o: Oracle) {
    if s.nop == NopTimeout then LossHandled(g, s, d, o)
    else if s.link.state == InLogout then d == s
    else d.live && d.link == s.link && d.pool == s.pool && d.nop == NopTimeout && Timed(d, NopTimer, o, g.nopTimeout)
  }

  lemma NopOutcome(g: Config, s: Sess, o: Oracle)
    requires Base(s) && s.live && !On(s, NopTimer)
    ensures NopHandled(g, s, NopCb(g, s, o), o)
  {
    hide Base, StartTimer, ErrorHandle, LossHandled, Timed;
    ErrorOutcome(g, s, o);
    var n := s.(nop := NopTimeout);
    SameBase(s, n);
    StartTimerBase(n, NopTimer, g.nopTimeout, o);
    StartTimerDue(n, NopTimer, g.nopTimeout, o);
  }

  // ---------- events ----------

  /** What a queued event does, once its context, number `i`, has run: a lost connection, an
      expired logout, an unusable host, a stop request, a poll, a PDU. */
  ghost predicate EventHandled(g: Config, s: Sess, d: Sess, o: Oracle, i: nat, ev: CtxEvent)
    requires i < |s.pool|
  {
    var p := s.(pool := s.pool[i := None]);
    match ev
    case ConnError(invalidHost) => if invalidHost then GivenUp(p, d, o) else LossHandled(g, p, d, o)
    case LogoutTimer => LossHandled(g, p, d, o)
    case StopConn => StopHandled(g, p, d, o)
    case PollConn => if s.link.state == XptWait then Polled(g, s, d, o, i) else d == p
    case LoginState => d == p
    case RecvPdu =>
      var r := if o.released then p else s;
      if s.link.state == InLogin then Answered(g, r, d, o)
      else if s.link.state in {LoggedIn, InLogout, LogoutRequested} then
        if o.recvFails then d == r else PduHandled(g, r, d, o)
      else d == p
  }

  /** The devices are gone: the logout is sent, or the session given up. */
  ghost predicate StopHandled(g: Config, s: Sess, d: Sess, o: Oracle) {
    if s.link.state == LoggedIn && !o.sendFails then
      if exists i :: 0 <= i < |s.pool| && s.pool[i].None? then LogoutSent(g, s, d, o, true)
      else GivenUp(WithLink(s, s.link.(state := InLogout)), d, o)
    else GivenUp(s, d, o)
  }

  lemma StopOutcome(g: Config, p: Sess, o: Oracle)
    requires Base(p) && p.live
    ensures var r := SendLogout(g, p, o); StopHandled(g, p, if r.1 then r.0 else Shutdown(r.0, o), o)
  {
    hide Base, SchedContext, Shutdown, FirstFree, GivenUp, Queued;
    SendLogoutOutcome(g, p, o);
    SomeFree(p.pool);
    var l := WithLink(p, p.link.(state := InLogout));
    SameBase(p, l);
    ShutdownGivesUp(p, o);
    ShutdownGivesUp(l, o);
  }

  lemma PollElse(g: Config, s: Sess, o: Oracle, i: nat)
    requires s.link.state != XptWait
    ensures PollCb(g, s, o, i) == PutContext(s, i)
  {
  }

  lemma EventOutcome(g: Config, s: Sess, o: Oracle, i: nat, ev: CtxEvent)
    requires Safe(s) && s.live && i < |s.pool| && !On(s, Context(i))
    ensures EventHandled(g, s, ContextCb(g, s, o, i, ev), o, i, ev)
  {
    hide Safe, Base, Shutdown, ErrorHandle, PollCb, RecvLoginRsp, HandlePdu, SendLogout;
    hide GivenUp, LossHandled, Polled, Answered, PduHandled, StopHandled;
    SafeBase(s);
    PutBase(s, i);
    PutKeeps(s, i, o);
    var p := PutContext(s, i);
    match ev
    case ConnError(invalidHost) => ShutdownGivesUp(p, o); ErrorOutcome(g, p, o);
    case LogoutTimer => ErrorOutcome(g, p, o);
    case StopConn => StopOutcome(g, p, o);
    case PollConn =>
      if s.link.state == XptWait {
        PollOutcome(g, s, o, i);
      } else {
        PollElse(g, s, o, i);
      }
    case LoginState =>
    case RecvPdu =>
      var r := if o.released then p else s;
      if s.link.state == InLogin {
        LoginOutcome(g, r, o);
      } else {
        PduOutcome(g, r, o);
      }
  }

  // ---------- whole runs ----------

  /** What running the first ready actor does to the session: its login timer goes off, its
      nop timer, or one of its queued events is due; an actor of others leaves it alone. */
  ghost predicate RunHandled(g: Config, s: Sess, d: Sess, o: Oracle)
    requires s.sched.ready != [] && |s.pool| == CONTEXT_POOL_MAX
  {
    var a, t := s.sched.ready[0], s.(sched := Take(s.sched));
    match a
    case Foreign(_) => d == t
    case LoginTimer => s.live && LoginFailure(g, t, d, o, false)
    case NopTimer => s.live && NopHandled(g, t, d, o)
    case Context(i) =>
      s.live && i < |s.pool| && s.pool[i].Some? && EventHandled(g, t, d, o, i, s.pool[i].value)
  }

  lemma StepOutcome(g: Config, s: Sess, o: Oracle)
    requires Safe(s) && s.sched.ready != []
    ensures |s.pool| == 32 && RunHandled(g, s, Next(g, s, PollRuns(o)), o)
  {
    hide Safe, Base, Take, LoginEh, NopCb, ContextCb, LoginFailure, NopHandled, EventHandled;
    SafeBase(s);
    BasePool(s);
    TakenIs(s);
    var a, t := s.sched.ready[0], s.(sched := Take(s.sched));
    SafeBase(t);
    match a
    case Foreign(_) =>
    case LoginTimer => LoginEhOutcome(g, t, o, false);
    case NopTimer => NopOutcome(g, t, o);
    case Context(i) => EventOutcome(g, t, o, i, t.pool[i].value);
  }

  /** In every run, whatever the kernel does: what each actor does when it runs. */
  lemma RunOutcome(g: Config, s: Sess, o: Oracle, steps: seq<Step>, o': Oracle)
    requires Starts(g, s, o) && Run(g, s, steps) && After(g, s, steps).sched.ready != []
    ensures var e := After(g, s, steps);
            |e.pool| == 32 && RunHandled(g, e, Next(g, e, PollRuns(o')), o')
  {
    hide Run, After, Safe, RunHandled, Next;
    StartSafe(g, s, o);
    RunKeepsSafe(g, s, steps);
    StepOutcome(g, After(g, s, steps), o');
  }

  /** The first ready actor reports that the connection is lost, that a logout was not
      answered, or that a nop was not. */
  predicate ReportsLoss(s: Sess)
    requires s.sched.ready != []
  {
    match s.sched.ready[0]
    case Context(i) => i < |s.pool| && s.pool[i] in {Some(ConnError(false)), Some(LogoutTimer)}
    case NopTimer => s.nop == NopTimeout
    case _ => false
  }

  /** A connection that is lost is opened again: in every run, when a session that is logged
      in and not logging out for its user, without error recovery above level 0, learns of
      it, it waits for its transport again, in recovery and at its own address, and its login
      timer wakes it after what __session_conn_reopen waits. */
  lemma ConnectionLoss(g: Config, s: Sess, o: Oracle, steps: seq<Step>, o': Oracle)
    requires Starts(g, s, o) && Run(g, s, steps)
    requires var e := After(g, s, steps); e.sched.ready != [] && ReportsLoss(e)
    requires var l := After(g, s, steps).link; !l.logout && l.state in {LoggedIn, InLogout} && g.erl == 0
    ensures var e := After(g, s, steps); var d := Next(g, e, PollRuns(o'));
            && e.live && d.live && d.link.state == XptWait && d.link.stage == Reopening
            && d.link.saddr == d.link.failback == e.link.failback
            && !On(d, NopTimer) && Timed(d, LoginTimer, o', ReopenDelay(g, e, o', true, false))
  {
    hide Run, After, Next, RunHandled, Timed, ReportsLoss;
    RunOutcome(g, s, o, steps, o');
    var e := After(g, s, steps);
    LossReopens(g, e, Next(g, e, PollRuns(o')), o');
  }

  lemma LossReopens(g: Config, e: Sess, d: Sess, o: Oracle)
    requires e.sched.ready != [] && |e.pool| == CONTEXT_POOL_MAX && RunHandled(g, e, d, o) && ReportsLoss(e)
    requires !e.link.logout && e.link.state in {LoggedIn, InLogout} && g.erl == 0
    ensures e.live && Reopened(g, e, d, o, Reopening, true)
  {
    hide Take, LoginFailure, GivenUp, Polled, Answered, PduHandled, StopHandled, Reopened;
    var t := e.(sched := Take(e.sched));
    SameReopened(g, e, t, d, o);
    match e.sched.ready[0]
    case Context(i) => SameReopened(g, e, t.(pool := t.pool[i := None]), d, o);
    case NopTimer =>
  }

  lemma SameReopened(g: Config, s: Sess, p: Sess, d: Sess, o: Oracle)
    requires s.link == p.link
    ensures Reopened(g, s, d, o, Reopening, true) == Reopened(g, p, d, o, Reopening, true)
  {
    hide Timed;
  }

  // ---------- the start ----------

  /** A new session connects to its address at once: the transport is polled by its first
      context, or the attempt is repeated in three seconds. */
  lemma LoginStarts(g: Config, q: Sched<ActorId>, address: Address, o: Oracle)
    requires Fresh(q)
    ensures var d := LoginStart(g, q, address, o);
            && d.live && d.link == Link(XptWait, NoChange, 0, g.defaultTime2Wait, false, false, false, address, address)
            && !On(d, NopTimer) && Timed(d, LoginTimer, o, if o.connectFails then 3 else g.loginTimeout)
            && (o.clock(LoginTimer).Some? ==>
                  d.pool == seq(32, i => if i == 0 && !o.connectFails then Some(PollConn) else None))
  {
    hide Fresh, Base, Blank, ConnectOrRetry, RunsAt, ConnectDelay;
    var link := Link(XptWait, NoChange, 0, g.defaultTime2Wait, false, false, false, address, address);
    BlankBase(q, link);
    var b := Blank(q, link);
    BasePool(b);
    ConnectOrRetryFacts(g, b, o);
    ConnectedPool(g, b, o);
  }

  lemma ConnectedPool(g: Config, s: Sess, o: Oracle)
    requires Base(s) && PoolEmpty(s)
    ensures var d := ConnectOrRetry(g, s, o);
            && (o.clock(LoginTimer).Some? ==>
                  d.pool == seq(32, i => if i == 0 && !o.connectFails then Some(PollConn) else None))
            && Timed(d, LoginTimer, o, if o.connectFails then 3 else g.loginTimeout)
  {
    hide Base, ConnectOrRetry, RunsAt;
    BasePool(s);
    if o.clock(LoginTimer).Some? {
      ConnectDue(g, s, o, o.clock(LoginTimer).value);
    }
  }

  /** A session found in the kernel is opened again, and whoever waits for it is told. */
  lemma SyncStarts(g: Config, q: Sched<ActorId>, address: Address, o: Oracle)
    requires Fresh(q)
    ensures var link := Link(CleanupWait, Reopening, 0, g.defaultTime2Wait, true, false, true, address, address);
            Reopened(g, Blank(q, link), SyncStart(g, q, address, o), o, Reopening, true)
  {
    hide Fresh, Base, Blank, ConnReopen, Reopened;
    var link := Link(CleanupWait, Reopening, 0, g.defaultTime2Wait, true, false, true, address, address);
    BlankBase(q, link);
    ConnReopenReopens(g, Blank(q, link), o, true);
  }

  // ---------- requests and kernel events ----------

  /** A logout request: refused while another is being answered, or the first login is not
      over; otherwise the session is given up unless it is logged in, where it is unbound
      first and, if that fails, dropped once a logout was sent. */
  lemma RequestOutcome(g: Config, s: Sess, o: Oracle)
    requires Base(s) && s.live
    ensures var d := LogoutTask(g, s, o); var l := WithLink(s, s.link.(logout := true));
            if s.link.notify || s.link.logout || o.busy || (Connecting(s.link.state) && s.link.stage in {NoChange, Redirected})
            then d == s
            else if s.link.state != LoggedIn then GivenUp(l, d, o)
            else if !o.unbindFails then d.live && d.link == l.link && d.pool == s.pool && d.sched == s.sched
            else if o.sendFails then d.live && d.link == l.link && d.pool == s.pool && d.sched == s.sched
            else if forall i :: 0 <= i < |s.pool| ==> s.pool[i].Some? then d.live && d.link == l.link.(state := InLogout)
            else GivenUp(WithLink(l, l.link.(state := InLogout)), d, o)
  {
    hide Base, Shutdown, SendLogout, GivenUp, Queued;
    var l := s.(link := s.link.(logout := true),
                hist := s.hist.(loggingOut := s.hist.loggingOut || s.link.state == LoggedIn));
    BasePool(s);
    HistBase(s, l);
    ShutdownGivesUp(l, o);
    SendLogoutOutcome(g, l, o);
    SentBase(g, l, o);
    var r := SendLogout(g, l, o);
    ShutdownGivesUp(r.0, o);
    GivenUpLink(l, WithLink(s, l.link), Shutdown(l, o), o);
    GivenUpLink(r.0, WithLink(s, r.0.link), Shutdown(r.0, o), o);
  }

  lemma GivenUpLink(s: Sess, p: Sess, d: Sess, o: Oracle)
    requires s.link == p.link
    ensures GivenUp(s, d, o) == GivenUp(p, d, o)
  {
  }

  lemma SentBase(g: Config, s: Sess, o: Oracle)
    requires Base(s)
    ensures Base(SendLogout(g, s, o).0)
  {
    hide Base, SchedContext;
    BasePool(s);
    if s.link.state == LoggedIn && !o.sendFails {
      var l := WithLink(s, s.link.(state := InLogout));
      SameBase(s, l);
      if FirstFree(l.pool).Some? {
        SchedContextBase(l, FirstFree(l.pool).value, LogoutTimer, g.logoutTimeout, o);
      }
    }
  }

  /** A kernel event waits in the first free context and runs in its turn, behind what is
      ready already; the news that the host is gone runs first. */
  lemma KernelOutcome(g: Config, s: Sess, ev: CtxEvent, o: Oracle)
    requires Safe(s) && Enabled(s, KernelEvent(ev, o))
    ensures var d := Next(g, s, KernelEvent(ev, o));
            match FirstFree(s.pool)
            case None => d == s
            case Some(k) =>
              && d.live && d.link == s.link && d.pool == s.pool[k := Some(ev)]
              && (o.clock(Context(k)).Some? ==>
                    d.sched.ready == if ev == ConnError(true) then [Context(k)] + s.sched.ready else s.sched.ready + [Context(k)])
  {
    hide Safe, Base, FirstFree, GetContext, SetUp, Arm;
    SafeBase(s);
    BasePool(s);
    match FirstFree(s.pool)
    case None =>
    case Some(k) =>
      SchedContextBase(s, k, ev, 0, o);
      var c := GetContext(s, k, ev);
      var u := SetUp(c, Context(k));
      GetBase(s, k, ev);
      SetUpBase(c, Context(k));
      SameReady(s, k, ev);
      ArmReady(u, Context(k), ev == ConnError(true), o);
  }

  lemma SameReady(s: Sess, k: nat, ev: CtxEvent)
    requires k < |s.pool|
    ensures SetUp(GetContext(s, k, ev), Context(k)).sched.ready == s.sched.ready
  {
    hide OnList;
  }

  lemma ArmReady(s: Sess, a: ActorId, head: bool, o: Oracle)
    requires Base(s) && StateOf(s.sched, a) == NotScheduled
    ensures var d := Arm(s, a, 0, head, o);
            o.clock(a).Some? ==> d.sched.ready == if head then [a] + s.sched.ready else s.sched.ready + [a]
  {
    hide Inv, Schedule, DropActor, DropTimer;
    StateTells(s.sched, a);
    ScheduleFacts(s.sched, o.clock(a), a, 0, head, 0);
    if o.clock(a).Some? {
      ReadyIs(s.sched.ready, Arm(s, a, 0, head, o).sched.ready, a, head);
    }
  }
}
