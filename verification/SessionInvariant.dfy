/** What every handler of the session machine keeps: with any kernel, and, for the
    wake-up of a connecting session, with a clock and a teardown that work. */
module SessionInvariant {
  import opened CText
  import opened Scheduling
  import opened Sessions
  import opened SessionSteps

  predicate Connecting(state: ConnState) { state == XptWait || state == InLogin }

  predicate Established(state: ConnState) { state == LoggedIn || state == InLogout }

  /** At most one login-completion scan: once it has run, a connecting session is in
      recovery.  The reopen count is zero while logged in.  An accepted logout is final. */
  predicate LinkInv(link: Link, hist: History) {
    && hist.scans <= 1
    && (hist.scans == 1 && Connecting(link.state) ==> link.stage != NoChange && link.stage != Redirected)
    && (Established(link.state) ==> link.reopenCnt == 0)
    && (hist.loggingOut ==> link.logout && Established(link.state))
  }

  /** No actor of this session is on a list. */
  ghost predicate Gone(s: Sess) {
    PoolEmpty(s) && !On(s, LoginTimer) && !On(s, NopTimer)
  }

  /** What holds with any oracle. */
  ghost predicate Safe(s: Sess) {
    && Base(s) && LinkInv(s.link, s.hist)
    && (if s.live then Connecting(s.link.state) ==> !On(s, NopTimer) else Gone(s))
  }

  /** A connecting session has its login timer on a list.  Shutdown has not failed. */
  ghost predicate Awake(s: Sess) {
    s.live ==> s.link.stage != Cleanup && s.link.stage != Destroyed && (Connecting(s.link.state) ==> On(s, LoginTimer))
  }

  /** The clock works, and so does every step of a teardown. */
  ghost predicate Good(o: Oracle) {
    (forall a :: o.clock(a).Some?) && !o.stopFails && !o.destroyConnFails && !o.destroySessionFails
  }

  // ---------- shutdown and reopen ----------

  /** session_conn_shutdown frees the session and leaves none of its actors on a list, or
      leaves everything but the recovery stage as it was. */
  lemma ShutdownFacts(s: Sess, o: Oracle)
    requires Base(s)
    ensures var d := Shutdown(s, o);
            && Base(d) && d.hist == s.hist && d.link == s.link.(stage := d.link.stage)
            && (d.live && s.live ==> d == WithLink(s, d.link) && d.link.stage in {s.link.stage, Destroyed})
            && (!d.live && s.live ==> Gone(d) && d.link == s.link)
            && (Good(o) ==> !d.live)
  {
    hide Base, DeleteTimers, Flush;
    if !ConnStays(s, o) && !(s.link.hasId && o.destroySessionFails) {
      DeleteTimersBase(s);
      FlushBase(DeleteTimers(s));
      SameBase(Flush(DeleteTimers(s)), Shutdown(s, o));
    } else {
      SameBase(s, Shutdown(s, o));
    }
  }

  lemma SameBase(s: Sess, d: Sess)
    requires d == s.(live := d.live, link := d.link, nop := d.nop)
    ensures Base(s) ==> Base(d)
    ensures forall a :: On(d, a) == On(s, a)
  {
  }

  lemma ConnectFacts(g: Config, s: Sess, o: Oracle)
    requires Base(s)
    ensures var r := Connect(g, s, o);
            && Base(r.0) && On(r.0, NopTimer) == On(s, NopTimer)
            && r.0 == s.(sched := r.0.sched, pool := r.0.pool)
            && (r.1 && o.clock(LoginTimer).Some? ==> On(r.0, LoginTimer))
  {
    hide Base, GetContext, PutContext, SchedContext, ModTimer;
    BasePool(s);
    match FirstFree(s.pool)
    case None =>
    case Some(i) =>
      if o.connectFails {
        GetBase(s, i, PollConn);
        PutBase(GetContext(s, i, PollConn), i);
      } else {
        SchedContextBase(s, i, PollConn, 0, o);
        ModTimerBase(SchedContext(s, i, PollConn, 0, o), LoginTimer, g.loginTimeout, o);
      }
  }

  lemma ConnectOrRetryFacts(g: Config, s: Sess, o: Oracle)
    requires Base(s)
    ensures var d := ConnectOrRetry(g, s, o);
            && Base(d) && On(d, NopTimer) == On(s, NopTimer)
            && d == s.(sched := d.sched, pool := d.pool)
            && (o.clock(LoginTimer).Some? ==> On(d, LoginTimer))
  {
    hide Base, Connect, ModTimer;
    ConnectFacts(g, s, o);
    var r := Connect(g, s, o);
    ModTimerBase(r.0, LoginTimer, CONN_ERR_REOPEN_DELAY, o);
  }

  /** __session_conn_reopen leaves the connection waiting for its transport, with the login
      timer running whenever the clock works. */
  lemma ReopenFacts(g: Config, s: Sess, o: Oracle, stop: bool, redirected: bool)
    requires Base(s)
    ensures var d := Reopen(g, s, o, stop, redirected);
            && Base(d) && d.live == s.live && d.hist == s.hist && !On(d, NopTimer)
            && d.link == s.link.(state := XptWait, reopenCnt := d.link.reopenCnt, time2wait := d.link.time2wait)
            && (o.clock(LoginTimer).Some? ==> On(d, LoginTimer))
  {
    hide Base, DeleteTimers, Flush, ModTimer, ConnectOrRetry;
    FlushBase(s);
    DeleteTimersBase(Flush(s));
    var f := DeleteTimers(Flush(s));
    var f' := WithLink(f, f.link.(state := XptWait));
    var w := WithLink(f', f'.link.(time2wait := 0));
    var c := WithLink(w, w.link.(reopenCnt := w.link.reopenCnt + 1));
    SameBase(f, f');
    SameBase(f, w);
    SameBase(f, c);
    if stop && o.reopenStopFails {
      ModTimerBase(f', LoginTimer, INTERNAL_ERR_REOPEN_DELAY, o);
    } else if redirected {
      ModTimerBase(f', LoginTimer, o.garbage, o);
      ConnectOrRetryFacts(g, f', o);
    } else if f'.link.time2wait != 0 {
      ModTimerBase(w, LoginTimer, f'.link.time2wait, o);
    } else {
      ModTimerBase(c, LoginTimer, 0, o);
      ConnectOrRetryFacts(g, c, o);
    }
  }

  /** Reopening a session that is not logged in keeps it safe and wakes it. */
  lemma ReopenSafe(g: Config, s: Sess, o: Oracle, stop: bool, redirected: bool)
    requires Base(s) && s.live && !s.hist.loggingOut && s.hist.scans <= 1
    requires s.hist.scans == 1 ==> s.link.stage != NoChange && s.link.stage != Redirected
    ensures Safe(Reopen(g, s, o, stop, redirected))
    ensures s.link.stage != Cleanup && s.link.stage != Destroyed && Good(o) ==> Awake(Reopen(g, s, o, stop, redirected))
  {
    hide Base, Reopen;
    ReopenFacts(g, s, o, stop, redirected);
  }

  lemma ConnReopenSafe(g: Config, s: Sess, o: Oracle, stop: bool)
    requires Base(s) && s.live && !s.hist.loggingOut && s.hist.scans <= 1
    requires s.hist.scans == 1 ==> s.link.stage != NoChange && s.link.stage != Redirected
    ensures Safe(ConnReopen(g, s, o, stop))
    ensures s.link.stage != Cleanup && s.link.stage != Destroyed && Good(o) ==> Awake(ConnReopen(g, s, o, stop))
    ensures ConnReopen(g, s, o, stop).hist == s.hist
  {
    hide Base, Reopen;
    var b := WithLink(s, s.link.(saddr := s.link.failback));
    SameBase(s, b);
    ReopenSafe(g, b, o, stop, false);
    ReopenFacts(g, b, o, stop, false);
  }

  lemma ShutdownSafe(s: Sess, o: Oracle)
    requires Safe(s) && s.live
    ensures Safe(Shutdown(s, o)) && Shutdown(s, o).hist == s.hist
    ensures Good(o) ==> Awake(Shutdown(s, o))
  {
    hide Base, Shutdown;
    ShutdownFacts(s, o);
    var d := Shutdown(s, o);
    if d.live {
      SameBase(s, d);
    }
  }

  // ---------- parts of handlers ----------

  lemma SafeBase(s: Sess)
    requires Safe(s)
    ensures Base(s)
    ensures s.live && Connecting(s.link.state) ==> !On(s, NopTimer)
  {
  }

  lemma FlushSafe(s: Sess)
    requires Safe(s) && s.live
    ensures var f := Flush(s); Safe(f) && f == s.(sched := f.sched, pool := f.pool)
  {
    hide Base, Flush;
    FlushBase(s);
  }

  lemma DelSafe(s: Sess, a: ActorId)
    requires Safe(s) && s.live && (a.LoginTimer? || a.NopTimer?)
    ensures var d := Del(s, a); Safe(d) && d == s.(sched := d.sched)
  {
    hide Base, Del;
    DelBase(s, a);
  }

  /** A connecting session whose transport is up, and a session whose logout is accepted. */
  lemma LinkSafe(s: Sess, d: Sess)
    requires Safe(s) && s.live && d == s.(link := d.link, hist := d.hist)
    requires d.hist.sound && LinkInv(d.link, d.hist) && (Connecting(d.link.state) ==> Connecting(s.link.state))
    ensures Safe(d)
  {
    hide Base;
    HistBase(s, d);
  }

  lemma MovedSafe(s: Sess, rsp: LoginRsp)
    requires Safe(s) && s.live && s.link.state == InLogin
    ensures Safe(WithLink(s, Moved(s.link, rsp)))
  {
    hide Base, VerdictOn;
    BasePool(s);
    LinkSafe(s, WithLink(s, Moved(s.link, rsp)));
  }

  lemma RecountSafe(s: Sess, count: nat)
    requires Safe(s) && s.live && s.link.state == InLogin
    ensures Safe(WithLink(s, s.link.(reopenCnt := count)))
  {
    hide Base;
    BasePool(s);
    LinkSafe(s, WithLink(s, s.link.(reopenCnt := count)));
  }

  lemma WaitSafe(s: Sess, wait: uint32)
    requires Safe(s) && s.live
    ensures Safe(WithLink(s, s.link.(time2wait := wait)))
  {
    hide Base;
    BasePool(s);
    LinkSafe(s, WithLink(s, s.link.(time2wait := wait)));
  }

  /** The transport of a connecting session is up, and its login begins. */
  lemma CreatedSafe(s: Sess, wait: uint32)
    requires Safe(s) && s.live && s.link.state == XptWait
    ensures var c := WithLink(s, s.link.(hasId := true)); Safe(c) && Safe(WithLink(c, c.link.(time2wait := wait)))
  {
    hide Base;
    BasePool(s);
    LinkSafe(s, WithLink(s, s.link.(hasId := true)));
    LinkSafe(s, WithLink(s, s.link.(hasId := true, time2wait := wait)));
  }

  lemma InLoginSafe(s: Sess)
    requires Safe(s) && s.live && s.link.state == XptWait
    ensures Safe(WithLink(s, s.link.(state := InLogin)))
  {
    hide Base;
    BasePool(s);
    LinkSafe(s, WithLink(s, s.link.(state := InLogin)));
  }

  lemma AcceptedSafe(s: Sess)
    requires Safe(s) && s.live
    ensures Safe(s.(link := s.link.(logout := true),
                    hist := s.hist.(loggingOut := s.hist.loggingOut || s.link.state == LoggedIn)))
  {
    hide Base;
    BasePool(s);
    LinkSafe(s, s.(link := s.link.(logout := true),
                   hist := s.hist.(loggingOut := s.hist.loggingOut || s.link.state == LoggedIn)));
  }

  /** The nop timer that has gone off may be set up again. */
  lemma NopOff(s: Sess)
    requires !On(s, NopTimer)
    ensures !On(s.(nop := NopTimeout), NopTimer)
  {
  }

  lemma ReopenAddressKept(g: Config, s: Sess, o: Oracle)
    requires Base(s)
    ensures LoginRedirect(g, s, o).link.saddr == s.link.saddr && LoginRedirect(g, s, o).link.failback == s.link.failback
  {
    hide Base, Reopen;
    var r := WithLink(s, s.link.(stage := if s.link.stage == NoChange then Redirected else s.link.stage));
    SameBase(s, r);
    ReopenFacts(g, r, o, true, true);
  }

  // ---------- errors ----------

  /** iscsi_login_eh; the login timer may just have gone off */
  lemma LoginEhSafe(g: Config, s: Sess, o: Oracle, fatal: bool)
    requires Safe(s) && s.live
    ensures var d := LoginEh(g, s, o, fatal);
            && Safe(d) && d.hist == s.hist
            && (Good(o) && s.link.stage != Cleanup && s.link.stage != Destroyed ==> Awake(d))
  {
    hide Base, Flush, Shutdown, ConnReopen;
    FlushBase(s);
    var f := Flush(s);
    ShutdownSafe(f, o);
    if Connecting(s.link.state) {
      ConnReopenSafe(g, f, o, true);
      ConnReopenSafe(g, f, o, false);
    }
  }

  lemma ErrorHandleSafe(g: Config, s: Sess, o: Oracle)
    requires Safe(s) && s.live
    ensures var d := ErrorHandle(g, s, o);
            Safe(d) && d.hist == s.hist && (Good(o) && Awake(s) ==> Awake(d))
  {
    hide Base, Shutdown, ConnReopen, LoginEh;
    if s.link.logout {
      ShutdownSafe(s, o);
    } else if Established(s.link.state) {
      var c := WithLink(s, s.link.(state := CleanupWait, stage := if g.erl > 0 then s.link.stage else Reopening));
      SameBase(s, c);
      if c.link.stage == Reopening {
        ConnReopenSafe(g, c, o, true);
      }
    } else if s.link.state == InLogin {
      LoginEhSafe(g, s, o, false);
    }
  }

  // ---------- login ----------

  /** Handlers neither take back a logout nor forget a scan. */
  predicate Later(h: History, h': History) {
    h.scans <= h'.scans && (h.loggingOut ==> h'.loggingOut)
  }

  /** What a handler does for a session that is safe. */
  ghost predicate Keeps(s: Sess, d: Sess, o: Oracle) {
    Safe(d) && Later(s.hist, d.hist) && (Good(o) && Awake(s) ==> Awake(d))
  }

  lemma FullFeatureKeeps(g: Config, s: Sess, o: Oracle)
    requires Safe(s) && s.live && s.link.state == InLogin
    ensures Keeps(s, FullFeature(g, s, o), o)
  {
    hide Base, Del, LoginEh, StartTimer;
    DelBase(s, LoginTimer);
    var d := Del(s, LoginTimer);
    if o.negParamsFail || o.startFails {
      LoginEhSafe(g, d, o, false);
    } else {
      var l := LoggedInNow(d);
      BasePool(d);
      HistBase(d, l);
      StartTimerBase(l, NopTimer, g.nopInterval, o);
    }
  }

  lemma HistBase(s: Sess, d: Sess)
    requires d == s.(live := d.live, link := d.link, nop := d.nop, hist := d.hist) && d.hist.sound
    ensures Base(s) ==> Base(d)
    ensures forall a :: On(d, a) == On(s, a)
  {
  }

  lemma LoggedInBase(s: Sess)
    requires Base(s)
    ensures Base(LoggedInNow(s)) && forall a :: On(LoggedInNow(s), a) == On(s, a)
  {
    hide Base;
    BasePool(s);
    HistBase(s, LoggedInNow(s));
  }

  /** Login is complete: no login timer, and the nop timer runs if there is one. */
  lemma LoggedInFacts(g: Config, s: Sess, o: Oracle)
    requires Safe(s) && s.live && s.link.state == InLogin && !o.negParamsFail && !o.startFails
    ensures var d := FullFeature(g, s, o);
            && d.link.state == LoggedIn && d.link.reopenCnt == 0 && !On(d, LoginTimer)
            && (g.userspaceNop && g.nopInterval != 0 && o.clock(NopTimer).Some? ==> On(d, NopTimer))
  {
    hide Base, Del, StartTimer;
    DelBase(s, LoginTimer);
    var d := Del(s, LoginTimer);
    LoggedInBase(d);
    StartTimerBase(LoggedInNow(d), NopTimer, g.nopInterval, o);
  }

  /** A change of address or count alone. */
  lemma RelinkKeeps(s: Sess, d: Sess, o: Oracle)
    requires Safe(s) && d == WithLink(s, d.link) && LinkInv(d.link, s.hist)
    requires d.link.state == s.link.state && d.link.stage == s.link.stage
    ensures Keeps(s, d, o)
  {
    hide Base;
    SameBase(s, d);
  }

  lemma LoginRedirectKeeps(g: Config, s: Sess, o: Oracle)
    requires Safe(s) && s.live && s.link.state == InLogin
    ensures Keeps(s, LoginRedirect(g, s, o), o)
  {
    hide Base, Reopen;
    var r := WithLink(s, s.link.(stage := if s.link.stage == NoChange then Redirected else s.link.stage));
    SameBase(s, r);
    ReopenSafe(g, r, o, true, true);
    ReopenFacts(g, r, o, true, true);
  }

  lemma ActOnLoginKeeps(g: Config, s: Sess, o: Oracle, verdict: LoginVerdict)
    requires Safe(s) && s.live && s.link.state == InLogin
    ensures Keeps(s, ActOnLogin(g, s, o, verdict), o)
  {
    hide Base, LoginEh, LoginRedirect, FullFeature;
    var q := WithLink(s, s.link.(reopenCnt := g.retryMax));
    match verdict
    case RedirectNow => LoginRedirectKeeps(g, s, o);
    case LoginRetry => LoginEhSafe(g, s, o, false);
    case LoginFailed => RelinkKeeps(s, q, o); LoginEhSafe(g, q, o, true);
    case AuthFailed => RelinkKeeps(s, q, o); LoginEhSafe(g, q, o, true);
    case LoginGood => LoginEhSafe(g, s, o, false); FullFeatureKeeps(g, s, o);
  }

  lemma RecvLoginRspKeeps(g: Config, s: Sess, o: Oracle)
    requires Safe(s) && s.live && s.link.state == InLogin
    ensures Keeps(s, RecvLoginRsp(g, s, o), o)
  {
    hide Base, VerdictOn, ActOnLogin;
    var m := WithLink(s, Moved(s.link, o.login));
    RelinkKeeps(s, m, o);
    ActOnLoginKeeps(g, m, o, VerdictOn(o.login).0);
  }

  // ---------- logout ----------

  lemma SendLogoutKeeps(g: Config, s: Sess, o: Oracle)
    requires Safe(s) && s.live
    ensures var r := SendLogout(g, s, o);
            && Keeps(s, r.0, o) && r.0.live && r.0.hist == s.hist && r.0.link == s.link.(state := r.0.link.state)
            && (r.1 ==> r.0.link.state == InLogout)
  {
    hide Base, SchedContext;
    BasePool(s);
    if s.link.state == LoggedIn && !o.sendFails {
      var l := WithLink(s, s.link.(state := InLogout));
      SameBase(s, l);
      match FirstFree(l.pool)
      case None =>
      case Some(i) => SchedContextBase(l, i, LogoutTimer, g.logoutTimeout, o);
    }
  }

  lemma LogoutTaskKeeps(g: Config, s: Sess, o: Oracle)
    requires Safe(s) && s.live
    ensures Keeps(s, LogoutTask(g, s, o), o)
  {
    hide Base, Shutdown, SendLogout;
    var l := s.(link := s.link.(logout := true),
                hist := s.hist.(loggingOut := s.hist.loggingOut || s.link.state == LoggedIn));
    if !RefusesLogout(s, o) {
      BasePool(s);
      HistBase(s, l);
      ShutdownSafe(l, o);
      SendLogoutKeeps(g, l, o);
      ShutdownSafe(SendLogout(g, l, o).0, o);
    }
  }

  // ---------- actors at work ----------

  lemma ConnectedKeeps(g: Config, s: Sess, o: Oracle)
    requires Safe(s) && s.live && s.link.state == XptWait
    ensures Keeps(s, ConnectedCb(g, s, o), o)
  {
    hide Base, LoginEh, Shutdown;
    var c := WithLink(s, s.link.(hasId := true));
    var p := WithLink(c, c.link.(time2wait := g.defaultTime2Wait));
    var l := WithLink(p, p.link.(state := InLogin));
    SameBase(s, c);
    SameBase(s, p);
    SameBase(s, l);
    ShutdownSafe(s, o);
    ShutdownSafe(c, o);
    LoginEhSafe(g, p, o, false);
    LoginEhSafe(g, l, o, false);
  }

  /** A context whose actor has run and that is given back. */
  lemma PutKeeps(s: Sess, i: nat, o: Oracle)
    requires Safe(s) && !On(s, Context(i))
    ensures Keeps(s, PutContext(s, i), o)
    ensures PutContext(s, i).live == s.live && PutContext(s, i).link == s.link && PutContext(s, i).hist == s.hist
    ensures forall a :: On(PutContext(s, i), a) == On(s, a)
  {
    hide Base;
    PutBase(s, i);
  }

  lemma PollKeeps(g: Config, s: Sess, o: Oracle, i: nat)
    requires Safe(s) && s.live && !On(s, Context(i))
    ensures Keeps(s, PollCb(g, s, o, i), o)
  {
    hide Base, PutContext, ModTimer, LoginEh, SchedContext, ConnectedCb;
    PutKeeps(s, i, o);
    var p := PutContext(s, i);
    BasePool(p);
    if p.link.state == XptWait {
      match o.poll
      case PollFailed => ModTimerBase(p, LoginTimer, CONN_ERR_REOPEN_DELAY, o);
      case NotYet =>
        if FirstFree(p.pool).None? {
          LoginEhSafe(g, p, o, false);
        } else {
          SchedContextBase(p, FirstFree(p.pool).value, PollConn, 1, o);
        }
      case Connected => ConnectedKeeps(g, p, o);
    }
  }

  lemma NopKeeps(g: Config, s: Sess, o: Oracle, answer: bool)
    requires Safe(s) && s.live && !Connecting(s.link.state)
    ensures Keeps(s, RecvNop(g, s, o, answer), o)
  {
    hide Base, Del, StartTimer;
    DelBase(s, NopTimer);
    var d := Del(s, NopTimer);
    SameBase(d, d.(nop := SendNop));
    StartTimerBase(d.(nop := SendNop), NopTimer, g.nopInterval, o);
  }

  lemma HandlePduKeeps(g: Config, s: Sess, o: Oracle)
    requires Safe(s) && s.live && !Connecting(s.link.state)
    ensures Keeps(s, HandlePdu(g, s, o), o)
  {
    hide Base, RecvNop, ErrorHandle, SendLogout;
    match o.pdu
    case NopIn(answer) => NopKeeps(g, s, o, answer);
    case LogoutRsp(response, wait) =>
      RelinkKeeps(s, WithLink(s, s.link.(time2wait := wait)), o);
      ErrorHandleSafe(g, s, o);
      ErrorHandleSafe(g, WithLink(s, s.link.(time2wait := wait)), o);
    case AsyncLogoutRequest => SendLogoutKeeps(g, s, o);
    case AsyncDropping(wait) => RelinkKeeps(s, WithLink(s, s.link.(time2wait := wait)), o);
    case AsyncParamNegotiation => ErrorHandleSafe(g, s, o);
    case _ =>
  }

  lemma RecvPduKeeps(g: Config, s: Sess, o: Oracle, i: nat)
    requires Safe(s) && s.live && !On(s, Context(i))
    ensures Keeps(s, RecvPduCb(g, s, o, i), o)
  {
    hide Base, PutContext, RecvLoginRsp, HandlePdu;
    PutKeeps(s, i, o);
    var r := if o.released then PutContext(s, i) else s;
    if s.link.state == InLogin {
      RecvLoginRspKeeps(g, r, o);
    } else if s.link.state in {LoggedIn, InLogout, LogoutRequested} {
      HandlePduKeeps(g, r, o);
    }
  }

  lemma StopKeeps(g: Config, s: Sess, o: Oracle, i: nat)
    requires Safe(s) && s.live && !On(s, Context(i))
    ensures Keeps(s, StopCb(g, s, o, i), o)
  {
    hide Base, PutContext, SendLogout, Shutdown;
    PutKeeps(s, i, o);
    SendLogoutKeeps(g, PutContext(s, i), o);
    ShutdownSafe(SendLogout(g, PutContext(s, i), o).0, o);
  }

  lemma ContextKeeps(g: Config, s: Sess, o: Oracle, i: nat, ev: CtxEvent)
    requires Safe(s) && s.live && !On(s, Context(i))
    ensures Keeps(s, ContextCb(g, s, o, i, ev), o)
  {
    hide Base, PutContext, RecvPduCb, Shutdown, ErrorHandle, PollCb, StopCb;
    PutKeeps(s, i, o);
    var p := PutContext(s, i);
    match ev
    case RecvPdu => RecvPduKeeps(g, s, o, i);
    case ConnError(invalidHost) => ShutdownSafe(p, o); ErrorHandleSafe(g, p, o);
    case PollConn => PollKeeps(g, s, o, i);
    case LogoutTimer => ErrorHandleSafe(g, p, o);
    case StopConn => StopKeeps(g, s, o, i);
    case LoginState =>
  }

  lemma NopCbKeeps(g: Config, s: Sess, o: Oracle)
    requires Safe(s) && s.live && !On(s, NopTimer) && !Connecting(s.link.state)
    ensures Keeps(s, NopCb(g, s, o), o)
  {
    hide Base, StartTimer, ErrorHandle;
    ErrorHandleSafe(g, s, o);
    SameBase(s, s.(nop := NopTimeout));
    StartTimerBase(s.(nop := NopTimeout), NopTimer, g.nopTimeout, o);
  }
}
