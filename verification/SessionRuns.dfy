/** The session machine over whole runs. */
module SessionRuns {
  import opened CText
  import opened Scheduling
  import opened SchedSteps
  import opened Sessions
  import opened SessionSteps
  import opened SessionInvariant

  /** A scheduler on which no actor of the new session is listed. */
  ghost predicate Fresh(q: Sched<ActorId>) {
    Inv(q) && forall a: ActorId :: !a.Foreign? ==> !Active(StateOf(q, a))
  }

  ghost predicate GoodStep(e: Step) {
    match e
    case KernelEvent(_, o) => Good(o)
    case PollRuns(o) => Good(o)
    case LogoutRequest(o) => Good(o)
    case _ => true
  }

  // ---------- the start ----------

  lemma BlankBase(q: Sched<ActorId>, link: Link)
    requires Fresh(q)
    ensures var s := Blank(q, link);
            && Base(s) && PoolEmpty(s) && !On(s, LoginTimer) && !On(s, NopTimer)
            && s.live && s.link == link && s.hist == History(0, true, false)
  {
    hide Inv, SetUp, Erase;
    var s := Sess(true, link, seq(CONTEXT_POOL_MAX, _ => None), SendNop, q, History(0, true, false));
    assert Base(s);
    EraseBase(s, NopTimer);
    var e := Erase(s, NopTimer);
    EraseBase(e, LoginTimer);
    SetUpBase(Erase(e, LoginTimer), LoginTimer);
  }

  lemma LoginStartSafe(g: Config, q: Sched<ActorId>, address: Address, o: Oracle)
    requires Fresh(q)
    ensures Safe(LoginStart(g, q, address, o)) && !LoginStart(g, q, address, o).hist.loggingOut
    ensures Good(o) ==> Awake(LoginStart(g, q, address, o))
  {
    hide Fresh, Base, Blank, ConnectOrRetry;
    var link := Link(XptWait, NoChange, 0, g.defaultTime2Wait, false, false, false, address, address);
    BlankBase(q, link);
    ConnectOrRetryFacts(g, Blank(q, link), o);
  }

  lemma SyncStartSafe(g: Config, q: Sched<ActorId>, address: Address, o: Oracle)
    requires Fresh(q)
    ensures Safe(SyncStart(g, q, address, o)) && !SyncStart(g, q, address, o).hist.loggingOut
    ensures Good(o) ==> Awake(SyncStart(g, q, address, o))
  {
    hide Fresh, Base, Blank, ConnReopen;
    var link := Link(CleanupWait, Reopening, 0, g.defaultTime2Wait, true, false, true, address, address);
    BlankBase(q, link);
    ConnReopenSafe(g, Blank(q, link), o, true);
  }

  // ---------- one step ----------

  /** Only the scheduler changes, and no actor of the session leaves or joins a list. */
  lemma SchedKeeps(s: Sess, q: Sched<ActorId>)
    requires Safe(s) && Inv(q)
    requires forall a: ActorId :: !a.Foreign? ==> Active(StateOf(q, a)) == Active(StateOf(s.sched, a))
    ensures var d := s.(sched := q); Safe(d) && (Awake(s) ==> Awake(d))
  {
    hide Inv;
    assert forall a: ActorId :: !a.Foreign? ==> On(s.(sched := q), a) == On(s, a);
  }

  lemma OtherKeeps(g: Config, s: Sess, e: Step)
    requires Safe(s) && Enabled(s, e) && (e.PollMoves? || e.OtherInit? || e.OtherDelete? || e.OtherSchedule?)
    ensures var d := Next(g, s, e); Safe(d) && d.hist == s.hist && (Awake(s) ==> Awake(d))
  {
    hide Inv, Base, Ripen, Delete, Schedule, OnList;
    var d := Next(g, s, e);
    assert Inv(s.sched) by { SafeInv(s); }
    match e {
      case PollMoves(now) =>
        RipenFacts(s.sched, now, 0);
        forall a ensures Active(StateOf(d.sched, a)) == Active(StateOf(s.sched, a)) {
          RipenStates(s.sched, now, a);
        }
      case OtherInit(n) =>
        OnListIs(s, Foreign(n));
        StateTells(s.sched, Foreign(n));
        IdleFacts(s.sched, Foreign(n));
      case OtherDelete(n) => DeleteStates(s.sched, Foreign(n));
      case OtherSchedule(n, at, delay, head) => ScheduleStates(s.sched, at, Foreign(n), delay, head);
    }
    SchedKeeps(s, d.sched);
  }

  lemma SafeInv(s: Sess)
    requires Safe(s)
    ensures Inv(s.sched)
  {
  }

  /** actor_poll has taken actor `a` off ready_list. */
  lemma TakenIs(s: Sess)
    requires Safe(s) && s.sched.ready != []
    ensures var a, t := s.sched.ready[0], s.(sched := Take(s.sched));
            && Safe(t) && !On(t, a) && On(s, a) && OthersStay(s, t, a) && t == s.(sched := t.sched)
            && (s.live || a.Foreign?)
            && (a.NopTimer? ==> !Connecting(s.link.state))
            && (a.Context? ==> a.i < |s.pool| && s.pool[a.i].Some?)
  {
    hide Inv;
    TakeFacts(s.sched);
    StateTells(s.sched, s.sched.ready[0]);
  }

  lemma RunKeeps(g: Config, s: Sess, o: Oracle)
    requires Safe(s) && s.sched.ready != []
    ensures var d := Next(g, s, PollRuns(o));
            Safe(d) && Later(s.hist, d.hist) && (Good(o) && Awake(s) ==> Awake(d))
  {
    hide Base, Take, LoginEh, NopCb, ContextCb;
    TakenIs(s);
    var a, t := s.sched.ready[0], s.(sched := Take(s.sched));
    match a
    case Foreign(_) =>
    case LoginTimer => LoginEhSafe(g, t, o, false);
    case NopTimer => NopCbKeeps(g, t, o);
    case Context(i) => ContextKeeps(g, t, o, i, t.pool[i].value);
  }

  lemma KernelKeeps(g: Config, s: Sess, ev: CtxEvent, o: Oracle)
    requires Safe(s) && Enabled(s, KernelEvent(ev, o))
    ensures var d := Next(g, s, KernelEvent(ev, o));
            Safe(d) && d.hist == s.hist && (Awake(s) ==> Awake(d))
  {
    hide Base, SchedContext;
    BasePool(s);
    match FirstFree(s.pool)
    case Some(i) => SchedContextBase(s, i, ev, 0, o);
    case None =>
  }

  lemma StepKeeps(g: Config, s: Sess, e: Step)
    requires Safe(s) && Enabled(s, e)
    ensures var d := Next(g, s, e);
            Safe(d) && Later(s.hist, d.hist) && (GoodStep(e) && Awake(s) ==> Awake(d))
  {
    hide Safe, Awake, Callback, LogoutTask;
    match e
    case KernelEvent(ev, o) => KernelKeeps(g, s, ev, o);
    case PollRuns(o) => RunKeeps(g, s, o);
    case LogoutRequest(o) => LogoutTaskKeeps(g, s, o);
    case _ => OtherKeeps(g, s, e);
  }

  // ---------- runs ----------

  predicate Run(g: Config, s: Sess, steps: seq<Step>)
    decreases |steps|
  {
    steps == [] || (Enabled(s, steps[0]) && Run(g, Next(g, s, steps[0]), steps[1..]))
  }

  function After(g: Config, s: Sess, steps: seq<Step>): Sess
    requires Run(g, s, steps)
    decreases |steps|
  {
    if steps == [] then s else After(g, Next(g, s, steps[0]), steps[1..])
  }

  ghost predicate AllGood(steps: seq<Step>) {
    forall i :: 0 <= i < |steps| ==> GoodStep(steps[i])
  }

  lemma {:induction false} RunKeepsSafe(g: Config, s: Sess, steps: seq<Step>)
    requires Safe(s) && Run(g, s, steps)
    ensures var d := After(g, s, steps);
            Safe(d) && Later(s.hist, d.hist) && (AllGood(steps) && Awake(s) ==> Awake(d))
    decreases |steps|
  {
    hide Safe, Awake, Enabled, Next, GoodStep;
    if steps != [] {
      StepKeeps(g, s, steps[0]);
      RunKeepsSafe(g, Next(g, s, steps[0]), steps[1..]);
    }
  }

  /** A session begins with a login or with the recovery of one found in the kernel. */
  ghost predicate Starts(g: Config, s: Sess, o: Oracle) {
    exists q, address :: Fresh(q) && (s == LoginStart(g, q, address, o) || s == SyncStart(g, q, address, o))
  }

  lemma StartSafe(g: Config, s: Sess, o: Oracle)
    requires Starts(g, s, o)
    ensures Safe(s) && !s.hist.loggingOut && (Good(o) ==> Awake(s))
  {
    hide Safe, Awake, LoginStart, SyncStart;
    var q, address :| Fresh(q) && (s == LoginStart(g, q, address, o) || s == SyncStart(g, q, address, o));
    LoginStartSafe(g, q, address, o);
    SyncStartSafe(g, q, address, o);
  }

  /** Every connecting session has a wake-up.  If the clock and the teardown calls work,
      then between events a session that waits for its transport or for a login response
      has its login timer on pend_list or on ready_list. */
  lemma WakeUp(g: Config, s: Sess, o: Oracle, steps: seq<Step>)
    requires Starts(g, s, o) && Good(o) && Run(g, s, steps) && AllGood(steps)
    ensures var d := After(g, s, steps);
            d.live && d.link.state in {XptWait, InLogin} ==> OnList(d.sched, LoginTimer)
  {
    hide Run, After, Base;
    StartSafe(g, s, o);
    RunKeepsSafe(g, s, steps);
    var d := After(g, s, steps);
    SafeInv(d);
    OnListIs(d, LoginTimer);
  }

  /** No actor outlives its session, whatever the kernel does.  Once the session is freed
      none of its actors is on a list; the actor of a free context never is; and no actor
      was ever set up or cleared while on a list, or run after its memory was given up. */
  lemma NoActorOutlives(g: Config, s: Sess, o: Oracle, steps: seq<Step>)
    requires Starts(g, s, o) && Run(g, s, steps)
    ensures var d := After(g, s, steps);
            && d.hist.sound
            && (!d.live ==> forall a :: OnList(d.sched, a) ==> a.Foreign?)
            && (forall i :: 0 <= i < |d.pool| && d.pool[i].None? ==> !OnList(d.sched, Context(i)))
  {
    hide Run, After, Safe, OnList;
    StartSafe(g, s, o);
    RunKeepsSafe(g, s, steps);
    SafeActors(After(g, s, steps));
  }

  /** The invariant, in terms of the lists. */
  lemma SafeActors(d: Sess)
    requires Safe(d)
    ensures d.hist.sound
    ensures !d.live ==> forall a :: OnList(d.sched, a) ==> a.Foreign?
    ensures forall i :: 0 <= i < |d.pool| && d.pool[i].None? ==> !OnList(d.sched, Context(i))
  {
    hide Inv, OnList;
    forall a ensures OnList(d.sched, a) == On(d, a) {
      OnListIs(d, a);
    }
  }

  /** One host scan per session: the scan at the end of a login runs at most once, because
      afterwards a connecting session is in recovery; and a session that is logged in or
      logging out has no reopen attempts on record. */
  lemma OneScan(g: Config, s: Sess, o: Oracle, steps: seq<Step>)
    requires Starts(g, s, o) && Run(g, s, steps)
    ensures var d := After(g, s, steps);
            && d.hist.scans <= 1
            && (d.hist.scans == 1 && d.link.state in {XptWait, InLogin} ==> d.link.stage !in {NoChange, Redirected})
            && (d.link.state in {LoggedIn, InLogout} ==> d.link.reopenCnt == 0)
  {
    hide Run, After, Base;
    StartSafe(g, s, o);
    RunKeepsSafe(g, s, steps);
  }

  /** Logout is final.  After a logout is accepted while logged in, until it is freed the
      connection is only ever logged in or logging out, and every further request is
      refused. */
  lemma LogoutFinal(g: Config, s: Sess, o: Oracle, steps: seq<Step>, o': Oracle, more: seq<Step>)
    requires Starts(g, s, o) && Run(g, s, steps)
    requires var d := After(g, s, steps); d.live && d.link.state == LoggedIn && !RefusesLogout(d, o')
    requires Run(g, LogoutTask(g, After(g, s, steps), o'), more)
    ensures var e := After(g, LogoutTask(g, After(g, s, steps), o'), more);
            && e.link.state in {LoggedIn, InLogout}
            && (forall o'' :: RefusesLogout(e, o''))
  {
    hide Run, After, Base, Shutdown, SendLogout;
    StartSafe(g, s, o);
    RunKeepsSafe(g, s, steps);
    var d := After(g, s, steps);
    LogoutTaskKeeps(g, d, o');
    LogoutAccepted(g, d, o');
    RunKeepsSafe(g, LogoutTask(g, d, o'), more);
  }

  lemma LogoutAccepted(g: Config, s: Sess, o: Oracle)
    requires Safe(s) && s.live && s.link.state == LoggedIn && !RefusesLogout(s, o)
    ensures LogoutTask(g, s, o).hist.loggingOut
  {
    hide Base, Shutdown, SendLogout;
    var l := s.(link := s.link.(logout := true), hist := s.hist.(loggingOut := true));
    BasePool(s);
    HistBase(s, l);
    SendLogoutKeeps(g, l, o);
    ShutdownSafe(SendLogout(g, l, o).0, o);
  }

  lemma {:induction false} SomeFree(pool: seq<Option<CtxEvent>>)
    ensures FirstFree(pool).Some? <==> exists i :: 0 <= i < |pool| && pool[i].None?
  {
    hide FirstFree;
  }

  /** A logout accepted while logged in frees the session at once exactly if unbinding it
      from the kernel fails, the logout is sent all the same, and the teardown that then
      follows works; a logout is sent exactly if sending works and there is a context for
      its timer.  Otherwise the session lives on, marked as logging out. */
  lemma LogoutOutcome(g: Config, s: Sess, o: Oracle)
    requires s.live && s.link.state == LoggedIn && !RefusesLogout(s, o)
    ensures var d := LogoutTask(g, s, o);
            && d.link.logout
            && (!d.live <==>
                && o.unbindFails && !o.sendFails && (exists i :: 0 <= i < |s.pool| && s.pool[i].None?)
                && TearsDown(s.link, o))
  {
    hide Shutdown, SchedContext, FirstFree, RefusesLogout;
    var l := s.(link := s.link.(logout := true), hist := s.hist.(loggingOut := true));
    SomeFree(s.pool);
    if o.unbindFails {
      SentLogout(g, l, o);
      var r := SendLogout(g, l, o);
      if r.1 {
        ShutdownOutcome(r.0, o);
        ShutdownLink(r.0, o);
      }
    }
  }

  lemma SentLogout(g: Config, s: Sess, o: Oracle)
    requires s.live && s.link.state == LoggedIn
    ensures var r := SendLogout(g, s, o);
            && (r.1 <==> !o.sendFails && FirstFree(s.pool).Some?)
            && r.0.live && r.0.link == s.link.(state := r.0.link.state) && (r.1 ==> r.0.link.state == InLogout)
  {
    hide FirstFree, Schedule;
  }

  lemma ShutdownLink(s: Sess, o: Oracle)
    ensures Shutdown(s, o).link.logout == s.link.logout
  {
    hide DeleteTimers;
    FlushLink(DeleteTimers(s), 0);
    TimersLink(s);
  }

  lemma TimersLink(s: Sess)
    ensures DeleteTimers(s).link == s.link
  {
    hide Delete;
  }

  lemma {:induction false} FlushLink(s: Sess, i: nat)
    ensures FlushFrom(s, i).link == s.link
    decreases |s.pool| - i
  {
    hide Delete;
    if i < |s.pool| {
      FlushLink(if s.pool[i].None? then s else PutContext(Del(s, Context(i)), i), i + 1);
    }
  }

  /** The request succeeds although no logout could be sent: the session is still logged in
      and still there, and refuses every further request. */
  lemma AcceptedUnsent(g: Config, s: Sess, o: Oracle)
    requires s.live && s.link.state == LoggedIn && !RefusesLogout(s, o) && o.unbindFails && o.sendFails
    ensures var d := LogoutTask(g, s, o);
            && d.live && d.link == s.link.(logout := true) && d.pool == s.pool && d.sched == s.sched
            && forall o' :: RefusesLogout(d, o')
  {
    hide Shutdown, SchedContext;
  }

  /** For instance a new session whose kernel objects cannot be unbound. */
  lemma UnsentExample(g: Config, o: Oracle)
    requires o.unbindFails && o.sendFails && !o.busy
    ensures var s := Sess(true, Link(LoggedIn, NoChange, 0, 0, true, false, false, 0, 0),
                          seq(CONTEXT_POOL_MAX, _ => None), SendNop, Empty(), History(1, true, false));
            !RefusesLogout(s, o) && LogoutTask(g, s, o).live && LogoutTask(g, s, o).link.state == LoggedIn
  {
    hide Shutdown, SchedContext;
  }

  /** The kernel's connection can be taken down. */
  predicate ConnTearsDown(link: Link, o: Oracle) {
    o.hasLead ==> !o.destroyConnFails && (link.state in {InLogin, InLogout, LoggedIn} ==> !o.stopFails)
  }

  /** Every step of the teardown that a session in this state needs works. */
  predicate TearsDown(link: Link, o: Oracle) {
    !link.hasId || (!o.destroySessionFails && ConnTearsDown(link, o))
  }

  /** session_conn_shutdown frees the session exactly if no step of the teardown that it
      needs fails.  Otherwise it leaves everything as it is, but for the stage once the
      kernel's connection is gone. */
  lemma ShutdownOutcome(s: Sess, o: Oracle)
    requires s.live
    ensures !Shutdown(s, o).live <==> TearsDown(s.link, o)
    ensures Shutdown(s, o).live ==>
              Shutdown(s, o) == s.(link := s.link.(stage := if ConnTearsDown(s.link, o) then Destroyed else s.link.stage))
  {
    hide Flush, DeleteTimers;
  }

  /** The conditions of the wake-up are needed: when the login timer goes off in a session
      that gives up, it is freed or left with nothing to wake it, as the teardown goes. */
  lemma GivingUpNeedsTeardown(g: Config, s: Sess, o: Oracle)
    requires Safe(s) && s.live && s.link.state == XptWait && s.link.stage == NoChange && o.retryTime == Some(false)
    requires !On(s, LoginTimer)
    ensures Awake(LoginEh(g, s, o, false)) <==> !Shutdown(Flush(s), o).live
  {
    hide Base, Flush;
    FlushBase(s);
    ShutdownFacts(Flush(s), o);
  }
}
