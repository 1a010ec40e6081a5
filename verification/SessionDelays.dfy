/** When a reopened session is woken, and where it connects. */
module SessionDelays {
  import opened CText
  import opened Scheduling
  import opened SchedSteps
  import opened Sessions
  import opened SessionSteps
  import opened SessionInvariant

  /** The actor runs `delay` seconds from now: at once, or when its time has come. */
  ghost predicate RunsAt(q: Sched<ActorId>, a: ActorId, now: int, delay: uint32) {
    if delay == 0 then a in q.ready else exists i :: 0 <= i < |q.pend| && q.pend[i].actor == a && q.pend[i].due == now + delay
  }

  lemma PlaceDue(q: Sched<ActorId>, now: int, a: ActorId, delay: uint32, head: bool)
    requires Inv(q) && OffList(q, a)
    ensures RunsAt(Place(q, now, a, delay, head), a, now, delay)
  {
    hide Inv, Pend, Insert;
    if delay > 0 {
      PendFacts(q, now, a, delay);
      var k := InsertAt(q.pend, now + delay);
      assert Pend(q, now, a, delay).pend[k] == Timer(a, now + delay, q.stamps);
    }
  }

  lemma Deleted(q: Sched<ActorId>, a: ActorId)
    requires Inv(q)
    ensures var d := Delete(q, a); Inv(d) && OffList(d, a) && StateOf(d, a) == NotScheduled
  {
    hide Inv, Delete, OffList;
    DeleteFacts(q, a);
  }

  lemma TimerModDue(q: Sched<ActorId>, now: int, a: ActorId, delay: uint32)
    requires Inv(q)
    ensures RunsAt(TimerMod(q, Some(now), a, delay), a, now, delay)
  {
    hide Inv, Delete, Place, RunsAt, OffList;
    Deleted(q, a);
    PlaceDue(Delete(q, a), now, a, delay, false);
  }

  lemma ModTimerDue(s: Sess, delay: uint32, o: Oracle, now: int)
    requires Base(s) && o.clock(LoginTimer) == Some(now)
    ensures RunsAt(ModTimer(s, LoginTimer, delay, o).sched, LoginTimer, now, delay)
  {
    hide Inv, TimerMod, RunsAt;
    TimerModDue(s.sched, now, LoginTimer, delay);
  }

  /** How long a connection attempt is given, or the pause before the next one. */
  function ConnectDelay(g: Config, o: Oracle): uint32 {
    if o.connectFails then 3 else g.loginTimeout
  }

  /** With an empty pool a context is always found: the first one polls the connection. */
  lemma ConnectDue(g: Config, s: Sess, o: Oracle, now: int)
    requires Base(s) && PoolEmpty(s) && o.clock(LoginTimer) == Some(now)
    ensures var d := ConnectOrRetry(g, s, o);
            && RunsAt(d.sched, LoginTimer, now, ConnectDelay(g, o))
            && (!o.connectFails ==> d.pool == s.pool[0 := Some(PollConn)] && (o.clock(Context(0)).Some? ==> On(d, Context(0))))
            && (o.connectFails ==> d.pool == s.pool)
  {
    hide Base, GetContext, PutContext, SchedContext, ModTimer, RunsAt;
    BasePool(s);
    FirstIsFree(s.pool);
    if o.connectFails {
      GetBase(s, 0, PollConn);
      var c := GetContext(s, 0, PollConn);
      PutBase(c, 0);
      PutPool(c, 0);
      assert s.pool[0 := Some(PollConn)][0 := None] == s.pool;
      ModTimerDue(PutContext(c, 0), CONN_ERR_REOPEN_DELAY, o, now);
      ModTimerBase(PutContext(c, 0), LoginTimer, CONN_ERR_REOPEN_DELAY, o);
    } else {
      SchedContextBase(s, 0, PollConn, 0, o);
      SchedContextOn(s, 0, PollConn, 0, o);
      var c := SchedContext(s, 0, PollConn, 0, o);
      ModTimerDue(c, g.loginTimeout, o, now);
      ModTimerBase(c, LoginTimer, g.loginTimeout, o);
    }
  }

  lemma FirstIsFree(pool: seq<Option<CtxEvent>>)
    requires |pool| > 0 && pool[0].None?
    ensures FirstFree(pool) == Some(0)
  {
  }

  lemma SchedContextOn(s: Sess, i: nat, ev: CtxEvent, delay: uint32, o: Oracle)
    requires Base(s) && i < |s.pool| && s.pool[i].None?
    ensures o.clock(Context(i)).Some? ==> On(SchedContext(s, i, ev, delay, o), Context(i))
  {
    hide Base, GetContext, SetUp, Arm;
    BasePool(s);
    GetBase(s, i, ev);
    SetUpBase(GetContext(s, i, ev), Context(i));
    ArmBase(SetUp(GetContext(s, i, ev), Context(i)), Context(i), delay, ev == ConnError(true), o);
  }

  /** The wait before a reopen: five seconds if the connection cannot be stopped, what the
      target asked for, no time or an arbitrary one if the network cannot be set up, and
      otherwise that of the connection attempt. */
  function ReopenDelay(g: Config, s: Sess, o: Oracle, stop: bool, redirected: bool): uint32 {
    if stop && o.reopenStopFails then 5
    else if !redirected && s.link.time2wait != 0 then s.link.time2wait
    else if o.netFails then (if redirected then o.garbage else 0)
    else ConnectDelay(g, o)
  }

  /** An attempt counts if it gets past stopping and waiting and is not a redirection. */
  predicate Counts(s: Sess, o: Oracle, stop: bool, redirected: bool) {
    !redirected && !(stop && o.reopenStopFails) && s.link.time2wait == 0
  }

  /** __session_conn_reopen: when the session is woken next, and what is counted.  A wait
      the target asked for is served once. */
  lemma ReopenDue(g: Config, s: Sess, o: Oracle, stop: bool, redirected: bool, now: int)
    requires Base(s) && o.clock(LoginTimer) == Some(now)
    ensures var d := Reopen(g, s, o, stop, redirected);
            && RunsAt(d.sched, LoginTimer, now, ReopenDelay(g, s, o, stop, redirected))
            && d.link.reopenCnt == s.link.reopenCnt + (if Counts(s, o, stop, redirected) then 1 else 0)
            && d.link.time2wait == (if redirected || (stop && o.reopenStopFails) then s.link.time2wait else 0)
  {
    hide Base, DeleteTimers, Flush, ModTimer, ConnectOrRetry, RunsAt;
    FlushBase(s);
    DeleteTimersBase(Flush(s));
    var f := DeleteTimers(Flush(s));
    var f' := WithLink(f, f.link.(state := XptWait));
    var w := WithLink(f', f'.link.(time2wait := 0));
    var c := WithLink(w, w.link.(reopenCnt := w.link.reopenCnt + 1));
    SameBase(f, f');
    SameBase(f, w);
    SameBase(f, c);
    if stop && o.reopenStopFails {
      ModTimerDue(f', INTERNAL_ERR_REOPEN_DELAY, o, now);
      ModTimerBase(f', LoginTimer, INTERNAL_ERR_REOPEN_DELAY, o);
    } else if redirected {
      ModTimerDue(f', o.garbage, o, now);
      ModTimerBase(f', LoginTimer, o.garbage, o);
      ConnectDue(g, f', o, now);
      ConnectOrRetryFacts(g, f', o);
    } else if f'.link.time2wait != 0 {
      ModTimerDue(w, f'.link.time2wait, o, now);
      ModTimerBase(w, LoginTimer, f'.link.time2wait, o);
    } else {
      ModTimerDue(c, 0, o, now);
      ModTimerBase(c, LoginTimer, 0, o);
      ConnectDue(g, c, o, now);
      ConnectOrRetryFacts(g, c, o);
    }
  }

  /** After a redirection has failed or the connection is lost, the session goes back to
      its own address; a redirection keeps the address it was given. */
  lemma ReopenAddress(g: Config, s: Sess, o: Oracle, stop: bool)
    requires Base(s)
    ensures ConnReopen(g, s, o, stop).link.saddr == s.link.failback == ConnReopen(g, s, o, stop).link.failback
    ensures LoginRedirect(g, s, o).link.saddr == s.link.saddr && LoginRedirect(g, s, o).link.failback == s.link.failback
  {
    hide Base, Reopen;
    var b := WithLink(s, s.link.(saddr := s.link.failback));
    SameBase(s, b);
    ReopenFacts(g, b, o, stop, false);
    ReopenAddressKept(g, s, o);
  }
}
