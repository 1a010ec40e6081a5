/** The handlers of usr/initiator.c as methods that update the session in place, on the
    linked lists of the one scheduler of the process.  Each keeps the invariant of the
    session and does to the view what the machine on values does.  The lists stay sound
    because of the invariant: an actor is set up or cleared only while it is linked
    nowhere. */
module SessionConns {
  import opened CText
  import opened Scheduling
  import opened SchedSteps
  import opened SchedNames
  import opened ListRing
  import opened ActorLists
  import opened Sessions
  import opened SessionSteps
  import opened SessionInvariant
  import opened SessionRuns
  import opened SessionOutcomes

  class SessionConn {
    const g: Config
    const sched: Scheduler
    const loginTimer: Node
    const nopTimer: Node
    const contextActors: seq<Node>
    const contextPool: array<Option<CtxEvent>>
    var live: bool
    var state: ConnState
    var stage: Stage
    var reopenCnt: nat
    var time2wait: uint32
    var hasId: bool
    var logoutTask: bool
    var notifyTask: bool
    var saddr: Address
    var failbackSaddr: Address
    var nopWork: NopWork
    ghost var hist: History
    /** Which actor a node is, all nodes that may come onto a list, and the actors of others. */
    ghost const ids: map<Node, ActorId>
    ghost const nodes: set<Node>
    ghost const outside: set<Node>

    // ---------- the view ----------

    ghost predicate Labelled() {
      && OneToOne(ids) && |contextActors| == CONTEXT_POOL_MAX
      && loginTimer in ids && ids[loginTimer] == LoginTimer
      && nopTimer in ids && ids[nopTimer] == NopTimer
      && (forall i :: 0 <= i < |contextActors| ==> contextActors[i] in ids && ids[contextActors[i]] == Context(i))
      && sched.pendList !in ids && sched.readyList !in ids
      && nodes == ids.Keys + {sched.pendList, sched.readyList} && outside <= ids.Keys
    }

    /** The lists are sound, and the timers and the allocated contexts have actors. */
    ghost predicate Wired()
      reads this, contextPool, sched, nodes
    {
      && Labelled() && contextPool.Length == CONTEXT_POOL_MAX
      && sched.actors <= ids.Keys && sched.Valid() && Covers(ids, sched.View())
      && loginTimer in sched.actors && nopTimer in sched.actors && outside <= sched.actors
      && (forall i :: 0 <= i < contextPool.Length && contextPool[i].Some? ==> contextActors[i] in sched.actors)
    }

    ghost function LinkView(): Link
      reads this
    {
      Link(state, stage, reopenCnt, time2wait, hasId, logoutTask, notifyTask, saddr, failbackSaddr)
    }

    ghost function View(): Sess
      requires Wired()
      reads this, contextPool, sched, nodes
    {
      Sess(live, LinkView(), contextPool[..], nopWork, Named(ids, sched.View()), hist)
    }

    /** The invariant between handlers. */
    ghost predicate Valid()
      reads this, contextPool, sched, nodes
    {
      Wired() && Safe(View())
    }

    predicate Own(a: ActorId) { !a.Foreign? && (a.Context? ==> a.i < |contextActors|) }

    function NodeOf(a: ActorId): (n: Node)
      requires Own(a)
      ensures Labelled() ==> n in ids && ids[n] == a
    {
      match a case LoginTimer => loginTimer case NopTimer => nopTimer case Context(i) => contextActors[i]
    }

    /** The actor is linked into one of the two lists. */
    ghost predicate Linked(n: Node)
      reads sched
    {
      n in sched.pend || n in sched.ready
    }

    lemma Reads()
      requires Wired()
      ensures View().link == LinkView() && View().nop == nopWork && View().live == live && View().hist == hist
      ensures View().pool == contextPool[..] && |View().pool| == contextPool.Length == CONTEXT_POOL_MAX == |contextActors|
    {
      hide Named, Covers, OneToOne;
    }

    /** What the view says about an actor is so in the lists. */
    lemma LinkedIs(n: Node)
      requires Wired() && n in ids
      ensures On(View(), ids[n]) <==> Linked(n)
      ensures OnList(View().sched, ids[n]) <==> Linked(n)
    {
      hide Ring, Inv, OneToOne;
      sched.Sees();
      NamedState(ids, sched.View(), n);
      NamedOnList(ids, sched.View(), n);
      StateTells(sched.View(), n);
    }

    /** What the operations of the scheduler may touch. */
    lemma Footprint()
      requires Wired()
      ensures OneToOne(ids) && sched.Nodes() <= nodes && |contextActors| == CONTEXT_POOL_MAX
      ensures ids.Keys <= nodes && sched.pendList !in ids && sched.readyList !in ids
      ensures forall i :: 0 <= i < |contextActors| ==> contextActors[i] in ids && ids[contextActors[i]] == Context(i)
    {
      hide Ring, Inv, Covers, OneToOne;
    }

    lemma RingsCovered()
      requires Labelled() && sched.actors <= ids.Keys && sched.Valid()
      ensures Covers(ids, sched.View())
    {
      hide Ring, Inv, OneToOne;
      sched.Sees();
    }

    /** calloc and the fields of a new session */
    constructor (g: Config, sched: Scheduler, link: Link, login: Node, nop: Node, contexts: seq<Node>,
                 ghost ids: map<Node, ActorId>, ghost outside: set<Node>)
      ensures this.g == g && this.sched == sched && loginTimer == login && nopTimer == nop && contextActors == contexts
      ensures this.ids == ids && nodes == ids.Keys + {sched.pendList, sched.readyList} && this.outside == outside
      ensures live && LinkView() == link && nopWork == SendNop && hist == History(0, true, false)
      ensures fresh(contextPool) && contextPool[..] == seq(CONTEXT_POOL_MAX, _ => None)
    {
      this.g, this.sched, live, nopWork := g, sched, true, SendNop;
      loginTimer, nopTimer, contextActors := login, nop, contexts;
      state, stage, reopenCnt, time2wait := link.state, link.stage, link.reopenCnt, link.time2wait;
      hasId, logoutTask, notifyTask := link.hasId, link.logout, link.notify;
      saddr, failbackSaddr := link.saddr, link.failback;
      contextPool := new Option<CtxEvent>[CONTEXT_POOL_MAX](_ => None);
      hist, this.ids, this.outside := History(0, true, false), ids, outside;
      nodes := ids.Keys + {sched.pendList, sched.readyList};
      new;
      assert contextPool[..] == seq(CONTEXT_POOL_MAX, _ => None);
    }

    /** __session_create and __session_conn_create; `others` are the actors of others */
    static method Create(g: Config, sched: Scheduler, link: Link, ghost others: map<Node, nat>) returns (c: SessionConn)
      requires sched.Valid() && OneToOne(others) && sched.actors <= others.Keys
      requires sched.pendList !in others && sched.readyList !in others
      modifies sched
      ensures fresh(c) && fresh(c.contextPool) && fresh(c.nodes - others.Keys - {sched.pendList, sched.readyList})
      ensures c.Wired() && c.g == g && c.sched == sched && c.outside == old(sched.actors)
      ensures forall n :: n in others ==> n in c.ids && c.ids[n] == Foreign(others[n])
      ensures Covers(c.ids, old(sched.View())) && c.View() == Blank(Named(c.ids, old(sched.View())), link)
    {
      hide Ring, Inv, OneToOne, Timers, Covers, Named, Wipe, Init, OnList;
      hide Scheduler.View, Scheduler.Links, Blank;
      var login, nop, contexts, ids := NameActors(others);
      c := new SessionConn(g, sched, link, login, nop, contexts, ids, sched.actors);
      Untouched(sched);
      assert forall i :: 0 <= i < c.contextPool.Length ==> c.contextPool[i] == c.contextPool[..][i];
      c.SetUpTimers();
      BlankIs(ids, old(sched.View()), link, login, nop);
    }

    /** actor_init of the login timer, in memory that calloc has cleared */
    method SetUpTimers()
      requires Labelled() && sched.Valid() && outside <= sched.actors <= ids.Keys && loginTimer !in sched.actors && nopTimer !in sched.actors
      requires contextPool.Length == CONTEXT_POOL_MAX && forall i :: 0 <= i < contextPool.Length ==> contextPool[i].None?
      modifies sched, loginTimer, nopTimer
      ensures Wired() && Covers(ids, old(sched.View()))
      ensures !OnList(old(sched.View()), loginTimer) && !OnList(old(sched.View()), nopTimer)
      ensures sched.View() == Init(Wipe(Wipe(old(sched.View()), nopTimer), loginTimer), loginTimer)
    {
      hide Ring, Inv, Timers, OneToOne;
      RingsCovered();
      sched.Sees();
      sched.Clear(nopTimer);
      sched.Clear(loginTimer);
      sched.Init(loginTimer);
      RingsCovered();
    }

    /** New actors, and names for them beside those of others. */
    static method NameActors(ghost others: map<Node, nat>) returns (login: Node, nop: Node, contexts: seq<Node>, ghost ids: map<Node, ActorId>)
      requires OneToOne(others)
      ensures |contexts| == CONTEXT_POOL_MAX && OneToOne(ids) && others.Keys <= ids.Keys && fresh(ids.Keys - others.Keys)
      ensures login in ids && ids[login] == LoginTimer && nop in ids && ids[nop] == NopTimer
      ensures forall i :: 0 <= i < |contexts| ==> contexts[i] in ids && ids[contexts[i]] == Context(i)
      ensures login !in others && nop !in others && forall n :: n in others ==> ids[n] == Foreign(others[n])
    {
      login, nop, contexts := NewActors();
      IdsLabel(others, login, nop, contexts);
      ids := IdsOf(others, login, nop, contexts);
    }

    static method NewActors() returns (login: Node, nop: Node, contexts: seq<Node>)
      ensures |contexts| == CONTEXT_POOL_MAX && login != nop && login !in contexts && nop !in contexts
      ensures fresh(login) && fresh(nop) && forall i :: 0 <= i < |contexts| ==> fresh(contexts[i])
      ensures forall j, k :: 0 <= j < k < |contexts| ==> contexts[j] != contexts[k]
    {
      login := new Node();
      nop := new Node();
      contexts := [];
      for i := 0 to CONTEXT_POOL_MAX
        invariant |contexts| == i && login !in contexts && nop !in contexts
        invariant forall k :: 0 <= k < i ==> fresh(contexts[k])
        invariant forall j, k :: 0 <= j < k < i ==> contexts[j] != contexts[k]
      {
        var c := new Node();
        contexts := contexts + [c];
      }
    }

    // ---------- actors and contexts ----------

    method ActorDelete(a: ActorId)
      requires Wired() && Own(a) && May(View(), a)
      modifies sched, nodes
      ensures Wired() && View() == Del(old(View()), a)
    {
      hide Ring, Inv, Timers, OneToOne, Covers, Named, Labelled, Scheduling.Delete, Scheduler.View, Scheduler.Links;
      Footprint();
      NamedDelete(ids, sched.View(), NodeOf(a));
      sched.Delete(NodeOf(a));
    }

    method ActorInit(a: ActorId)
      requires Wired() && Own(a) && May(View(), a) && !On(View(), a)
      modifies sched, nodes
      ensures Wired() && View() == SetUp(old(View()), a)
    {
      hide Ring, Inv, Timers, OneToOne, Covers, Named, Labelled, Scheduling.Init, Scheduler.View, Scheduler.Links, OnList;
      Footprint();
      LinkedIs(NodeOf(a));
      NamedInit(ids, sched.View(), NodeOf(a));
      sched.Init(NodeOf(a));
    }

    method ActorSchedule(a: ActorId, delay: uint32, head: bool, o: Oracle)
      requires Wired() && Own(a) && May(View(), a)
      modifies sched, nodes
      ensures Wired() && View() == Arm(old(View()), a, delay, head, o)
    {
      hide Ring, Inv, Timers, OneToOne, Covers, Named, Labelled, Scheduling.Schedule, Scheduler.View, Scheduler.Links;
      Footprint();
      NamedSchedule(ids, sched.View(), o.clock(a), NodeOf(a), delay, head);
      sched.Schedule(NodeOf(a), o.clock(a), delay, head);
    }

    method ActorTimerMod(a: ActorId, delay: uint32, o: Oracle)
      requires Wired() && Own(a) && May(View(), a)
      modifies sched, nodes
      ensures Wired() && View() == ModTimer(old(View()), a, delay, o)
    {
      hide Ring, Inv, Timers, OneToOne, Covers, Named, Labelled, Scheduling.TimerMod, Scheduler.View, Scheduler.Links;
      Footprint();
      NamedTimerMod(ids, sched.View(), o.clock(a), NodeOf(a), delay);
      sched.TimerMod(NodeOf(a), o.clock(a), delay);
    }

    /** actor_timer */
    method ActorTimer(a: ActorId, delay: uint32, o: Oracle)
      requires Wired() && Own(a) && May(View(), a) && !On(View(), a)
      modifies sched, nodes
      ensures Wired() && View() == StartTimer(old(View()), a, delay, o)
    {
      hide View, Wired;
      ActorInit(a);
      ActorSchedule(a, delay, false, o);
    }

    /** The memory of a context's actor is cleared. */
    method ClearContext(i: nat)
      requires Wired() && i < |contextActors| && !On(View(), Context(i))
      modifies sched, nodes
      ensures Wired() && View() == Erase(old(View()), Context(i)) && contextActors[i] in sched.actors
    {
      hide Ring, Inv, Timers, OneToOne, Covers, Named, Labelled, Scheduling.Wipe, Scheduler.View, Scheduler.Links, OnList;
      Footprint();
      LinkedIs(contextActors[i]);
      NamedInit(ids, sched.View(), contextActors[i]);
      sched.Clear(contextActors[i]);
    }

    method SetContext(i: nat, ev: Option<CtxEvent>)
      requires Wired() && i < contextPool.Length && (ev.Some? ==> contextActors[i] in sched.actors)
      modifies contextPool
      ensures Wired() && View() == old(View()).(pool := old(View()).pool[i := ev])
    {
      hide Ring, Inv, Timers, OneToOne, Covers, Named, Labelled, Scheduler.View, Scheduler.Links;
      contextPool[i] := ev;
      Untouched(sched);
      assert contextPool[..] == old(contextPool[..])[i := ev];
    }

    /** iscsi_ev_context_get */
    method TakeContext(ev: CtxEvent) returns (r: Option<nat>)
      requires Wired() && Base(View())
      modifies contextPool, sched, nodes
      ensures Wired() && Base(View()) && r == FirstFree(old(View()).pool)
      ensures r.Some? ==> View() == GetContext(old(View()), r.value, ev) && !On(View(), Context(r.value))
      ensures r.None? ==> View() == old(View())
    {
      hide View, Wired, Base, FirstFree, Erase;
      Reads();
      ghost var s := View();
      for i := 0 to contextPool.Length
        invariant Wired() && View() == s && s.pool == contextPool[..]
        invariant forall k :: 0 <= k < i ==> contextPool[k].Some?
      {
        if contextPool[i].None? {
          FirstFreeIs(contextPool[..], i);
          Reads();
          BasePool(s);
          GetBase(s, i, ev);
          ClearContext(i);
          SetContext(i, Some(ev));
          EraseThenSet(s, i, ev);
          return Some(i);
        }
      }
      FirstFreeNone(contextPool[..]);
      return None;
    }

    /** iscsi_ev_context_put, of a context whose actor is on no list */
    method ReleaseContext(i: nat)
      requires Wired() && Base(View()) && !On(View(), Context(i))
      modifies contextPool
      ensures Wired() && Base(View()) && View() == PutContext(old(View()), i)
      ensures forall a :: On(View(), a) == old(On(View(), a))
    {
      hide View, Wired, Base;
      Reads();
      PutBase(View(), i);
      if i < contextPool.Length {
        SetContext(i, None);
      }
    }

    /** iscsi_sched_ev_context, of a context just taken */
    method SchedTaken(i: nat, ev: CtxEvent, delay: uint32, o: Oracle, ghost s: Sess)
      requires Wired() && Base(s) && i < |s.pool| && s.pool[i].None? && View() == GetContext(s, i, ev)
      modifies sched, nodes
      ensures Wired() && Base(View()) && View() == SchedContext(s, i, ev, delay, o)
    {
      hide View, Wired, Base, GetContext, SetUp, Arm;
      Reads();
      SchedContextBase(s, i, ev, delay, o);
      GetBase(s, i, ev);
      ActorInit(Context(i));
      SetUpBase(GetContext(s, i, ev), Context(i));
      ActorSchedule(Context(i), delay, ev == ConnError(true), o);
    }

    /** Take a context and schedule it. */
    method QueueContext(ev: CtxEvent, delay: uint32, o: Oracle) returns (ok: bool)
      requires Wired() && Base(View())
      modifies contextPool, sched, nodes
      ensures Wired() && Base(View())
      ensures var free := FirstFree(old(View()).pool);
              ok == free.Some? && View() == if ok then SchedContext(old(View()), free.value, ev, delay, o) else old(View())
    {
      hide View, Wired, Base, GetContext, FirstFree, SchedContext;
      ghost var s := View();
      var c := TakeContext(ev);
      if c.Some? {
        SchedTaken(c.value, ev, delay, o, s);
      }
      return c.Some?;
    }

    /** iscsi_flush_context_pool */
    method FlushContextPool()
      requires Wired() && Base(View())
      modifies contextPool, sched, nodes
      ensures Wired() && Base(View()) && View() == Flush(old(View())) && PoolEmpty(View())
    {
      hide View, Wired, Base, FlushFrom, PoolEmpty;
      Reads();
      FlushBase(View());
      for i := 0 to contextPool.Length
        invariant Wired() && Base(View()) && FlushFrom(View(), i) == Flush(old(View()))
      {
        Reads();
        FlushStep(View(), i);
        if contextPool[i].Some? {
          DelBase(View(), Context(i));
          ActorDelete(Context(i));
          ReleaseContext(i);
        }
      }
      Reads();
      FlushStep(View(), contextPool.Length);
    }

    /** conn_delete_timers */
    method ConnDeleteTimers()
      requires Wired()
      modifies sched, nodes
      ensures Wired() && View() == DeleteTimers(old(View()))
    {
      hide View, Wired, Del;
      ActorDelete(LoginTimer);
      ActorDelete(NopTimer);
    }

    // ---------- one field ----------

    method SetState(x: ConnState)
      requires Wired()
      modifies `state
      ensures Wired() && View() == WithLink(old(View()), old(View()).link.(state := x))
    {
      hide Labelled, Covers, Named, Inv, Ring, Scheduler.View, Scheduler.Links;
      state := x;
      Untouched(sched);
    }

    method SetStage(x: Stage)
      requires Wired()
      modifies `stage
      ensures Wired() && View() == WithLink(old(View()), old(View()).link.(stage := x))
    {
      hide Labelled, Covers, Named, Inv, Ring, Scheduler.View, Scheduler.Links;
      stage := x;
      Untouched(sched);
    }

    method SetReopenCnt(x: nat)
      requires Wired()
      modifies `reopenCnt
      ensures Wired() && View() == WithLink(old(View()), old(View()).link.(reopenCnt := x))
    {
      hide Labelled, Covers, Named, Inv, Ring, Scheduler.View, Scheduler.Links;
      reopenCnt := x;
      Untouched(sched);
    }

    method SetTime2Wait(x: uint32)
      requires Wired()
      modifies `time2wait
      ensures Wired() && View() == WithLink(old(View()), old(View()).link.(time2wait := x))
    {
      hide Labelled, Covers, Named, Inv, Ring, Scheduler.View, Scheduler.Links;
      time2wait := x;
      Untouched(sched);
    }

    method SetHasId(x: bool)
      requires Wired()
      modifies `hasId
      ensures Wired() && View() == WithLink(old(View()), old(View()).link.(hasId := x))
    {
      hide Labelled, Covers, Named, Inv, Ring, Scheduler.View, Scheduler.Links;
      hasId := x;
      Untouched(sched);
    }

    method SetSaddr(x: Address)
      requires Wired()
      modifies `saddr
      ensures Wired() && View() == WithLink(old(View()), old(View()).link.(saddr := x))
    {
      hide Labelled, Covers, Named, Inv, Ring, Scheduler.View, Scheduler.Links;
      saddr := x;
      Untouched(sched);
    }

    method SetNop(x: NopWork)
      requires Wired()
      modifies `nopWork
      ensures Wired() && View() == old(View()).(nop := x)
    {
      hide Labelled, Covers, Named, Inv, Ring, Scheduler.View, Scheduler.Links;
      nopWork := x;
      Untouched(sched);
    }

    /** free */
    method Release()
      requires Wired()
      modifies `live
      ensures Wired() && View() == old(View()).(live := false)
    {
      hide Labelled, Covers, Named, Inv, Ring, Scheduler.View, Scheduler.Links;
      live := false;
      Untouched(sched);
    }

    // ---------- shutting down and opening again ----------

    /** session_conn_shutdown: if it succeeds the session is freed, and none of its actors
        is left on a list */
    method ConnShutdown(o: Oracle) returns (rc: bool)
      requires Valid() && live
      modifies this, contextPool, sched, nodes
      ensures Valid() && View() == Shutdown(old(View()), o) && Keeps(old(View()), View(), o)
      ensures rc == !live
      ensures rc ==> !Linked(loginTimer) && !Linked(nopTimer) && forall i :: 0 <= i < |contextActors| ==> !Linked(contextActors[i])
    {
      hide View, Wired, Safe, Shutdown, Linked, Awake;
      Reads();
      ShutdownSafe(View(), o);
      SafeBase(View());
      rc := TearDown(o);
      if rc {
        NothingLinked();
      }
    }

    method TearDown(o: Oracle) returns (rc: bool)
      requires Wired() && Base(View()) && live
      modifies this, contextPool, sched, nodes
      ensures Wired() && View() == Shutdown(old(View()), o) && rc == !live
    {
      hide View, Wired, Base, Flush, DeleteTimers;
      Reads();
      if hasId && o.hasLead {
        if state == InLogin || state == InLogout || state == LoggedIn {
          if o.stopFails {
            return false;
          }
        }
        if o.destroyConnFails {
          return false;
        }
      }
      if hasId {
        if o.destroySessionFails {
          SetStage(Destroyed);
          Reads();
          return false;
        }
      }
      Destroy();
      return true;
    }

    /** conn_delete_timers and __session_destroy */
    method Destroy()
      requires Wired() && Base(View())
      modifies this, contextPool, sched, nodes
      ensures Wired() && View() == Flush(DeleteTimers(old(View()))).(live := false) && !live
    {
      hide View, Wired, Base, Flush, DeleteTimers, PoolEmpty;
      DeleteTimersBase(View());
      ConnDeleteTimers();
      FlushContextPool();
      Release();
      Reads();
    }

    /** The lists hold nothing of a session that is gone. */
    lemma NothingLinked()
      requires Valid() && !live
      ensures !Linked(loginTimer) && !Linked(nopTimer) && forall i :: 0 <= i < |contextActors| ==> !Linked(contextActors[i])
      ensures forall n :: n in sched.pend || n in sched.ready ==> n in ids && ids[n].Foreign?
    {
      hide View, Wired, Safe, Linked, OnList;
      Reads();
      SafeActors(View());
      OwnIds();
      forall n | n in ids ensures Linked(n) ==> ids[n].Foreign? {
        LinkedIs(n);
      }
      ListsNamed();
    }

    lemma OwnIds()
      requires Wired()
      ensures loginTimer in ids && ids[loginTimer] == LoginTimer && nopTimer in ids && ids[nopTimer] == NopTimer
      ensures forall i :: 0 <= i < |contextActors| ==> contextActors[i] in ids && ids[contextActors[i]] == Context(i)
    {
      hide Inv, Ring, Covers, OneToOne;
    }

    lemma ListsNamed()
      requires Wired()
      ensures forall n :: n in sched.pend || n in sched.ready ==> n in ids && Linked(n)
    {
      hide Inv, Ring, Covers, OneToOne;
    }

    /** iscsi_conn_connect: an attempt under way has the login timer running */
    method ConnConnect(o: Oracle) returns (ok: bool)
      requires Wired() && Base(View())
      modifies contextPool, sched, nodes
      ensures Wired() && Base(View())
      ensures var r := Connect(g, old(View()), o); View() == r.0 && ok == r.1
      ensures ok && o.clock(LoginTimer).Some? ==> Linked(loginTimer)
    {
      hide View, Wired, Base, GetContext, PutContext, FirstFree, SchedContext, ModTimer, Linked;
      ghost var s := View();
      ConnectFacts(g, s, o);
      var c := TakeContext(PollConn);
      if c.None? {
        return false;
      }
      if o.connectFails {
        ReleaseContext(c.value);
        return false;
      }
      SchedTaken(c.value, PollConn, 0, o, s);
      ActorTimerMod(LoginTimer, g.loginTimeout, o);
      OwnIds();
      LinkedIs(loginTimer);
      return true;
    }

    method ConnectOrWait(o: Oracle)
      requires Wired() && Base(View())
      modifies contextPool, sched, nodes
      ensures Wired() && Base(View()) && View() == ConnectOrRetry(g, old(View()), o)
      ensures o.clock(LoginTimer).Some? ==> Linked(loginTimer)
    {
      hide View, Wired, Base, Connect, Linked, ModTimer;
      ConnectOrRetryFacts(g, View(), o);
      var ok := ConnConnect(o);
      if !ok {
        ActorTimerMod(LoginTimer, CONN_ERR_REOPEN_DELAY, o);
      }
      OwnIds();
      LinkedIs(loginTimer);
    }

    /** __session_conn_reopen */
    method DoReopen(o: Oracle, stop: bool, redirected: bool)
      requires Wired() && Base(View())
      modifies this, contextPool, sched, nodes
      ensures Wired() && Base(View()) && View() == Reopen(g, old(View()), o, stop, redirected)
      ensures state == XptWait && !Linked(nopTimer) && (o.clock(LoginTimer).Some? ==> Linked(loginTimer))
    {
      hide View, Wired, Base, Linked, Reopen;
      ghost var s := View();
      ReopenFacts(g, s, o, stop, redirected);
      ReopenInPlace(o, stop, redirected);
      Reads();
      OwnIds();
      LinkedIs(loginTimer);
      LinkedIs(nopTimer);
    }

    method ReopenInPlace(o: Oracle, stop: bool, redirected: bool)
      requires Wired() && Base(View())
      modifies this, contextPool, sched, nodes
      ensures Wired() && View() == Reopen(g, old(View()), o, stop, redirected)
    {
      hide View, Wired, Base, Quiesced, Attempt, ModTimer;
      Quiesce();
      if stop && o.reopenStopFails {
        ActorTimerMod(LoginTimer, INTERNAL_ERR_REOPEN_DELAY, o);
        return;
      }
      TryConnect(o, redirected);
    }

    /** No context and no timer of the session is left to run. */
    method Quiesce()
      requires Wired() && Base(View())
      modifies this, contextPool, sched, nodes
      ensures Wired() && Base(View()) && View() == Quiesced(old(View()))
    {
      hide View, Wired, Base, Flush, DeleteTimers, PoolEmpty;
      FlushContextPool();
      DeleteTimersBase(View());
      ConnDeleteTimers();
      ghost var f := View();
      SetState(XptWait);
      SameBase(f, View());
    }

    method TryConnect(o: Oracle, redirected: bool)
      requires Wired() && Base(View())
      modifies this, contextPool, sched, nodes
      ensures Wired() && View() == Attempt(g, old(View()), o, redirected)
    {
      hide View, Wired, Base, ConnectOrRetry, ModTimer;
      ghost var f := View();
      var delay := o.garbage;
      if !redirected {
        Reads();
        delay := time2wait;
        SetTime2Wait(0);
        if delay != 0 {
          ActorTimerMod(LoginTimer, delay, o);
          return;
        }
        Reads();
        SetReopenCnt(reopenCnt + 1);
        SameBase(f, View());
      }
      if o.netFails {
        ActorTimerMod(LoginTimer, delay, o);
        return;
      }
      ConnectOrWait(o);
    }

    /** session_conn_reopen: back to the session's own address */
    method SessionConnReopen(o: Oracle, stop: bool)
      requires Wired() && Base(View())
      modifies this, contextPool, sched, nodes
      ensures Wired() && Base(View()) && View() == ConnReopen(g, old(View()), o, stop)
      ensures saddr == failbackSaddr == old(failbackSaddr)
      ensures state == XptWait && !Linked(nopTimer) && (o.clock(LoginTimer).Some? ==> Linked(loginTimer))
    {
      hide View, Wired, Base, Reopen, Linked;
      ghost var s := View();
      Reads();
      SetSaddr(failbackSaddr);
      SameBase(s, View());
      ReopenFacts(g, View(), o, stop, false);
      DoReopen(o, stop, false);
      Reads();
    }

    // ---------- errors ----------

    /** iscsi_login_eh */
    method LoginError(o: Oracle, fatal: bool)
      requires Valid() && live
      modifies this, contextPool, sched, nodes
      ensures Valid() && View() == LoginEh(g, old(View()), o, fatal) && hist == old(hist)
      ensures Good(o) && old(stage) != Cleanup && old(stage) != Destroyed ==> Awake(View())
      ensures LoginFailure(g, old(View()), View(), o, fatal)
    {
      hide View, Wired, Safe, Base, LoginEh, Awake, LoginFailure;
      Reads();
      LoginEhSafe(g, View(), o, fatal);
      SafeBase(View());
      LoginEhOutcome(g, View(), o, fatal);
      Choose(o, fatal);
      Reads();
    }

    method Choose(o: Oracle, fatal: bool)
      requires Valid() && live
      modifies this, contextPool, sched, nodes
      ensures Wired() && View() == LoginEh(g, old(View()), o, fatal)
    {
      hide View, Wired, Safe, Base, Flush, Shutdown, ConnReopen, LoginEh, PoolEmpty;
      ghost var s := View();
      Reads();
      SafeBase(s);
      FlushSafe(s);
      FlushContextPool();
      Reads();
      var retry := if o.retryTime.Some? then o.retryTime.value else g.retryMax > reopenCnt;
      var shutdown, reopen, stop := false, false, state == InLogin;
      if state == XptWait || state == InLogin {
        match stage {
          case NoChange =>
            shutdown, stop := fatal || !retry, stop || hasId;
            reopen := !shutdown;
          case Redirected =>
            shutdown := fatal || !retry;
            reopen := !shutdown;
          case Reopening =>
            shutdown := state == XptWait && g.reopenMax != 0 && reopenCnt > g.reopenMax;
            reopen := !shutdown;
          case Cleanup => shutdown := true;
          case Destroyed =>
        }
      }
      LoginEhIs(g, s, o, fatal, shutdown, reopen, stop);
      GiveUpOrReopen(o, shutdown, reopen, stop);
    }

    method GiveUpOrReopen(o: Oracle, shutdown: bool, reopen: bool, stop: bool)
      requires Valid() && live
      modifies this, contextPool, sched, nodes
      ensures Wired()
      ensures View() == if shutdown then Shutdown(old(View()), o)
                        else if reopen then ConnReopen(g, old(View()), o, stop) else old(View())
    {
      hide View, Wired, Safe, Shutdown, ConnReopen, Base;
      SafeBase(View());
      if shutdown {
        var _ := TearDown(o);
      } else if reopen {
        SessionConnReopen(o, stop);
      }
    }

    /** __conn_error_handle */
    method ConnErrorHandle(o: Oracle)
      requires Valid() && live
      modifies this, contextPool, sched, nodes
      ensures Valid() && View() == ErrorHandle(g, old(View()), o) && Keeps(old(View()), View(), o)
      ensures LossHandled(g, old(View()), View(), o)
    {
      hide View, Wired, Safe, Base, Shutdown, ConnReopen, LoginEh, Awake, LossHandled, LoginFailure;
      Reads();
      SafeBase(View());
      ErrorOutcome(g, View(), o);
      ErrorHandleSafe(g, View(), o);
      if logoutTask {
        var _ := TearDown(o);
        return;
      }
      match state
      case InLogout => MarkFailed(o);
      case LoggedIn => MarkFailed(o);
      case InLogin =>
        if stage == Reopening {
          LoginError(o, false);
        }
      case _ =>
    }

    method MarkFailed(o: Oracle)
      requires Wired() && Base(View())
      modifies this, contextPool, sched, nodes
      ensures Wired()
      ensures var s := old(View());
              var c := WithLink(s, s.link.(state := CleanupWait, stage := if g.erl > 0 then s.link.stage else Reopening));
              View() == if c.link.stage == Reopening then ConnReopen(g, c, o, true) else c
    {
      hide View, Wired, Base, ConnReopen;
      ghost var s := View();
      SetState(CleanupWait);
      if g.erl == 0 {
        SetStage(Reopening);
      }
      Reads();
      SameBase(s, View());
      if stage == Reopening {
        SessionConnReopen(o, true);
      }
    }

    // ---------- login ----------

    /** iscsi_login_redirect: connect to the address given, whatever the session's own is */
    method Redirect(o: Oracle)
      requires Valid() && live && state == InLogin
      modifies this, contextPool, sched, nodes
      ensures Valid() && View() == LoginRedirect(g, old(View()), o) && Keeps(old(View()), View(), o)
      ensures saddr == old(saddr) && failbackSaddr == old(failbackSaddr)
      ensures state == XptWait && (o.clock(LoginTimer).Some? ==> Linked(loginTimer))
    {
      hide View, Wired, Safe, Base, Reopen, Awake, Linked;
      ghost var s := View();
      Reads();
      SafeBase(s);
      LoginRedirectKeeps(g, s, o);
      ReopenAddressKept(g, s, o);
      if stage == NoChange {
        SetStage(Redirected);
      }
      SameBase(s, View());
      DoReopen(o, true, true);
      Reads();
    }

    /** The session is logged in; the first time its host is scanned. */
    method EnterFullFeature()
      requires Wired()
      modifies `state, `stage, `reopenCnt, `notifyTask, `nopWork, `hist
      ensures Wired() && View() == LoggedInNow(old(View()))
    {
      hide View, Wired;
      Reads();
      ScanOnce(stage == NoChange || stage == Redirected);
      SetState(LoggedIn);
      SetReopenCnt(0);
      SetStage(NoChange);
      SetNop(SendNop);
    }

    method ScanOnce(first: bool)
      requires Wired()
      modifies `notifyTask, `hist
      ensures Wired()
      ensures var s := old(View());
              View() == s.(link := s.link.(notify := first && s.link.notify),
                           hist := s.hist.(scans := s.hist.scans + (if first then 1 else 0)))
    {
      hide Labelled, Covers, Named, Inv, Ring, Scheduler.View, Scheduler.Links;
      if first {
        hist := hist.(scans := hist.scans + 1);
      } else {
        notifyTask := false;
      }
      Untouched(sched);
    }

    /** setup_full_feature_phase: afterwards the session is logged in, without a login timer
        and with its nop timer if it has one, or the error handler has dealt with it */
    method SetupFullFeature(o: Oracle)
      requires Valid() && live && state == InLogin
      modifies this, contextPool, sched, nodes
      ensures Valid() && View() == FullFeature(g, old(View()), o) && Keeps(old(View()), View(), o)
      ensures !o.negParamsFail && !o.startFails ==>
                && state == LoggedIn && reopenCnt == 0 && !Linked(loginTimer)
                && (g.userspaceNop && g.nopInterval != 0 && o.clock(NopTimer).Some? ==> Linked(nopTimer))
    {
      hide View, Wired, Safe, Base, FullFeature, Awake, Linked, Del;
      ghost var s := View();
      Reads();
      FullFeatureKeeps(g, s, o);
      if !o.negParamsFail && !o.startFails {
        LoggedInFacts(g, s, o);
      }
      FeatureInPlace(o);
      Reads();
      OwnIds();
      LinkedIs(loginTimer);
      LinkedIs(nopTimer);
    }

    method FeatureInPlace(o: Oracle)
      requires Valid() && live && state == InLogin
      modifies this, contextPool, sched, nodes
      ensures Wired() && View() == FullFeature(g, old(View()), o)
    {
      hide View, Wired, Safe, Base, Del, LoginEh, StartTimer, Awake, LoggedInNow;
      Reads();
      DelSafe(View(), LoginTimer);
      ActorDelete(LoginTimer);
      Reads();
      if o.negParamsFail {
        LoginError(o, false);
        return;
      }
      if o.startFails {
        LoginError(o, false);
        return;
      }
      SafeBase(View());
      LoggedInBase(View());
      EnterFullFeature();
      if g.userspaceNop && g.nopInterval != 0 {
        ActorTimer(NopTimer, g.nopInterval, o);
      }
    }

    /** iscsi_recv_login_rsp */
    method ReceiveLoginRsp(o: Oracle)
      requires Valid() && live && state == InLogin
      modifies this, contextPool, sched, nodes
      ensures Valid() && View() == RecvLoginRsp(g, old(View()), o) && Keeps(old(View()), View(), o)
      ensures Answered(g, old(View()), View(), o)
    {
      hide View, Wired, Safe, ActOnLogin, VerdictOn, Moved, Awake, Answered;
      ghost var s := View();
      Reads();
      LoginOutcome(g, s, o);
      RecvLoginRspKeeps(g, s, o);
      MovedSafe(s, o.login);
      var verdict := TakeLoginRsp(o.login);
      Reads();
      FollowVerdict(o, verdict);
    }

    /** The negotiation code and the status check: the address, the wait and the verdict */
    method TakeLoginRsp(rsp: LoginRsp) returns (verdict: LoginVerdict)
      requires Wired()
      modifies `saddr, `failbackSaddr, `time2wait
      ensures Wired() && View() == WithLink(old(View()), Moved(old(View()).link, rsp)) && verdict == VerdictOn(rsp).0
    {
      hide ResponseVerdict, StatusVerdict, Labelled, Covers, Named, Inv, Ring, Scheduler.View, Scheduler.Links;
      if rsp.moved.Some? {
        saddr := rsp.moved.value;
      }
      if rsp.time2wait.Some? {
        time2wait := rsp.time2wait.value;
      }
      verdict := LoginGood;
      if rsp.final {
        verdict := ResponseVerdict(rsp.ret);
        if verdict == LoginGood {
          verdict := StatusVerdict(rsp.statusClass, rsp.statusDetail);
          if verdict == RedirectNow {
            failbackSaddr := saddr;
          }
        }
      }
      Untouched(sched);
    }

    method FollowVerdict(o: Oracle, verdict: LoginVerdict)
      requires Valid() && live && state == InLogin
      modifies this, contextPool, sched, nodes
      ensures Wired() && View() == ActOnLogin(g, old(View()), o, verdict)
    {
      hide View, Wired, Safe, Base, LoginRedirect, LoginEh, FullFeature, Awake;
      Reads();
      match verdict
      case RedirectNow => Redirect(o);
      case LoginRetry => LoginError(o, false);
      case LoginFailed => Abandon(o);
      case AuthFailed => Abandon(o);
      case LoginGood =>
        if o.login.fullFeature {
          SetupFullFeature(o);
        } else if o.loginReqFails {
          LoginError(o, false);
        }
    }

    method Abandon(o: Oracle)
      requires Valid() && live && state == InLogin
      modifies this, contextPool, sched, nodes
      ensures Wired() && View() == LoginEh(g, WithLink(old(View()), old(View()).link.(reopenCnt := g.retryMax)), o, true)
    {
      hide View, Wired, Safe, Base, LoginEh, Awake;
      Reads();
      RecountSafe(View(), g.retryMax);
      SetReopenCnt(g.retryMax);
      Reads();
      LoginError(o, true);
    }

    // ---------- logout ----------

    /** iscsi_send_logout: a logout that was sent has its timer scheduled */
    method DoSendLogout(o: Oracle) returns (sent: bool)
      requires Valid() && live
      modifies this, contextPool, sched, nodes
      ensures Valid() && live && Keeps(old(View()), View(), o)
      ensures var r := SendLogout(g, old(View()), o); View() == r.0 && sent == r.1
      ensures sent <==> old(state) == LoggedIn && !o.sendFails && old(exists i :: 0 <= i < contextPool.Length && contextPool[i].None?)
      ensures sent ==> state == InLogout && exists i :: 0 <= i < contextPool.Length && contextPool[i] == Some(LogoutTimer)
    {
      hide View, Wired, Safe, Base, SchedContext, FirstFree, Awake;
      ghost var s := View();
      Reads();
      SafeBase(s);
      SendLogoutKeeps(g, s, o);
      SomeFree(s.pool);
      if state != LoggedIn || o.sendFails {
        return false;
      }
      SetState(InLogout);
      SameBase(s, View());
      ghost var l := View();
      sent := QueueContext(LogoutTimer, g.logoutTimeout, o);
      Reads();
      if sent {
        BasePool(l);
        SchedContextBase(l, FirstFree(l.pool).value, LogoutTimer, g.logoutTimeout, o);
        assert contextPool[FirstFree(l.pool).value] == Some(LogoutTimer);
      }
    }

    method AcceptLogout()
      requires Wired()
      modifies `logoutTask, `hist
      ensures Wired()
      ensures var s := old(View());
              View() == s.(link := s.link.(logout := true),
                           hist := s.hist.(loggingOut := s.hist.loggingOut || s.link.state == LoggedIn))
    {
      hide Labelled, Covers, Named, Inv, Ring, Scheduler.View, Scheduler.Links;
      logoutTask := true;
      hist := hist.(loggingOut := hist.loggingOut || state == LoggedIn);
      Untouched(sched);
    }

    /** session_logout_task */
    method RequestLogout(o: Oracle) returns (accepted: bool)
      requires Valid() && live
      modifies this, contextPool, sched, nodes
      ensures Valid() && View() == LogoutTask(g, old(View()), o) && Keeps(old(View()), View(), o)
      ensures accepted == !RefusesLogout(old(View()), o)
    {
      hide View, Wired, Safe, Awake, Shutdown, SendLogout;
      ghost var s := View();
      Reads();
      LogoutTaskKeeps(g, s, o);
      if notifyTask && state == XptWait && stage == Reopening {
        return false;
      }
      if notifyTask || ((state == XptWait || state == InLogin) && (stage == NoChange || stage == Redirected)) {
        return false;
      }
      if o.busy {
        return false;
      }
      if logoutTask {
        return false;
      }
      AcceptedSafe(s);
      AcceptLogout();
      CarryOut(o);
      return true;
    }

    method CarryOut(o: Oracle)
      requires Valid() && live
      modifies this, contextPool, sched, nodes
      ensures Wired()
      ensures var l := old(View());
              View() == if l.link.state != LoggedIn then Shutdown(l, o)
                        else if !o.unbindFails then l
                        else (var r := SendLogout(g, l, o); if r.1 then Shutdown(r.0, o) else r.0)
    {
      hide View, Wired, Safe, Awake, Shutdown, SendLogout;
      Reads();
      if state == LoggedIn {
        if !o.unbindFails {
          return;
        }
        var sent := DoSendLogout(o);
        if !sent {
          return;
        }
      }
      var _ := ConnShutdown(o);
    }

    /** iscsi_stop */
    method Stop(o: Oracle, i: nat)
      requires Valid() && live && !On(View(), Context(i))
      modifies this, contextPool, sched, nodes
      ensures Valid() && View() == StopCb(g, old(View()), o, i) && Keeps(old(View()), View(), o)
    {
      hide View, Wired, Safe, Base, Awake, PutContext, SendLogout, Shutdown;
      ghost var s := View();
      Reads();
      SafeBase(s);
      StopKeeps(g, s, o, i);
      PutKeeps(s, i, o);
      ReleaseContext(i);
      Reads();
      var sent := DoSendLogout(o);
      if !sent {
        var _ := ConnShutdown(o);
      }
    }

    // ---------- actors at work ----------

    /** session_conn_poll */
    method PollConnection(o: Oracle, i: nat)
      requires Valid() && live && !On(View(), Context(i))
      modifies this, contextPool, sched, nodes
      ensures Valid() && View() == PollCb(g, old(View()), o, i) && Keeps(old(View()), View(), o)
      ensures |old(View()).pool| == CONTEXT_POOL_MAX
      ensures i < CONTEXT_POOL_MAX && old(state) == XptWait ==> Polled(g, old(View()), View(), o, i)
    {
      hide View, Wired, Safe, Base, Awake, PollCb, Polled;
      ghost var s := View();
      Reads();
      SafeBase(s);
      PollKeeps(g, s, o, i);
      if i < CONTEXT_POOL_MAX && state == XptWait {
        PollOutcome(g, s, o, i);
      }
      PollTransport(o, i);
    }

    method PollTransport(o: Oracle, i: nat)
      requires Valid() && live && !On(View(), Context(i))
      modifies this, contextPool, sched, nodes
      ensures Wired() && View() == PollCb(g, old(View()), o, i)
    {
      hide View, Wired, Safe, Base, Awake, PutContext, ModTimer, LoginEh, SchedContext, ConnectedCb, FirstFree, LoginFailure;
      ghost var s := View();
      Reads();
      SafeBase(s);
      PutKeeps(s, i, o);
      ReleaseContext(i);
      Reads();
      if state != XptWait {
        return;
      }
      match o.poll
      case PollFailed => ActorTimerMod(LoginTimer, CONN_ERR_REOPEN_DELAY, o);
      case NotYet =>
        var ok := QueueContext(PollConn, 1, o);
        Reads();
        if !ok {
          LoginError(o, false);
        }
      case Connected => TransportUp(o);
    }

    method TransportUp(o: Oracle)
      requires Valid() && live && state == XptWait
      modifies this, contextPool, sched, nodes
      ensures Wired() && View() == ConnectedCb(g, old(View()), o)
    {
      hide View, Wired, Safe, Base, LoginEh, Shutdown;
      Reads();
      var isNew := !hasId;
      if isNew && o.createSessionFails {
        SafeBase(View());
        var _ := TearDown(o);
        return;
      }
      CreatedSafe(View(), g.defaultTime2Wait);
      SetHasId(true);
      Reads();
      if isNew && o.createConnFails {
        SafeBase(View());
        var _ := TearDown(o);
        return;
      }
      SetTime2Wait(g.defaultTime2Wait);
      Reads();
      BeginLogin(o);
    }

    method BeginLogin(o: Oracle)
      requires Valid() && live && state == XptWait
      modifies this, contextPool, sched, nodes
      ensures Wired()
      ensures var p := old(View()); var l := WithLink(p, p.link.(state := InLogin));
              View() == if o.bindFails || o.paramsFail || o.hostParamsFail || o.loginBeginFails then LoginEh(g, p, o, false)
                        else if o.loginReqFails then LoginEh(g, l, o, false) else l
    {
      hide View, Wired, Safe, Base, Awake, LoginEh;
      Reads();
      ghost var p := View();
      if o.bindFails || o.paramsFail || o.hostParamsFail || o.loginBeginFails {
        LoginError(o, false);
        return;
      }
      InLoginSafe(p);
      SetState(InLogin);
      Reads();
      if o.loginReqFails {
        LoginError(o, false);
      }
    }

    /** iscsi_recv_nop_in: an answer starts the nop timer over */
    method ReceiveNopIn(o: Oracle, answer: bool)
      requires Valid() && live && !Connecting(state)
      modifies this, contextPool, sched, nodes
      ensures Valid() && View() == RecvNop(g, old(View()), o, answer) && Keeps(old(View()), View(), o)
      ensures g.userspaceNop && answer && o.clock(NopTimer).Some? ==> Linked(nopTimer) && nopWork == SendNop
    {
      hide View, Wired, Safe, Base, Awake, Del, StartTimer, Linked;
      Reads();
      ghost var s := View();
      SafeBase(s);
      NopKeeps(g, s, o, answer);
      if g.userspaceNop && answer {
        DelBase(s, NopTimer);
        ActorDelete(NopTimer);
        ghost var d := View();
        SetNop(SendNop);
        SameBase(d, View());
        StartTimerBase(View(), NopTimer, g.nopInterval, o);
        ActorTimer(NopTimer, g.nopInterval, o);
        Reads();
        OwnIds();
        LinkedIs(nopTimer);
      }
    }

    method ReceivePdu(o: Oracle)
      requires Valid() && live && !Connecting(state)
      modifies this, contextPool, sched, nodes
      ensures Wired() && View() == HandlePdu(g, old(View()), o)
    {
      hide View, Wired, Safe, Base, Awake, RecvNop, ErrorHandle, SendLogout;
      Reads();
      ghost var s := View();
      match o.pdu
      case NopIn(answer) => ReceiveNopIn(o, answer);
      case LogoutRsp(response, wait) =>
        if response == 2 || response == 3 {
          SetTime2Wait(wait);
          WaitSafe(s, wait);
          Reads();
        }
        ConnErrorHandle(o);
      case AsyncLogoutRequest => var _ := DoSendLogout(o);
      case AsyncDropping(wait) => SetTime2Wait(wait);
      case AsyncParamNegotiation => ConnErrorHandle(o);
      case _ =>
    }

    /** session_conn_recv_pdu */
    method PduArrived(o: Oracle, i: nat)
      requires Valid() && live && !On(View(), Context(i))
      modifies this, contextPool, sched, nodes
      ensures Valid() && View() == RecvPduCb(g, old(View()), o, i) && Keeps(old(View()), View(), o)
    {
      hide View, Wired, Safe, Base, Awake, PutContext, RecvLoginRsp, HandlePdu;
      ghost var s := View();
      Reads();
      SafeBase(s);
      RecvPduKeeps(g, s, o, i);
      PutKeeps(s, i, o);
      var was := state;
      if o.released || !(was == InLogin || was == LoggedIn || was == InLogout || was == LogoutRequested) {
        ReleaseContext(i);
        Reads();
      }
      if was == InLogin {
        ReceiveLoginRsp(o);
      } else if was == LoggedIn || was == InLogout || was == LogoutRequested {
        if !o.recvFails {
          ReceivePdu(o);
        }
      }
    }

    /** conn_send_nop_out and conn_nop_out_timeout */
    method NopTimerRuns(o: Oracle)
      requires Valid() && live && !On(View(), NopTimer) && !Connecting(state)
      modifies this, contextPool, sched, nodes
      ensures Valid() && View() == NopCb(g, old(View()), o) && Keeps(old(View()), View(), o)
      ensures NopHandled(g, old(View()), View(), o)
    {
      hide View, Wired, Safe, Base, Awake, ErrorHandle, StartTimer, NopHandled, LossHandled;
      ghost var s := View();
      Reads();
      SafeBase(s);
      NopOutcome(g, s, o);
      NopCbKeeps(g, s, o);
      if nopWork == NopTimeout {
        ConnErrorHandle(o);
        return;
      }
      if state == InLogout {
        return;
      }
      SetNop(NopTimeout);
      NopOff(s);
      ActorTimer(NopTimer, g.nopTimeout, o);
    }

    /** The callback of an event context, whose actor has just been taken off its list. */
    method ContextRuns(o: Oracle, i: nat, ev: CtxEvent)
      requires Valid() && live && !On(View(), Context(i))
      modifies this, contextPool, sched, nodes
      ensures Valid() && View() == ContextCb(g, old(View()), o, i, ev) && Keeps(old(View()), View(), o)
      ensures |old(View()).pool| == CONTEXT_POOL_MAX
      ensures i < CONTEXT_POOL_MAX ==> EventHandled(g, old(View()), View(), o, i, ev)
    {
      hide View, Wired, Safe, Awake, ContextCb, EventHandled;
      ghost var s := View();
      Reads();
      ContextKeeps(g, s, o, i, ev);
      if i < CONTEXT_POOL_MAX {
        EventOutcome(g, s, o, i, ev);
      }
      CallBack(o, i, ev);
    }

    method CallBack(o: Oracle, i: nat, ev: CtxEvent)
      requires Valid() && live && !On(View(), Context(i))
      modifies this, contextPool, sched, nodes
      ensures Wired() && View() == ContextCb(g, old(View()), o, i, ev)
    {
      hide View, Wired, Safe, Base, Awake, PutContext, RecvPduCb, Shutdown, ErrorHandle, PollCb, StopCb, LossHandled, Polled;
      ghost var s := View();
      Reads();
      SafeBase(s);
      PutKeeps(s, i, o);
      match ev
      case RecvPdu => PduArrived(o, i);
      case ConnError(invalidHost) =>
        ReleaseContext(i);
        Reads();
        if invalidHost {
          var _ := ConnShutdown(o);
        } else {
          ConnErrorHandle(o);
        }
      case PollConn => PollConnection(o, i);
      case LogoutTimer =>
        ReleaseContext(i);
        Reads();
        ConnErrorHandle(o);
      case StopConn => Stop(o, i);
      case LoginState => ReleaseContext(i);
    }

    // ---------- whole runs ----------

    /** A kernel event for the connection, if there is a context for it */
    method KernelEventArrives(ev: CtxEvent, o: Oracle)
      requires Valid() && live && Enabled(View(), KernelEvent(ev, o))
      modifies this, contextPool, sched, nodes
      ensures Valid() && View() == Next(g, old(View()), KernelEvent(ev, o))
    {
      hide View, Wired, Safe, Base, Awake, SchedContext, FirstFree;
      ghost var s := View();
      SafeBase(s);
      KernelKeeps(g, s, ev, o);
      var _ := QueueContext(ev, 0, o);
    }

    /** actor_poll moves what is due. */
    method PollMovesDue(now: int)
      requires Valid()
      modifies this, contextPool, sched, nodes
      ensures Valid() && View() == Next(g, old(View()), PollMoves(now))
    {
      hide View, Wired, Safe, Awake, Ripen;
      OtherKeeps(g, View(), PollMoves(now));
      RipenLists(now);
    }

    method RipenLists(now: int)
      requires Wired()
      modifies sched, nodes
      ensures Wired() && View() == old(View()).(sched := Ripen(old(View()).sched, now))
    {
      hide Ring, Inv, Timers, OneToOne, Covers, Named, Labelled, Scheduling.Ripen, Scheduler.View, Scheduler.Links;
      Footprint();
      NamedRipen(ids, sched.View(), now);
      sched.Ripen(now);
    }

    /** actor_poll takes the first ready actor off its list. */
    method TakeActor() returns (n: Node)
      requires Wired() && sched.ready != []
      modifies sched, nodes
      ensures Wired() && n in ids && old(View()).sched.ready != [] && ids[n] == old(View()).sched.ready[0]
      ensures View() == old(View()).(sched := Take(old(View()).sched))
    {
      hide Ring, Inv, Timers, OneToOne, Covers, NameStates, Labelled, Scheduling.Take, Scheduler.Links;
      Footprint();
      ReadyNamed();
      hide Scheduler.View, Named;
      NamedTake(ids, sched.View());
      n := sched.TakeFirst();
    }

    lemma ReadyNamed()
      requires Wired()
      ensures |View().sched.ready| == |sched.ready|
      ensures sched.ready != [] ==> sched.View().ready != [] && sched.ready[0] in ids && View().sched.ready[0] == ids[sched.ready[0]]
    {
      hide Ring, Inv, Timers, NameStates;
    }

    /** Whose actor this is. */
    lemma WhoIs(n: Node)
      requires Wired() && n in ids && (ids[n].Context? ==> ids[n].i < |contextActors|)
      ensures n == loginTimer <==> ids[n] == LoginTimer
      ensures n == nopTimer <==> ids[n] == NopTimer
      ensures match ContextOf(contextActors, n)
              case Some(i) => i < |contextActors| && ids[n] == Context(i)
              case None => !ids[n].Context?
    {
      hide Ring, Inv, Timers, Covers, Named, ContextOf;
    }

    /** actor_poll runs the actor it has taken, if it is one of this session. */
    method PollRunsFirst(o: Oracle)
      requires Valid() && sched.ready != []
      modifies this, contextPool, sched, nodes
      ensures old(View()).sched.ready != []
      ensures Valid() && View() == Next(g, old(View()), PollRuns(o)) && Keeps(old(View()), View(), o)
      ensures |old(View()).pool| == CONTEXT_POOL_MAX && RunHandled(g, old(View()), View(), o)
    {
      hide View, Wired, Safe, Awake, Take, Callback, RunHandled;
      ghost var s := View();
      ReadyNamed();
      StepOutcome(g, s, o);
      RunKeeps(g, s, o);
      TakenIs(s);
      Reads();
      var n := TakeActor();
      Reads();
      Dispatch(n, o);
    }

    method Dispatch(n: Node, o: Oracle)
      requires Valid() && n in ids && !On(View(), ids[n]) && (live || ids[n].Foreign?)
      requires ids[n].NopTimer? ==> !Connecting(state)
      requires ids[n].Context? ==> ids[n].i < |View().pool| && View().pool[ids[n].i].Some?
      modifies this, contextPool, sched, nodes
      ensures Wired() && View() == Callback(g, old(View()), o, ids[n])
    {
      hide View, Wired, Safe, Awake, LoginEh, NopCb, ContextCb;
      Reads();
      WhoIs(n);
      var i := ContextOf(contextActors, n);
      if n == loginTimer {
        LoginError(o, false);
      } else if n == nopTimer {
        NopTimerRuns(o);
      } else if i.Some? {
        ContextRuns(o, i.value, contextPool[i.value].value);
      }
    }

    /** Others use the scheduler for an actor of their own. */
    method OthersUse(e: Step, n: Node)
      requires Valid() && Others(e) && n in outside && n in ids && ids[n] == Foreign(e.n) && Enabled(View(), e)
      modifies this, contextPool, sched, nodes
      ensures Valid() && View() == Next(g, old(View()), e)
    {
      hide View, Wired, Safe, Awake, Init, Delete, Schedule;
      OtherKeeps(g, View(), e);
      match e
      case OtherInit(_) =>
        LinkedIs(n);
        InitOther(n);
      case OtherDelete(_) => DeleteOther(n);
      case OtherSchedule(_, at, delay, head) => ScheduleOther(n, at, delay, head);
    }

    method InitOther(n: Node)
      requires Wired() && n in outside && n in ids && !Linked(n)
      modifies sched, nodes
      ensures Wired() && View() == old(View()).(sched := Init(old(View()).sched, ids[n]))
    {
      hide Ring, Inv, Timers, OneToOne, Covers, Named, Labelled, Scheduling.Init, Scheduler.View, Scheduler.Links;
      Footprint();
      NamedInit(ids, sched.View(), n);
      sched.Init(n);
    }

    method DeleteOther(n: Node)
      requires Wired() && n in outside && n in ids
      modifies sched, nodes
      ensures Wired() && View() == old(View()).(sched := Delete(old(View()).sched, ids[n]))
    {
      hide Ring, Inv, Timers, OneToOne, Covers, Named, Labelled, Scheduling.Delete, Scheduler.View, Scheduler.Links;
      Footprint();
      NamedDelete(ids, sched.View(), n);
      sched.Delete(n);
    }

    method ScheduleOther(n: Node, at: Option<int>, delay: uint32, head: bool)
      requires Wired() && n in outside && n in ids
      modifies sched, nodes
      ensures Wired() && View() == old(View()).(sched := Schedule(old(View()).sched, at, ids[n], delay, head))
    {
      hide Ring, Inv, Timers, OneToOne, Covers, Named, Labelled, Scheduling.Schedule, Scheduler.View, Scheduler.Links;
      Footprint();
      NamedSchedule(ids, sched.View(), at, n, delay, head);
      sched.Schedule(n, at, delay, head);
    }

    /** The actors of others that a run names. */
    ghost predicate Known(others: map<nat, Node>) {
      forall k :: k in others ==> others[k] in outside && others[k] in ids && ids[others[k]] == Foreign(k)
    }

    /** A step of a run. */
    method Perform(e: Step, others: map<nat, Node>)
      requires Valid() && Enabled(View(), e) && Known(others) && (Others(e) ==> e.n in others)
      modifies this, contextPool, sched, nodes
      ensures Valid() && View() == Next(g, old(View()), e)
    {
      hide View, Wired, Safe, Awake, Callback, LogoutTask;
      Reads();
      ReadyNamed();
      match e
      case KernelEvent(ev, o) => KernelEventArrives(ev, o);
      case PollMoves(now) => PollMovesDue(now);
      case PollRuns(o) => PollRunsFirst(o);
      case LogoutRequest(o) => var _ := RequestLogout(o);
      case _ => OthersUse(e, others[e.n]);
    }

    /** Any run of a session on the lists of the process: they stay sound all along, and
        once the session has been freed they hold none of its actors. */
    method Drive(steps: seq<Step>, others: map<nat, Node>)
      requires Valid() && Run(g, View(), steps)
      requires Known(others) && forall i :: 0 <= i < |steps| && Others(steps[i]) ==> steps[i].n in others
      modifies this, contextPool, sched, nodes
      ensures Valid() && View() == After(g, old(View()), steps)
      ensures !live ==> forall n :: n in sched.pend || n in sched.ready ==> n in ids && ids[n].Foreign?
    {
      hide View, Wired, Safe, Awake, Enabled, Next, Others, Known;
      assert steps[0..] == steps;
      for i := 0 to |steps|
        invariant Valid() && Run(g, View(), steps[i..]) && After(g, View(), steps[i..]) == After(g, old(View()), steps)
      {
        assert steps[i..][1..] == steps[i + 1..];
        Perform(steps[i], others);
      }
      if !live {
        NothingLinked();
      }
    }

    /** __session_login_task: a new session that starts to connect */
    static method Login(g: Config, sched: Scheduler, address: Address, o: Oracle, ghost others: map<Node, nat>)
      returns (c: SessionConn)
      requires sched.Valid() && OneToOne(others) && sched.actors <= others.Keys
      requires sched.pendList !in others && sched.readyList !in others
      modifies sched, others.Keys, sched.pendList, sched.readyList
      ensures c.Valid() && c.g == g && c.sched == sched && c.outside == old(sched.actors) && Starts(g, c.View(), o)
    {
      hide Ring, Inv, Timers, OneToOne, Named, Blank, ConnectOrRetry, Base, Scheduler.View, Scheduler.Links;
      StatesOf(sched);
      var link := Link(XptWait, NoChange, 0, g.defaultTime2Wait, false, false, false, address, address);
      c := Create(g, sched, link, others);
      ghost var q := Named(c.ids, old(sched.View()));
      FreshNamed(c.ids, others, old(sched.View()));
      StartsWith(g, q, address, o);
      BlankBase(q, link);
      c.ConnectOrWait(o);
      StartSafe(g, c.View(), o);
    }
  }

  ghost function IdsOf(others: map<Node, nat>, login: Node, nop: Node, contexts: seq<Node>): (ids: map<Node, ActorId>)
    ensures ids.Keys == others.Keys + {login, nop} + (set i | 0 <= i < |contexts| :: contexts[i])
  {
    map n | n in others.Keys + {login, nop} + (set i | 0 <= i < |contexts| :: contexts[i]) ::
      if n == login then LoginTimer
      else if n == nop then NopTimer
      else if n in contexts then Context(var i: nat :| i < |contexts| && contexts[i] == n; i)
      else Foreign(others[n])
  }

  lemma IdsLabel(others: map<Node, nat>, login: Node, nop: Node, contexts: seq<Node>)
    requires OneToOne(others) && login != nop && login !in contexts && nop !in contexts && login !in others && nop !in others
    requires forall i :: 0 <= i < |contexts| ==> contexts[i] !in others
    requires forall j, k :: 0 <= j < k < |contexts| ==> contexts[j] != contexts[k]
    ensures var ids := IdsOf(others, login, nop, contexts);
            && OneToOne(ids) && ids[login] == LoginTimer && ids[nop] == NopTimer
            && (forall i :: 0 <= i < |contexts| ==> ids[contexts[i]] == Context(i))
            && (forall n :: n in others ==> ids[n] == Foreign(others[n]))
  {
  }

  /** A new session, by what is done to the lists. */
  lemma BlankIs(ids: map<Node, ActorId>, q: Sched<Node>, link: Link, login: Node, nop: Node)
    requires OneToOne(ids) && Covers(ids, q) && login in ids && nop in ids
    requires ids[login] == LoginTimer && ids[nop] == NopTimer && !OnList(q, login) && !OnList(q, nop)
    ensures var d := Init(Wipe(Wipe(q, nop), login), login);
            && Covers(ids, d)
            && Blank(Named(ids, q), link) ==
               Sess(true, link, seq(CONTEXT_POOL_MAX, _ => None), SendNop, Named(ids, d), History(0, true, false))
  {
    hide OneToOne, Covers, Named, OnList;
    NamedInit(ids, q, nop);
    NamedInit(ids, Wipe(q, nop), login);
    NamedInit(ids, Wipe(Wipe(q, nop), login), login);
    NamedOnList(ids, q, nop);
    SameList(q, nop, login);
    NamedOnList(ids, Wipe(q, nop), login);
    SameList(Wipe(q, nop), login, login);
    NamedOnList(ids, Wipe(Wipe(q, nop), login), login);
  }

  twostate lemma Untouched(sched: Scheduler)
    requires old(sched.Valid()) && unchanged(sched) && unchanged(old(sched.Nodes()))
    ensures sched.Valid() && sched.View() == old(sched.View())
    ensures forall n :: n in sched.pend ==> n in sched.actors
  {
    hide Ring, Inv, Timers;
  }

  lemma SameList(q: Sched<Node>, a: Node, n: Node)
    ensures OnList(Wipe(q, a), n) == OnList(q, n)
  {
  }

  lemma {:induction false} FirstFreeIs(pool: seq<Option<CtxEvent>>, i: nat)
    requires i < |pool| && pool[i].None? && forall k :: 0 <= k < i ==> pool[k].Some?
    ensures FirstFree(pool) == Some(i)
  {
    if i > 0 {
      FirstFreeIs(pool[1..], i - 1);
    }
  }

  lemma {:induction false} FirstFreeNone(pool: seq<Option<CtxEvent>>)
    requires forall k :: 0 <= k < |pool| ==> pool[k].Some?
    ensures FirstFree(pool) == None
  {
    if pool != [] {
      FirstFreeNone(pool[1..]);
    }
  }

  lemma FlushStep(s: Sess, i: nat)
    ensures FlushFrom(s, i) == if i >= |s.pool| then s
                               else if s.pool[i].None? then FlushFrom(s, i + 1)
                               else FlushFrom(PutContext(Del(s, Context(i)), i), i + 1)
  {
  }

  lemma EraseThenSet(s: Sess, i: nat, ev: CtxEvent)
    requires i < |s.pool|
    ensures GetContext(s, i, ev) == (var e := Erase(s, Context(i)); e.(pool := e.pool[i := Some(ev)]))
  {
    hide OnList;
  }

  /** iscsi_login_eh comes down to a shutdown, a reopening or nothing. */
  lemma LoginEhIs(g: Config, s: Sess, o: Oracle, fatal: bool, shutdown: bool, reopen: bool, stop: bool)
    requires var f := Flush(s);
             var retry := RetryInitial(g, f, o);
             var busy := s.link.state == XptWait || s.link.state == InLogin;
             && f.link == s.link
             && (shutdown <==>
                 && busy
                 && (|| (s.link.stage in {NoChange, Redirected} && (fatal || !retry))
                     || (s.link.stage == Reopening && s.link.state == XptWait && g.reopenMax != 0 && s.link.reopenCnt > g.reopenMax)
                     || s.link.stage == Cleanup))
             && (reopen <==> busy && !shutdown && s.link.stage in {NoChange, Redirected, Reopening})
             && stop == (s.link.state == InLogin || (s.link.state == XptWait && s.link.stage == NoChange && s.link.hasId))
    ensures LoginEh(g, s, o, fatal) ==
            if shutdown then Shutdown(Flush(s), o) else if reopen then ConnReopen(g, Flush(s), o, stop) else Flush(s)
  {
    hide Flush, Shutdown, ConnReopen;
  }

  /** The context an actor belongs to, as its data pointer tells. */
  function ContextOf(contexts: seq<Node>, n: Node): (r: Option<nat>)
    ensures r.Some? ==> r.value < |contexts| && contexts[r.value] == n
    ensures r.None? ==> n !in contexts
  {
    if contexts == [] then None
    else if contexts[0] == n then Some(0)
    else match ContextOf(contexts[1..], n) case Some(i) => Some(i + 1) case None => None
  }

  /** A step by which others use the scheduler for their own actors. */
  predicate Others(e: Step) { e.OtherInit? || e.OtherDelete? || e.OtherSchedule? }

  /** On lists with actors of others only, no actor of a new session is listed. */
  lemma FreshNamed(ids: map<Node, ActorId>, others: map<Node, nat>, q: Sched<Node>)
    requires OneToOne(ids) && Covers(ids, q) && Inv(q) && q.states.Keys <= others.Keys
    requires forall n :: n in others ==> n in ids && ids[n] == Foreign(others[n])
    ensures Fresh(Named(ids, q))
  {
    hide Inv, OneToOne;
    NamedInv(ids, q);
  }

  lemma StatesOf(sched: Scheduler)
    requires sched.Valid()
    ensures sched.View().states.Keys == sched.actors && Inv(sched.View())
  {
    hide Ring, Inv, Timers;
  }

  lemma StartsWith(g: Config, q: Sched<ActorId>, address: Address, o: Oracle)
    requires Fresh(q)
    ensures Starts(g, LoginStart(g, q, address, o), o)
  {
    hide Fresh, LoginStart, SyncStart;
  }
}
