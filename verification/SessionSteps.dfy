/** What the parts of the session machine do to actors, pool and link. */
module SessionSteps {
  import opened CText
  import opened Scheduling
  import opened SchedSteps
  import opened Sessions

  // ---------- scheduler calls, by their effect on actor states ----------

  lemma DeleteStates<A>(q: Sched<A>, a: A)
    requires Inv(q)
    ensures Inv(Delete(q, a)) && Delete(q, a).states == q.states[a := NotScheduled]
  {
    hide Inv, DropTimer, DropActor;
    DeleteFacts(q, a);
  }

  /** The state of `a` may have changed, the others have not. */
  ghost predicate Only<A>(q: Sched<A>, d: Sched<A>, a: A) {
    d.states == q.states || (a in d.states && d.states == q.states[a := d.states[a]])
  }

  lemma PlaceStates<A>(q: Sched<A>, now: int, a: A, delay: uint32, head: bool)
    ensures var d := Place(q, now, a, delay, head); d.states == q.states[a := if delay == 0 then Scheduled else Waiting]
  {
    hide Insert, Alarm;
  }

  lemma ScheduleStates<A>(q: Sched<A>, now: Option<int>, a: A, delay: uint32, head: bool)
    requires Inv(q)
    ensures var d := Schedule(q, now, a, delay, head);
            && Inv(d) && Only(q, d, a)
            && (now.Some? && StateOf(q, a) in {Waiting, NotScheduled} ==> StateOf(d, a) in {Waiting, Scheduled})
  {
    hide Inv, Place, DropTimer;
    ScheduleFacts(q, now, a, delay, head, 0);
    if now.Some? {
      PlaceStates(q.(pend := DropTimer(q.pend, a)), now.value, a, delay, head);
      PlaceStates(q, now.value, a, delay, head);
    }
  }

  lemma TimerModStates<A>(q: Sched<A>, now: Option<int>, a: A, delay: uint32)
    requires Inv(q)
    ensures var d := TimerMod(q, now, a, delay);
            && Inv(d) && Only(q, d, a)
            && (now.Some? ==> StateOf(d, a) in {Waiting, Scheduled})
  {
    hide Inv, Delete, Schedule;
    DeleteStates(q, a);
    ScheduleStates(Delete(q, a), now, a, delay, false);
  }

  lemma {:induction false} MarkState<A>(states: map<A, ActorState>, actors: seq<A>, a: A)
    ensures var m := Mark(states, actors, Scheduled);
            (a in m <==> a in states || a in actors) && (a in m ==> m[a] == if a in actors then Scheduled else states[a])
  {
    if actors != [] {
      MarkState(states, actors[..|actors| - 1], a);
      assert actors == actors[..|actors| - 1] + [actors[|actors| - 1]];
    }
  }

  predicate Active(state: ActorState) { state == Waiting || state == Scheduled }

  lemma RipenStates<A>(q: Sched<A>, now: int, a: A)
    requires Inv(q)
    ensures Inv(Ripen(q, now)) && Active(StateOf(Ripen(q, now), a)) == Active(StateOf(q, a))
  {
    RipenFacts(q, now, 0);
    StateTells(q, a);
    var n := RipeCount(q.pend, now);
    assert Actors(q.pend[..n]) == Actors(q.pend)[..n];
    MarkState(q.states, Actors(q.pend[..n]), a);
    hide Inv, Mark, RipeCount;
  }

  // ---------- actors ----------

  /** Free contexts are off the lists, and nothing unsafe has happened. */
  ghost predicate Base(s: Sess) {
    && Inv(s.sched) && s.hist.sound && |s.pool| == CONTEXT_POOL_MAX
    && (forall i: nat :: i >= |s.pool| || s.pool[i].None? ==> !On(s, Context(i)))
  }

  /** An actor that may be on a list: not a free context. */
  predicate May(s: Sess, a: ActorId) {
    a.Context? ==> a.i < |s.pool| && s.pool[a.i].Some?
  }

  ghost predicate OthersStay(s: Sess, d: Sess, a: ActorId) {
    forall b :: b != a ==> On(d, b) == On(s, b)
  }

  lemma OnListIs(s: Sess, a: ActorId)
    requires Inv(s.sched)
    ensures OnList(s.sched, a) == On(s, a)
  {
    StateTells(s.sched, a);
  }

  lemma DelBase(s: Sess, a: ActorId)
    requires Base(s)
    ensures var d := Del(s, a);
            Base(d) && !On(d, a) && OthersStay(s, d, a) && d == s.(sched := d.sched)
  {
    hide Inv, Delete;
    DeleteStates(s.sched, a);
  }

  lemma SetUpBase(s: Sess, a: ActorId)
    requires Base(s) && !On(s, a)
    ensures var d := SetUp(s, a);
            && Base(d) && !On(d, a) && OthersStay(s, d, a) && d == s.(sched := d.sched)
            && StateOf(d.sched, a) == NotScheduled
  {
    hide Inv, OnList;
    OnListIs(s, a);
    StateTells(s.sched, a);
    IdleFacts(s.sched, a);
  }

  lemma EraseBase(s: Sess, a: ActorId)
    requires Base(s) && !On(s, a)
    ensures var d := Erase(s, a);
            Base(d) && !On(d, a) && OthersStay(s, d, a) && d == s.(sched := d.sched)
  {
    hide Inv, OnList;
    OnListIs(s, a);
    StateTells(s.sched, a);
    IdleFacts(s.sched, a);
  }

  lemma ArmBase(s: Sess, a: ActorId, delay: uint32, head: bool, o: Oracle)
    requires Base(s) && May(s, a)
    ensures var d := Arm(s, a, delay, head, o);
            && Base(d) && OthersStay(s, d, a) && d == s.(sched := d.sched)
            && (o.clock(a).Some? && StateOf(s.sched, a) == NotScheduled ==> On(d, a))
  {
    hide Inv, Schedule;
    ScheduleStates(s.sched, o.clock(a), a, delay, head);
  }

  lemma StartTimerBase(s: Sess, a: ActorId, delay: uint32, o: Oracle)
    requires Base(s) && !On(s, a) && May(s, a)
    ensures var d := StartTimer(s, a, delay, o);
            && Base(d) && OthersStay(s, d, a) && d == s.(sched := d.sched)
            && (o.clock(a).Some? ==> On(d, a))
  {
    hide Base, SetUp, Arm;
    SetUpBase(s, a);
    ArmBase(SetUp(s, a), a, delay, false, o);
  }

  lemma ModTimerBase(s: Sess, a: ActorId, delay: uint32, o: Oracle)
    requires Base(s) && May(s, a)
    ensures var d := ModTimer(s, a, delay, o);
            && Base(d) && OthersStay(s, d, a) && d == s.(sched := d.sched)
            && (o.clock(a).Some? ==> On(d, a))
  {
    hide Inv, TimerMod;
    TimerModStates(s.sched, o.clock(a), a, delay);
  }

  // ---------- the pool ----------

  lemma PutBase(s: Sess, i: nat)
    requires Base(s) && !On(s, Context(i))
    ensures var d := PutContext(s, i);
            && Base(d) && d == s.(pool := d.pool)
            && forall a :: On(d, a) == On(s, a)
  {
    hide Inv;
  }

  lemma GetBase(s: Sess, i: nat, ev: CtxEvent)
    requires Base(s) && i < |s.pool| && s.pool[i].None?
    ensures var d := GetContext(s, i, ev);
            && Base(d) && !On(d, Context(i)) && OthersStay(s, d, Context(i))
            && d == s.(sched := d.sched, pool := s.pool[i := Some(ev)])
  {
    hide Inv, Erase;
    EraseBase(s.(pool := s.pool[i := Some(ev)]), Context(i));
  }

  lemma SchedContextBase(s: Sess, i: nat, ev: CtxEvent, delay: uint32, o: Oracle)
    requires Base(s) && i < |s.pool| && s.pool[i].None?
    ensures var d := SchedContext(s, i, ev, delay, o);
            && Base(d) && OthersStay(s, d, Context(i))
            && d == s.(sched := d.sched, pool := s.pool[i := Some(ev)])
  {
    hide Base, GetContext, SetUp, Arm;
    BasePool(s);
    GetBase(s, i, ev);
    SetUpBase(GetContext(s, i, ev), Context(i));
    ArmBase(SetUp(GetContext(s, i, ev), Context(i)), Context(i), delay, ev == ConnError(true), o);
  }

  lemma BasePool(s: Sess)
    requires Base(s)
    ensures |s.pool| == CONTEXT_POOL_MAX && s.hist.sound
    ensures forall i: nat :: i >= |s.pool| || s.pool[i].None? ==> !On(s, Context(i))
  {
  }

  ghost predicate TimersStay(s: Sess, d: Sess) {
    On(d, LoginTimer) == On(s, LoginTimer) && On(d, NopTimer) == On(s, NopTimer)
  }

  lemma {:induction false} FlushFromBase(s: Sess, i: nat)
    requires Base(s) && i <= |s.pool|
    requires forall k :: 0 <= k < i ==> s.pool[k].None?
    ensures var d := FlushFrom(s, i);
            && Base(d) && TimersStay(s, d) && d == s.(sched := d.sched, pool := d.pool)
            && (forall k :: 0 <= k < |d.pool| ==> d.pool[k].None?)
    decreases |s.pool| - i
  {
    hide Base, Del, PutContext;
    BasePool(s);
    if i < |s.pool| {
      if s.pool[i].None? {
        FlushFromBase(s, i + 1);
      } else {
        DelBase(s, Context(i));
        var e := Del(s, Context(i));
        PutBase(e, i);
        PutPool(e, i);
        FlushFromBase(PutContext(e, i), i + 1);
      }
    }
  }

  lemma PutPool(s: Sess, i: nat)
    requires i < |s.pool|
    ensures PutContext(s, i).pool == s.pool[i := None]
  {
  }

  ghost predicate PoolEmpty(s: Sess) {
    forall k :: 0 <= k < |s.pool| ==> s.pool[k].None?
  }

  lemma FlushBase(s: Sess)
    requires Base(s)
    ensures var d := Flush(s);
            Base(d) && TimersStay(s, d) && PoolEmpty(d) && d == s.(sched := d.sched, pool := d.pool)
  {
    FlushFromBase(s, 0);
  }

  lemma DeleteTimersBase(s: Sess)
    requires Base(s)
    ensures var d := DeleteTimers(s);
            && Base(d) && !On(d, LoginTimer) && !On(d, NopTimer)
            && d == s.(sched := d.sched)
  {
    hide Base, Del;
    DelBase(s, LoginTimer);
    DelBase(Del(s, LoginTimer), NopTimer);
  }
}
