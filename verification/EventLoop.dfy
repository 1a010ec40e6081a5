/** The event loop of usr/event_poll.c around the scheduler: the clock, SIGALRM through a
    signalfd, and poll(2).  The properties hold in every state of every run. */
module EventLoop {
  import opened CText
  import opened Scheduling
  import opened SchedSteps

  /** `sig` is a SIGALRM not yet read.  `mustPoll` says that the loop has been woken and
      has not called actor_poll since; it does so before it blocks again. */
  datatype Loop<A(==)> = Loop(
    s: Sched<A>,
    clock: int,
    sig: bool,
    mustPoll: bool,
    polling: bool,
    blocked: bool)

  /** The calls made by handlers and by the actors themselves are `Init` to `TimerMod`.
      `clockOk` is the success of clock_gettime. */
  datatype Event<A> =
    | DoInit(a: A)
    | DoWipe(a: A)
    | DoDelete(a: A)
    | DoSchedule(a: A, delay: uint32, head: bool, clockOk: bool)
    | DoTimerMod(a: A, delay: uint32, clockOk: bool)
    | Poll(clockOk: bool)
    | RunActor
    | PollEnd
    | Block
    | Wake
    | ReadSignal
    | Fire
    | Tick(time: int)

  /** What a caller of the scheduler owes: an actor is set up, cleared or freed only while
      it is on no list. */
  predicate Enabled<A>(l: Loop<A>, e: Event<A>) {
    match e
    case DoInit(a) => !l.blocked && !OnList(l.s, a)
    case DoWipe(a) => !l.blocked && !OnList(l.s, a)
    case RunActor => l.polling && l.s.ready != []
    case PollEnd => l.polling && l.s.ready == []
    case Block => !l.blocked && !l.polling && !l.mustPoll
    case Wake => l.blocked
    case ReadSignal => !l.blocked && !l.polling && l.sig && l.mustPoll
    case Fire => l.s.alarm.Some? && l.s.alarm.value <= l.clock
    case Tick(time) => l.clock <= time
    case _ => !l.blocked
  }

  function Now<A>(l: Loop<A>, clockOk: bool): Option<int> {
    if clockOk then Some(l.clock) else None
  }

  function Next<A>(l: Loop<A>, e: Event<A>): Loop<A>
    requires Enabled(l, e)
  {
    match e
    case DoInit(a) => l.(s := Init(l.s, a))
    case DoWipe(a) => l.(s := Wipe(l.s, a))
    case DoDelete(a) => l.(s := Delete(l.s, a))
    case DoSchedule(a, delay, head, clockOk) => l.(s := Schedule(l.s, Now(l, clockOk), a, delay, head))
    case DoTimerMod(a, delay, clockOk) => l.(s := TimerMod(l.s, Now(l, clockOk), a, delay))
    case Poll(clockOk) =>
      if l.polling then l
      else if clockOk then l.(s := Ripen(l.s, l.clock), mustPoll := false, polling := true)
      else l.(mustPoll := false)
    case RunActor => l.(s := Take(l.s))
    case PollEnd => l.(polling := false)
    case Block => l.(blocked := true)
    case Wake => l.(blocked := false, mustPoll := true)
    case ReadSignal => l.(sig := false)
    case Fire => l.(s := l.s.(alarm := None), sig := true)
    case Tick(time) => l.(clock := time)
  }

  function Start<A>(clock: int): Loop<A> {
    Loop(Empty(), clock, false, true, false, false)
  }

  /** These events can happen one after the other. */
  predicate Run<A>(l: Loop<A>, events: seq<Event<A>>)
    decreases |events|
  {
    events == [] || (Enabled(l, events[0]) && Run(Next(l, events[0]), events[1..]))
  }

  function After<A>(l: Loop<A>, events: seq<Event<A>>): Loop<A>
    requires Run(l, events)
    decreases |events|
  {
    if events == [] then l else After(Next(l, events[0]), events[1..])
  }

  // ---------- the invariant ----------

  /** A waiting actor has something that will wake the loop for it. */
  predicate Covered<A>(l: Loop<A>) {
    l.sig || l.mustPoll || Armed(l.s)
  }

  ghost predicate LoopInv<A>(l: Loop<A>) {
    && Inv(l.s)
    && DueBy(l.s, l.clock + UINT32_SPAN - 1)
    && (l.blocked ==> !l.mustPoll && !l.polling)
  }

  lemma CallKeeps<A>(l: Loop<A>, e: Event<A>)
    requires LoopInv(l) && Enabled(l, e)
    requires e.DoInit? || e.DoWipe? || e.DoDelete? || e.DoSchedule? || e.DoTimerMod?
    ensures LoopInv(Next(l, e))
    ensures Covered(l) ==> Covered(Next(l, e))
  {
    hide Inv, Armed, Schedule, Delete, Init, Wipe;
    var time := l.clock + UINT32_SPAN - 1;
    match e
    case DoInit(a) => IdleFacts(l.s, a); IdlePend(l.s, a);
    case DoWipe(a) => IdleFacts(l.s, a); IdlePend(l.s, a);
    case DoDelete(a) => DeleteFacts(l.s, a);
    case DoSchedule(a, delay, head, clockOk) =>
      ScheduleFacts(l.s, Now(l, clockOk), a, delay, head, time);
      NoClock(l.s, a, delay, head);
    case DoTimerMod(a, delay, clockOk) =>
      DeleteFacts(l.s, a);
      ScheduleFacts(Delete(l.s, a), Now(l, clockOk), a, delay, false, time);
      NoClock(Delete(l.s, a), a, delay, false);
  }

  lemma IdlePend<A>(s: Sched<A>, a: A)
    ensures Init(s, a).pend == s.pend && Wipe(s, a).pend == s.pend
  {
  }

  lemma NoClock<A>(s: Sched<A>, a: A, delay: uint32, head: bool)
    ensures Schedule(s, None, a, delay, head) == s
  {
  }

  lemma StepKeeps<A>(l: Loop<A>, e: Event<A>)
    requires LoopInv(l) && Enabled(l, e)
    ensures LoopInv(Next(l, e))
    ensures Covered(l) && e != Poll(false) ==> Covered(Next(l, e))
  {
    hide Inv, Schedule, TimerMod, Delete, Init, Wipe, Ripen, Take;
    match e
    case Poll(clockOk) =>
      RipenFacts(l.s, l.clock, l.clock + UINT32_SPAN - 1);
    case RunActor => TakeFacts(l.s);
    case Fire => FireKeeps(l.s);
    case PollEnd =>
    case Block =>
    case Wake =>
    case ReadSignal =>
    case Tick(time) =>
    case _ => CallKeeps(l, e);
  }

  lemma FireKeeps<A>(s: Sched<A>)
    ensures Inv(s.(alarm := None)) == Inv(s)
  {
  }

  lemma {:induction false} StaysOrdered<A>(l: Loop<A>, events: seq<Event<A>>)
    requires LoopInv(l) && Run(l, events)
    ensures LoopInv(After(l, events))
    decreases |events|
  {
    hide Inv, Next, Enabled;
    if events != [] {
      StepKeeps(l, events[0]);
      StaysOrdered(Next(l, events[0]), events[1..]);
    }
  }

  /** The scheduler invariant: over every sequence of operations pend_list stays ordered by
      due time and by insertion among equals, every actor is on at most one list and once,
      and its state says which. */
  lemma SchedulerInvariant<A(!new)>(clock: int, events: seq<Event<A>>)
    requires Run(Start(clock), events)
    ensures var s := After(Start(clock), events).s;
            && (forall i, j :: 0 <= i < j < |s.pend| ==> s.pend[i].due <= s.pend[j].due)
            && (forall i, j :: 0 <= i < j < |s.pend| && s.pend[i].due == s.pend[j].due ==> s.pend[i].stamp < s.pend[j].stamp)
            && (forall i, j :: 0 <= i < j < |s.pend| ==> s.pend[i].actor != s.pend[j].actor)
            && (forall i, j :: 0 <= i < j < |s.ready| ==> s.ready[i] != s.ready[j])
            && (forall a :: a in Actors(s.pend) <==> StateOf(s, a) == Waiting)
            && (forall a :: a in s.ready <==> StateOf(s, a) == Scheduled)
  {
    hide Next, Enabled, Run, After;
    StaysOrdered(Start(clock), events);
    var s := After(Start(clock), events).s;
    forall i, j | 0 <= i < j < |s.pend|
      ensures Earlier(s.pend[i], s.pend[j]) && s.pend[i].actor != s.pend[j].actor
    {
      assert Actors(s.pend)[i] != Actors(s.pend)[j];
    }
  }

  /** No lost alarm, from a state that is covered. */
  lemma {:induction false} StaysCovered<A>(l: Loop<A>, events: seq<Event<A>>)
    requires LoopInv(l) && Covered(l) && Run(l, events) && Poll(false) !in events
    ensures LoopInv(After(l, events)) && Covered(After(l, events))
    decreases |events|
  {
    hide Inv, Next, Enabled, Covered;
    if events != [] {
      StepKeeps(l, events[0]);
      StaysCovered(Next(l, events[0]), events[1..]);
    }
  }

  /** No lost alarm: in every run from the start in which actor_poll can read the clock, a
      waiting actor has an alarm armed no later than the first due time, or a SIGALRM to be
      read, or the loop is about to call actor_poll.  While the loop is blocked one of the
      first two holds, so it sleeps past no due time. */
  lemma NoLostAlarm<A>(clock: int, events: seq<Event<A>>)
    requires Run(Start(clock), events) && Poll(false) !in events
    ensures var l := After(Start(clock), events);
            && Inv(l.s) && Covered(l)
            && (l.blocked && l.s.pend != [] ==>
                  || l.sig
                  || (l.s.alarm.Some? && forall t :: t in l.s.pend ==> l.s.alarm.value <= t.due))
  {
    hide Next, Enabled, Run, After;
    StaysCovered(Start(clock), events);
    var l := After(Start(clock), events);
    forall t | t in l.s.pend && Armed(l.s) ensures l.s.alarm.value <= t.due {
      var i :| 0 <= i < |l.s.pend| && l.s.pend[i] == t;
      assert i == 0 || Earlier(l.s.pend[0], l.s.pend[i]);
    }
  }

  /** The clock matters: once the signal is read and no alarm is armed, a loop with waiting
      actors is covered after actor_poll exactly if actor_poll could read the clock. */
  lemma PollNeedsClock<A>(l: Loop<A>, clockOk: bool)
    requires LoopInv(l) && !l.blocked && !l.polling
    requires !l.sig && l.s.alarm.None? && l.s.pend != []
    ensures Covered(Next(l, Poll(clockOk))) <==> clockOk
  {
    hide Inv, Ripen;
    if clockOk {
      RipenFacts(l.s, l.clock, l.clock + UINT32_SPAN - 1);
    }
  }

  // ---------- the order in which ready actors run ----------

  /** `a` is on the list, and `b` is not on it before `a`. */
  predicate Ahead<A(==)>(list: seq<A>, a: A, b: A) {
    list != [] && (list[0] == a || (list[0] != b && Ahead(list[1..], a, b)))
  }

  lemma {:induction false} AheadBehind<A>(list: seq<A>, more: seq<A>, a: A, b: A)
    requires Ahead(list, a, b)
    ensures Ahead(list + more, a, b)
  {
    if list[0] != a {
      AheadBehind(list[1..], more, a, b);
      assert (list + more)[1..] == list[1..] + more;
    }
  }

  lemma {:induction false} AheadDrop<A>(list: seq<A>, a: A, b: A, c: A)
    requires Ahead(list, a, b) && c != a
    ensures Ahead(DropActor(list, c), a, b)
  {
    var rest := DropActor(list[1..], c);
    assert DropActor(list, c) == (if list[0] != c then [list[0]] else []) + rest;
    if list[0] != a {
      AheadDrop(list[1..], a, b, c);
      assert ([list[0]] + rest)[1..] == rest;
      assert [] + rest == rest;
    }
  }

  lemma {:induction false} AheadIn<A>(list: seq<A>, a: A, b: A)
    requires a in list && b !in list
    ensures Ahead(list, a, b)
  {
    if list[0] != a {
      AheadIn(list[1..], a, b);
    }
  }

  lemma {:induction false} AheadHas<A>(list: seq<A>, a: A, b: A)
    requires Ahead(list, a, b)
    ensures a in list
  {
    if list[0] != a {
      AheadHas(list[1..], a, b);
    }
  }

  /** What can make `b` run before `a`: that `a` is deleted or its timer set anew, or that
      `b` is scheduled at the head. */
  predicate Overtakes<A(==)>(e: Event<A>, a: A, b: A) {
    || (e.DoDelete? && e.a == a)
    || (e.DoTimerMod? && e.a == a)
    || (e.DoSchedule? && e.a == b && e.head)
  }

  lemma ScheduleAhead<A>(s: Sched<A>, now: Option<int>, c: A, delay: uint32, head: bool, a: A, b: A)
    requires Inv(s) && Ahead(s.ready, a, b) && a != b && !(c == b && head)
    ensures Ahead(Schedule(s, now, c, delay, head).ready, a, b)
  {
    hide Inv, Schedule, DropActor, DropTimer;
    ScheduleFacts(s, now, c, delay, head, 0);
    AheadHas(s.ready, a, b);
    StateTells(s, a);
    StateTells(s, c);
    if now.Some? && StateOf(s, c) in {Waiting, NotScheduled} && delay == 0 {
      var d := Schedule(s, now, c, delay, head);
      ReadyIs(s.ready, d.ready, c, head);
      if head {
        assert ([c] + s.ready)[1..] == s.ready;
      } else {
        AheadBehind(s.ready, [c], a, b);
      }
    }
  }

  lemma StepAhead<A>(l: Loop<A>, e: Event<A>, a: A, b: A)
    requires LoopInv(l) && Enabled(l, e) && Ahead(l.s.ready, a, b) && a != b && !Overtakes(e, a, b)
    ensures e.RunActor? ==> l.s.ready[0] != b
    ensures Ahead(Next(l, e).s.ready, a, b) || (e.RunActor? && l.s.ready[0] == a)
  {
    hide Inv, Schedule, Delete, Ripen, DropActor, DropTimer;
    match e
    case DoDelete(c) =>
      DeleteFacts(l.s, c);
      AheadDrop(l.s.ready, a, b, c);
    case DoSchedule(c, delay, head, clockOk) => ScheduleAhead(l.s, Now(l, clockOk), c, delay, head, a, b);
    case DoTimerMod(c, delay, clockOk) =>
      DeleteFacts(l.s, c);
      AheadDrop(l.s.ready, a, b, c);
      ScheduleAhead(Delete(l.s, c), Now(l, clockOk), c, delay, false, a, b);
    case Poll(clockOk) =>
      EarlyExitExact(l.s, l.clock);
      AheadBehind(l.s.ready, Actors(Keep(l.s.pend, (t: Timer<A>) => t.due <= l.clock)), a, b);
    case _ =>
  }

  /** The actors that are run, in their order. */
  function Ran<A>(l: Loop<A>, events: seq<Event<A>>): seq<A>
    requires Run(l, events)
    decreases |events|
  {
    if events == [] then []
    else (if events[0].RunActor? then [l.s.ready[0]] else []) + Ran(Next(l, events[0]), events[1..])
  }

  /** First ready, first run: in every run from the start, once `a` is ready and `b` is not
      on ready_list before it, `b` does not run before `a`, whenever it is made ready, unless
      `a` is deleted or set anew or `b` is scheduled at the head. */
  lemma FirstReadyFirst<A>(clock: int, before: seq<Event<A>>, events: seq<Event<A>>, a: A, b: A)
    requires Run(Start(clock), before) && Run(After(Start(clock), before), events) && a != b
    requires Ahead(After(Start(clock), before).s.ready, a, b)
    requires forall i :: 0 <= i < |events| ==> !Overtakes(events[i], a, b)
    ensures var ran := Ran(After(Start(clock), before), events); b in ran ==> Ahead(ran, a, b)
  {
    hide Run, After, Overtakes, Ahead;
    StaysOrdered(Start(clock), before);
    RunsInTurn(After(Start(clock), before), events, a, b);
  }

  lemma {:induction false} RunsInTurn<A>(l: Loop<A>, events: seq<Event<A>>, a: A, b: A)
    requires LoopInv(l) && Run(l, events) && Ahead(l.s.ready, a, b) && a != b
    requires forall i :: 0 <= i < |events| ==> !Overtakes(events[i], a, b)
    ensures b in Ran(l, events) ==> Ahead(Ran(l, events), a, b)
    decreases |events|
  {
    hide Inv, Next, Overtakes, Ahead;
    if events != [] {
      var e, n := events[0], Next(l, events[0]);
      StepAhead(l, e, a, b);
      StepKeeps(l, e);
      if e.RunActor? && l.s.ready[0] == a {
        AheadNow(a, b, Ran(n, events[1..]));
      } else {
        RunsInTurn(n, events[1..], a, b);
        if e.RunActor? {
          AheadLater(l.s.ready[0], a, b, Ran(n, events[1..]));
        } else {
          assert [] + Ran(n, events[1..]) == Ran(n, events[1..]);
        }
      }
    }
  }

  lemma AheadNow<A>(a: A, b: A, rest: seq<A>)
    ensures Ahead([a] + rest, a, b)
  {
  }

  lemma AheadLater<A>(c: A, a: A, b: A, rest: seq<A>)
    requires c != b && (b in rest ==> Ahead(rest, a, b))
    ensures b in [c] + rest ==> Ahead([c] + rest, a, b)
  {
    assert ([c] + rest)[1..] == rest;
  }

  /** In particular two actors made ready one after the other, neither at the head, run in
      that order: the second goes behind the first. */
  lemma ReadyInTurn<A>(s: Sched<A>, t: Option<int>, a: A, b: A)
    requires Inv(s) && t.Some? && a != b && StateOf(s, a) in {Waiting, NotScheduled} && StateOf(s, b) in {Waiting, NotScheduled}
    ensures var d := Schedule(Schedule(s, t, a, 0, false), t, b, 0, false); d.ready == s.ready + [a, b] && Ahead(d.ready, a, b)
  {
    hide Inv, Schedule, DropActor, DropTimer;
    var c := Schedule(s, t, a, 0, false);
    ScheduleFacts(s, t, a, 0, false, 0);
    StateTells(s, a);
    StateTells(s, b);
    ReadyIs(s.ready, c.ready, a, false);
    StateTells(c, b);
    OtherState(s, t, a, b);
    ScheduleFacts(c, t, b, 0, false, 0);
    ReadyIs(c.ready, Schedule(c, t, b, 0, false).ready, b, false);
    AheadIn(c.ready, a, b);
    AheadBehind(c.ready, [b], a, b);
    assert s.ready + [a] + [b] == s.ready + [a, b];
  }

  lemma OtherState<A>(s: Sched<A>, t: Option<int>, a: A, b: A)
    requires a != b
    ensures StateOf(Schedule(s, t, a, 0, false), b) == StateOf(s, b)
  {
  }
}
