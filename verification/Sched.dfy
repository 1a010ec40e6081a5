/** The actor scheduler of usr/actor.c on values: actors waiting for a time, in due
    order, actors ready to run, and the one alarm of the process. */
module Scheduling {
  import opened CText

  const UINT32_SPAN := 0x1_0000_0000

  type uint32 = x: int | 0 <= x < UINT32_SPAN

  datatype ActorState = Invalid | Waiting | Scheduled | NotScheduled

  /** An entry of pend_list.  `stamp` numbers the insertions; it is history, the code has
      no such field. */
  datatype Timer<A> = Timer(actor: A, due: int, stamp: nat)

  datatype Sched<A(==)> = Sched(
    pend: seq<Timer<A>>,
    ready: seq<A>,
    states: map<A, ActorState>,
    alarm: Option<int>,
    stamps: nat)

  function Empty<A>(): Sched<A> {
    Sched([], [], map[], None, 0)
  }

  function StateOf<A>(s: Sched<A>, a: A): ActorState {
    if a in s.states then s.states[a] else Invalid
  }

  function Actors<A>(pend: seq<Timer<A>>): (r: seq<A>)
    ensures |r| == |pend| && forall i :: 0 <= i < |r| ==> r[i] == pend[i].actor
  {
    seq(|pend|, i requires 0 <= i < |pend| => pend[i].actor)
  }

  predicate OnList<A(==)>(s: Sched<A>, a: A) {
    a in Actors(s.pend) || a in s.ready
  }

  // ---------- operations ----------

  /** alarm(2) takes an unsigned int; zero cancels. */
  function Alarm(now: int, seconds: int): Option<int> {
    if seconds % UINT32_SPAN == 0 then None else Some(now + seconds % UINT32_SPAN)
  }

  /** Before the first entry that is strictly later. */
  function Insert<A>(pend: seq<Timer<A>>, t: Timer<A>): seq<Timer<A>> {
    if pend == [] || pend[0].due > t.due then [t] + pend else [pend[0]] + Insert(pend[1..], t)
  }

  function Keep<T>(s: seq<T>, p: T -> bool): seq<T> {
    if s == [] then []
    else (if p(s[0]) then [s[0]] else []) + Keep(s[1..], p)
  }

  function DropTimer<A(==)>(pend: seq<Timer<A>>, a: A): seq<Timer<A>> {
    Keep(pend, (t: Timer<A>) => t.actor != a)
  }

  function DropActor<A(==)>(ready: seq<A>, a: A): seq<A> {
    Keep(ready, x => x != a)
  }

  /** __actor_init */
  function Init<A>(s: Sched<A>, a: A): Sched<A> {
    s.(states := s.states[a := NotScheduled])
  }

  /** The memory of an actor is cleared or freed. */
  function Wipe<A>(s: Sched<A>, a: A): Sched<A> {
    s.(states := s.states[a := Invalid])
  }

  /** actor_delete */
  function Delete<A>(s: Sched<A>, a: A): Sched<A> {
    var onList := StateOf(s, a) == Waiting || StateOf(s, a) == Scheduled;
    var pend := if onList then DropTimer(s.pend, a) else s.pend;
    s.(pend := pend,
       ready := if onList then DropActor(s.ready, a) else s.ready,
       alarm := if onList && pend == [] then None else s.alarm,
       states := s.states[a := NotScheduled])
  }

  /** actor_insert_on_pend_list: the alarm is set when the head of the list changes. */
  function Pend<A>(s: Sched<A>, now: int, a: A, delay: uint32): Sched<A> {
    var pend := Insert(s.pend, Timer(a, now + delay, s.stamps));
    s.(pend := pend, stamps := s.stamps + 1,
       states := s.states[a := Waiting],
       alarm := if s.pend == [] || pend[0].actor != s.pend[0].actor then Alarm(now, delay) else s.alarm)
  }

  function Enqueue<A>(s: Sched<A>, a: A, head: bool): Sched<A> {
    s.(ready := if head then [a] + s.ready else s.ready + [a], states := s.states[a := Scheduled])
  }

  function Place<A>(s: Sched<A>, now: int, a: A, delay: uint32, head: bool): Sched<A> {
    if delay == 0 then Enqueue(s, a, head) else Pend(s, now, a, delay)
  }

  /** actor_schedule_private; without a clock nothing happens. */
  function Schedule<A>(s: Sched<A>, now: Option<int>, a: A, delay: uint32, head: bool): Sched<A> {
    if now.None? then s
    else
      match StateOf(s, a)
      case Waiting => Place(s.(pend := DropTimer(s.pend, a)), now.value, a, delay, head)
      case NotScheduled => Place(s, now.value, a, delay, head)
      case _ => s
  }

  /** actor_timer_mod */
  function TimerMod<A>(s: Sched<A>, now: Option<int>, a: A, delay: uint32): Sched<A> {
    Schedule(Delete(s, a), now, a, delay, false)
  }

  /** How far actor_poll gets before the first entry that is not due. */
  function RipeCount<A>(pend: seq<Timer<A>>, now: int): (n: nat)
    ensures n <= |pend|
  {
    if pend == [] || pend[0].due > now then 0 else 1 + RipeCount(pend[1..], now)
  }

  function Mark<A>(states: map<A, ActorState>, actors: seq<A>, state: ActorState): map<A, ActorState> {
    if actors == [] then states else Mark(states, actors[..|actors| - 1], state)[actors[|actors| - 1] := state]
  }

  /** actor_poll, up to the point where actors are run. */
  function Ripen<A>(s: Sched<A>, now: int): Sched<A> {
    var n := RipeCount(s.pend, now);
    var ripe := Actors(s.pend[..n]);
    s.(pend := s.pend[n..], ready := s.ready + ripe, states := Mark(s.states, ripe, Scheduled),
       alarm := if n == |s.pend| then None else Alarm(now, s.pend[n].due - now))
  }

  /** actor_poll takes the first ready actor to run it. */
  function Take<A>(s: Sched<A>): Sched<A>
    requires s.ready != []
  {
    s.(ready := s.ready[1..], states := s.states[s.ready[0] := NotScheduled])
  }

  // ---------- the invariant ----------

  predicate Earlier<A>(t: Timer<A>, u: Timer<A>) {
    t.due < u.due || (t.due == u.due && t.stamp < u.stamp)
  }

  /** In due order, and in order of insertion among equals. */
  ghost predicate Ordered<A>(pend: seq<Timer<A>>) {
    forall i, j :: 0 <= i < j < |pend| ==> Earlier(pend[i], pend[j])
  }

  /** The list holds the actors in this state, each once. */
  ghost predicate Listed<A>(list: seq<A>, states: map<A, ActorState>, state: ActorState) {
    && (forall i, j :: 0 <= i < j < |list| ==> list[i] != list[j])
    && (forall a :: a in list ==> a in states && states[a] == state)
    && (forall a :: a in states && states[a] == state ==> a in list)
  }

  /** pend_list is ordered, and every actor is on at most one list, as its state says. */
  ghost predicate Inv<A>(s: Sched<A>) {
    && Ordered(s.pend)
    && (forall i :: 0 <= i < |s.pend| ==> s.pend[i].stamp < s.stamps)
    && Listed(Actors(s.pend), s.states, Waiting)
    && Listed(s.ready, s.states, Scheduled)
  }

  /** The alarm goes off no later than the first entry is due. */
  predicate Armed<A>(s: Sched<A>) {
    s.pend == [] || (s.alarm.Some? && s.alarm.value <= s.pend[0].due)
  }
}
