/** Every operation of the scheduler keeps its lists in order, and actor_poll moves
    exactly the actors that are due. */
module SchedSteps {
  import opened CText
  import opened Scheduling

  // ---------- lists ----------

  function With<T>(s: seq<T>, k: nat, x: T): (r: seq<T>)
    requires k <= |s|
    ensures |r| == |s| + 1
  {
    s[..k] + [x] + s[k..]
  }

  function Without<T>(s: seq<T>, k: nat): seq<T>
    requires k < |s|
  {
    s[..k] + s[k + 1..]
  }

  function InsertAt<A>(pend: seq<Timer<A>>, due: int): (k: nat)
    ensures k <= |pend|
    ensures forall i :: 0 <= i < k ==> pend[i].due <= due
    ensures k < |pend| ==> pend[k].due > due
  {
    if pend == [] || pend[0].due > due then 0 else 1 + InsertAt(pend[1..], due)
  }

  lemma {:induction false} InsertIs<A>(pend: seq<Timer<A>>, t: Timer<A>)
    ensures Insert(pend, t) == With(pend, InsertAt(pend, t.due), t)
  {
    if pend != [] && pend[0].due <= t.due {
      InsertIs(pend[1..], t);
      assert pend == [pend[0]] + pend[1..];
    }
  }

  lemma InsertSome<A>(pend: seq<Timer<A>>, t: Timer<A>)
    ensures Insert(pend, t) != []
  {
  }

  lemma {:induction false} KeepAll<T>(s: seq<T>, p: T -> bool)
    requires forall i :: 0 <= i < |s| ==> p(s[i])
    ensures Keep(s, p) == s
  {
    if s != [] {
      KeepAll(s[1..], p);
    }
  }

  lemma {:induction false} KeepBut<T>(s: seq<T>, p: T -> bool, k: nat)
    requires k < |s| && forall i :: 0 <= i < |s| ==> (p(s[i]) <==> i != k)
    ensures Keep(s, p) == Without(s, k)
  {
    if k == 0 {
      KeepAll(s[1..], p);
    } else {
      KeepBut(s[1..], p, k - 1);
    }
  }

  lemma {:induction false} KeepNone<T>(s: seq<T>, p: T -> bool)
    requires forall i :: 0 <= i < |s| ==> !p(s[i])
    ensures Keep(s, p) == []
  {
    if s != [] {
      KeepNone(s[1..], p);
    }
  }

  lemma {:induction false} KeepSplit<T>(s: seq<T>, p: T -> bool, n: nat)
    requires n <= |s| && forall i :: 0 <= i < |s| ==> (p(s[i]) <==> i < n)
    ensures Keep(s, p) == s[..n]
  {
    if n == 0 {
      KeepNone(s, p);
    } else {
      KeepSplit(s[1..], p, n - 1);
      assert s[..n] == [s[0]] + s[1..][..n - 1];
    }
  }

  lemma ListedWith<A>(list: seq<A>, states: map<A, ActorState>, state: ActorState, k: nat, a: A)
    requires Listed(list, states, state) && a !in list && k <= |list|
    ensures Listed(With(list, k, a), states[a := state], state)
  {
    var r := With(list, k, a);
    assert forall x :: x in r <==> x == a || x in list by {
      assert list == list[..k] + list[k..];
    }
  }

  lemma ListedWithout<A>(list: seq<A>, states: map<A, ActorState>, state: ActorState, k: nat, other: ActorState)
    requires Listed(list, states, state) && k < |list| && other != state
    ensures Listed(Without(list, k), states[list[k] := other], state)
  {
    var r := Without(list, k);
    assert forall i :: 0 <= i < |r| ==> r[i] == list[if i < k then i else i + 1];
    assert forall x :: x in r ==> x in list && x != list[k];
    assert forall x :: x in list && x != list[k] ==> x in list[..k] || x in list[k + 1..];
  }

  lemma ListedOther<A>(list: seq<A>, states: map<A, ActorState>, state: ActorState, a: A, other: ActorState)
    requires Listed(list, states, state) && a !in list && other != state
    ensures Listed(list, states[a := other], state)
  {
  }

  // ---------- removal ----------

  lemma ActorsWithout<A>(pend: seq<Timer<A>>, k: nat)
    requires k < |pend|
    ensures Actors(Without(pend, k)) == Without(Actors(pend), k)
  {
  }

  lemma ActorsWith<A>(pend: seq<Timer<A>>, k: nat, t: Timer<A>)
    requires k <= |pend|
    ensures Actors(With(pend, k, t)) == With(Actors(pend), k, t.actor)
  {
  }

  lemma OrderedWithout<A>(pend: seq<Timer<A>>, k: nat)
    requires Ordered(pend) && k < |pend|
    ensures Ordered(Without(pend, k))
    ensures Without(pend, k) != [] ==> pend[0].due <= Without(pend, k)[0].due
  {
    if k == 0 && |pend| > 1 {
      assert Earlier(pend[0], pend[1]);
    }
  }

  lemma DropTimerIs<A>(pend: seq<Timer<A>>, a: A, k: nat)
    requires k < |pend| && pend[k].actor == a
    requires forall i, j :: 0 <= i < j < |pend| ==> Actors(pend)[i] != Actors(pend)[j]
    ensures DropTimer(pend, a) == Without(pend, k)
  {
    forall i | 0 <= i < |pend| ensures pend[i].actor != a <==> i != k {
      assert i < k ==> Actors(pend)[i] != Actors(pend)[k];
      assert k < i ==> Actors(pend)[k] != Actors(pend)[i];
    }
    KeepBut(pend, (t: Timer<A>) => t.actor != a, k);
  }

  lemma DropTimerNone<A>(pend: seq<Timer<A>>, a: A)
    requires a !in Actors(pend)
    ensures DropTimer(pend, a) == pend
  {
    forall i | 0 <= i < |pend| ensures pend[i].actor != a {
      assert Actors(pend)[i] in Actors(pend);
    }
    KeepAll(pend, (t: Timer<A>) => t.actor != a);
  }

  lemma DropActorIs<A>(ready: seq<A>, k: nat)
    requires k < |ready| && forall i, j :: 0 <= i < j < |ready| ==> ready[i] != ready[j]
    ensures DropActor(ready, ready[k]) == Without(ready, k)
  {
    KeepBut(ready, x => x != ready[k], k);
  }

  lemma DropActorNone<A>(ready: seq<A>, a: A)
    requires a !in ready
    ensures DropActor(ready, a) == ready
  {
    KeepAll(ready, x => x != a);
  }

  // ---------- the operations ----------

  ghost predicate OffList<A>(s: Sched<A>, a: A) {
    a !in Actors(s.pend) && a !in s.ready
  }

  lemma StateTells<A>(s: Sched<A>, a: A)
    requires Inv(s)
    ensures StateOf(s, a) == Waiting <==> a in Actors(s.pend)
    ensures StateOf(s, a) == Scheduled <==> a in s.ready
  {
  }

  lemma IdleFacts<A>(s: Sched<A>, a: A)
    requires Inv(s) && OffList(s, a)
    ensures Inv(Init(s, a)) && Inv(Wipe(s, a))
    ensures Armed(s) ==> Armed(Init(s, a)) && Armed(Wipe(s, a))
  {
    hide Listed;
    ListedOther(Actors(s.pend), s.states, Waiting, a, NotScheduled);
    ListedOther(Actors(s.pend), s.states, Waiting, a, Invalid);
    ListedOther(s.ready, s.states, Scheduled, a, NotScheduled);
    ListedOther(s.ready, s.states, Scheduled, a, Invalid);
  }

  /** Taking an actor off pend_list. */
  lemma UnpendFacts<A>(s: Sched<A>, a: A)
    requires Inv(s) && a in Actors(s.pend)
    ensures var d := Init(s.(pend := DropTimer(s.pend, a)), a);
            && Inv(d) && OffList(d, a) && |d.pend| < |s.pend|
            && (d.pend != [] ==> s.pend[0].due <= d.pend[0].due)
            && (forall t :: t in d.pend ==> t in s.pend)
  {
    StateTells(s, a);
    var k :| 0 <= k < |s.pend| && Actors(s.pend)[k] == a;
    DropTimerIs(s.pend, a, k);
    ActorsWithout(s.pend, k);
    OrderedWithout(s.pend, k);
    ListedWithout(Actors(s.pend), s.states, Waiting, k, NotScheduled);
    ListedOther(s.ready, s.states, Scheduled, a, NotScheduled);
  }

  lemma UnreadyFacts<A>(s: Sched<A>, a: A)
    requires Inv(s) && a in s.ready
    ensures var d := Init(s.(ready := DropActor(s.ready, a)), a); Inv(d) && OffList(d, a)
  {
    StateTells(s, a);
    var k :| 0 <= k < |s.ready| && s.ready[k] == a;
    DropActorIs(s.ready, k);
    ListedWithout(s.ready, s.states, Scheduled, k, NotScheduled);
    ListedOther(Actors(s.pend), s.states, Waiting, a, NotScheduled);
  }

  /** actor_delete leaves the actor on no list and the rest as it was. */
  lemma DeleteFacts<A>(s: Sched<A>, a: A)
    requires Inv(s)
    ensures var d := Delete(s, a);
            && Inv(d) && OffList(d, a) && StateOf(d, a) == NotScheduled
            && d.pend == DropTimer(s.pend, a) && d.ready == DropActor(s.ready, a)
            && (forall t :: t in d.pend ==> t in s.pend)
            && d.alarm == (if (a in Actors(s.pend) || a in s.ready) && d.pend == [] then None else s.alarm)
            && (Armed(s) ==> Armed(d))
  {
    hide Listed, Ordered, DropTimer, DropActor;
    StateTells(s, a);
    if a in Actors(s.pend) {
      UnpendFacts(s, a);
      DropActorNone(s.ready, a);
    } else {
      DropTimerNone(s.pend, a);
      if a in s.ready {
        UnreadyFacts(s, a);
      } else {
        DropActorNone(s.ready, a);
        IdleFacts(s, a);
      }
    }
  }

  lemma OrderedPair<A>(pend: seq<Timer<A>>, i: nat, j: nat)
    requires Ordered(pend) && i < j < |pend|
    ensures Earlier(pend[i], pend[j])
  {
  }

  lemma InsertedPair<A>(pend: seq<Timer<A>>, t: Timer<A>, k: nat, i: nat, j: nat)
    requires Ordered(pend) && k <= |pend| && i < j <= |pend|
    requires i < k ==> pend[i].due <= t.due && pend[i].stamp < t.stamp
    requires k < |pend| ==> t.due < pend[k].due
    ensures Earlier(With(pend, k, t)[i], With(pend, k, t)[j])
  {
    hide Ordered;
    if i != k && j != k {
      OrderedPair(pend, if i < k then i else i - 1, if j < k then j else j - 1);
    } else if i == k && k < j - 1 {
      OrderedPair(pend, k, j - 1);
    }
  }

  lemma OrderedWith<A>(pend: seq<Timer<A>>, t: Timer<A>)
    requires Ordered(pend) && forall i :: 0 <= i < |pend| ==> pend[i].stamp < t.stamp
    ensures Ordered(With(pend, InsertAt(pend, t.due), t))
  {
    var k := InsertAt(pend, t.due);
    hide InsertAt, Earlier, With;
    forall i: nat, j: nat | i < j <= |pend| ensures Earlier(With(pend, k, t)[i], With(pend, k, t)[j]) {
      InsertedPair(pend, t, k, i, j);
    }
  }

  /** A delayed actor is inserted in order, and the alarm covers it. */
  lemma PendFacts<A>(s: Sched<A>, now: int, a: A, delay: uint32)
    requires Inv(s) && OffList(s, a) && delay > 0
    ensures var d := Pend(s, now, a, delay);
            && Inv(d) && StateOf(d, a) == Waiting
            && d.pend == With(s.pend, InsertAt(s.pend, now + delay), Timer(a, now + delay, s.stamps))
            && (Armed(s) ==> Armed(d))
  {
    hide Ordered, Listed, Insert, Armed;
    var t := Timer(a, now + delay, s.stamps);
    var k := InsertAt(s.pend, now + delay);
    InsertIs(s.pend, t);
    OrderedWith(s.pend, t);
    ActorsWith(s.pend, k, t);
    ListedWith(Actors(s.pend), s.states, Waiting, k, a);
    ListedOther(s.ready, s.states, Scheduled, a, Waiting);
    PendArmed(s, now, a, delay);
  }

  lemma PendArmed<A>(s: Sched<A>, now: int, a: A, delay: uint32)
    requires OffList(s, a) && delay > 0
    ensures Armed(s) ==> Armed(Pend(s, now, a, delay))
  {
    hide Insert;
    InsertIs(s.pend, Timer(a, now + delay, s.stamps));
    if s.pend != [] {
      assert Actors(s.pend)[0] != a;
    }
  }

  lemma EnqueueFacts<A>(s: Sched<A>, a: A, head: bool)
    requires Inv(s) && OffList(s, a)
    ensures var d := Enqueue(s, a, head); Inv(d) && StateOf(d, a) == Scheduled && d.pend == s.pend
  {
    ListedWith(s.ready, s.states, Scheduled, if head then 0 else |s.ready|, a);
    assert With(s.ready, 0, a) == [a] + s.ready;
    assert With(s.ready, |s.ready|, a) == s.ready + [a];
    ListedOther(Actors(s.pend), s.states, Waiting, a, Scheduled);
  }

  ghost predicate DueBy<A>(s: Sched<A>, time: int) {
    forall t :: t in s.pend ==> t.due <= time
  }

  lemma PlaceFacts<A>(s: Sched<A>, now: int, a: A, delay: uint32, head: bool, time: int)
    requires Inv(s) && OffList(s, a)
    ensures var d := Place(s, now, a, delay, head);
            && Inv(d) && StateOf(d, a) == (if delay == 0 then Scheduled else Waiting)
            && (Armed(s) ==> Armed(d))
            && (DueBy(s, time) && now + delay <= time ==> DueBy(d, time))
  {
    hide Pend, Enqueue, Listed, Ordered;
    if delay == 0 {
      EnqueueFacts(s, a, head);
      EnqueueArmed(s, a, head);
    } else {
      PendFacts(s, now, a, delay);
    }
  }

  lemma EnqueueArmed<A>(s: Sched<A>, a: A, head: bool)
    ensures var d := Enqueue(s, a, head); Armed(s) ==> Armed(d)
  {
  }

  lemma PlaceSame<A>(s: Sched<A>, now: int, a: A, delay: uint32, head: bool)
    ensures Place(s, now, a, delay, head) == Place(Init(s, a), now, a, delay, head)
  {
    assert s.states[a := NotScheduled][a := Waiting] == s.states[a := Waiting];
    assert s.states[a := NotScheduled][a := Scheduled] == s.states[a := Scheduled];
  }

  /** Where actor_schedule_private puts the actor: at once at the end of ready_list, or at
      its head if asked to; with a delay on pend_list.  The others stay where they are. */
  lemma ScheduleLists<A>(s: Sched<A>, now: Option<int>, a: A, delay: uint32, head: bool)
    requires Inv(s) && now.Some? && StateOf(s, a) in {Waiting, NotScheduled}
    ensures var d := Schedule(s, now, a, delay, head);
            && (delay == 0 ==>
                  && DropActor(d.ready, a) == s.ready && |d.ready| == |s.ready| + 1
                  && d.ready[if head then 0 else |s.ready|] == a && d.pend == DropTimer(s.pend, a))
            && (delay > 0 ==>
                  && d.ready == s.ready && DropTimer(d.pend, a) == DropTimer(s.pend, a)
                  && Timer(a, now.value + delay, s.stamps) in d.pend)
  {
    hide Inv, DropActor, DropTimer, Insert;
    StateTells(s, a);
    if StateOf(s, a) == NotScheduled {
      DropTimerNone(s.pend, a);
    }
    if delay == 0 {
      assert With(s.ready, 0, a) == [a] + s.ready && With(s.ready, |s.ready|, a) == s.ready + [a];
      DropWith(s.ready, a, if head then 0 else |s.ready|);
    } else {
      var p := DropTimer(s.pend, a);
      var t := Timer(a, now.value + delay, s.stamps);
      InsertIs(p, t);
      DropTimerDrops(s.pend, a);
      DropTimerWith(p, t, InsertAt(p, t.due));
    }
  }

  lemma DropWith<A>(ready: seq<A>, a: A, k: nat)
    requires a !in ready && k <= |ready|
    ensures DropActor(With(ready, k, a), a) == ready
  {
    KeepBut(With(ready, k, a), x => x != a, k);
    assert Without(With(ready, k, a), k) == ready;
  }

  lemma DropTimerWith<A>(pend: seq<Timer<A>>, t: Timer<A>, k: nat)
    requires t.actor !in Actors(pend) && k <= |pend|
    ensures DropTimer(With(pend, k, t), t.actor) == pend
  {
    forall i | 0 <= i < |pend| ensures pend[i].actor != t.actor {
      assert Actors(pend)[i] == pend[i].actor;
    }
    KeepBut(With(pend, k, t), (u: Timer<A>) => u.actor != t.actor, k);
    assert Without(With(pend, k, t), k) == pend;
  }

  lemma {:induction false} DropTimerDrops<A>(pend: seq<Timer<A>>, a: A)
    ensures a !in Actors(DropTimer(pend, a))
  {
    if pend != [] {
      DropTimerDrops(pend[1..], a);
      var rest := DropTimer(pend[1..], a);
      assert forall i :: 0 <= i < |rest| ==> Actors(rest)[i] == rest[i].actor;
    }
  }

  /** actor_schedule_private */
  lemma ScheduleFacts<A>(s: Sched<A>, now: Option<int>, a: A, delay: uint32, head: bool, time: int)
    requires Inv(s)
    ensures var d := Schedule(s, now, a, delay, head);
            && Inv(d) && (Armed(s) ==> Armed(d))
            && (now.Some? && DueBy(s, time) && now.value + delay <= time ==> DueBy(d, time))
            && (now.Some? && StateOf(s, a) in {Waiting, NotScheduled} ==>
                  && StateOf(d, a) == (if delay == 0 then Scheduled else Waiting)
                  && (delay == 0 ==>
                        && DropActor(d.ready, a) == s.ready && |d.ready| == |s.ready| + 1
                        && d.ready[if head then 0 else |s.ready|] == a && d.pend == DropTimer(s.pend, a))
                  && (delay > 0 ==>
                        && d.ready == s.ready && DropTimer(d.pend, a) == DropTimer(s.pend, a)
                        && Timer(a, now.value + delay, s.stamps) in d.pend))
            && (now.None? || StateOf(s, a) in {Scheduled, Invalid} ==> d == s)
  {
    hide Place, Listed, Ordered, DropActor, DropTimer, Actors;
    StateTells(s, a);
    if now.Some? && StateOf(s, a) in {Waiting, NotScheduled} {
      ScheduleLists(s, now, a, delay, head);
    }
    if now.Some? {
      match StateOf(s, a)
      case Waiting =>
        var u := s.(pend := DropTimer(s.pend, a));
        UnpendFacts(s, a);
        PlaceSame(u, now.value, a, delay, head);
        PlaceFacts(Init(u, a), now.value, a, delay, head, time);
      case NotScheduled =>
        PlaceFacts(s, now.value, a, delay, head, time);
      case _ =>
    }
  }

  /** The place of the new actor, as a list. */
  lemma ReadyIs<A>(ready: seq<A>, list: seq<A>, c: A, head: bool)
    requires DropActor(list, c) == ready && |list| == |ready| + 1 && c !in ready
    requires list[if head then 0 else |ready|] == c
    ensures list == if head then [c] + ready else ready + [c]
  {
    if head {
      DropFirst(list, c);
    } else {
      DropLast(list, c);
    }
  }

  lemma {:induction false} DropLength<A>(list: seq<A>, c: A)
    ensures |DropActor(list, c)| <= |list| && (|DropActor(list, c)| == |list| ==> DropActor(list, c) == list)
  {
    if list != [] {
      DropLength(list[1..], c);
      assert DropActor(list, c) == (if list[0] != c then [list[0]] else []) + DropActor(list[1..], c);
    }
  }

  lemma DropFirst<A>(list: seq<A>, c: A)
    requires list != [] && list[0] == c && |DropActor(list, c)| == |list| - 1
    ensures list == [c] + DropActor(list, c)
  {
    DropLength(list[1..], c);
    assert DropActor(list, c) == [] + DropActor(list[1..], c);
  }

  lemma {:induction false} DropLast<A>(list: seq<A>, c: A)
    requires list != [] && list[|list| - 1] == c && |DropActor(list, c)| == |list| - 1
    ensures list == DropActor(list, c) + [c]
  {
    var rest := DropActor(list[1..], c);
    assert DropActor(list, c) == (if list[0] != c then [list[0]] else []) + rest;
    if |list| == 1 {
      assert list[1..] == [];
    } else if list[0] != c {
      DropLast(list[1..], c);
    } else {
      DropLength(list[1..], c);
      assert list[1..][|list| - 2] == c;
      DropHas(list[1..], c);
    }
  }

  lemma {:induction false} DropHas<A>(list: seq<A>, c: A)
    requires c in list
    ensures |DropActor(list, c)| < |list|
  {
    assert DropActor(list, c) == (if list[0] != c then [list[0]] else []) + DropActor(list[1..], c);
    if list[0] == c {
      DropLength(list[1..], c);
    } else {
      DropHas(list[1..], c);
    }
  }

  // ---------- actor_poll ----------

  lemma {:induction false} RipeOnes<A>(pend: seq<Timer<A>>, now: int)
    requires Ordered(pend)
    ensures forall i :: 0 <= i < |pend| ==> (pend[i].due <= now <==> i < RipeCount(pend, now))
  {
    if pend != [] {
      assert forall i :: 0 < i < |pend| ==> Earlier(pend[0], pend[i]);
      if pend[0].due <= now {
        RipeOnes(pend[1..], now);
      }
    }
  }

  /** The alarm for the entries left: when the first is due, as far as 32 bits of seconds can
      say; none without entries. */
  function PollAlarm<A>(pend: seq<Timer<A>>, now: int): Option<int> {
    if pend == [] then None
    else
      var seconds := (pend[0].due - now) % 0x1_0000_0000;
      if seconds > 0 then Some(now + seconds) else None
  }

  /** Early exit is exact: although actor_poll stops at the first entry that is not due,
      it makes ready precisely the actors that are due, in due order and behind those that
      were ready, and leaves precisely the others. */
  lemma EarlyExitExact<A>(s: Sched<A>, now: int)
    requires Inv(s)
    ensures var d := Ripen(s, now);
            && d.ready == s.ready + Actors(Keep(s.pend, (t: Timer<A>) => t.due <= now))
            && d.pend == Keep(s.pend, (t: Timer<A>) => t.due > now)
            && d.alarm == PollAlarm(d.pend, now)
  {
    RipeOnes(s.pend, now);
    var n := RipeCount(s.pend, now);
    KeepSplit(s.pend, (t: Timer<A>) => t.due <= now, n);
    KeepRest(s.pend, (t: Timer<A>) => t.due > now, n);
  }

  lemma {:induction false} KeepRest<T>(s: seq<T>, p: T -> bool, n: nat)
    requires n <= |s| && forall i :: 0 <= i < |s| ==> (p(s[i]) <==> n <= i)
    ensures Keep(s, p) == s[n..]
  {
    if n == 0 {
      KeepAll(s, p);
    } else {
      KeepRest(s[1..], p, n - 1);
    }
  }

  lemma Elsewhere<A>(list: seq<A>, other: seq<A>, states: map<A, ActorState>, a: A)
    requires Listed(list, states, Waiting) && Listed(other, states, Scheduled) && a in list
    ensures a !in other
  {
  }

  lemma MarkLast<A>(states: map<A, ActorState>, actors: seq<A>, a: A)
    ensures Mark(states, actors + [a], Scheduled) == Mark(states, actors, Scheduled)[a := Scheduled]
  {
    assert (actors + [a])[..|actors|] == actors;
  }

  lemma MarkNone<A>(states: map<A, ActorState>)
    ensures Mark(states, [], Scheduled) == states
  {
  }

  lemma {:induction false} RipenLists<A>(pend: seq<A>, ready: seq<A>, states: map<A, ActorState>, n: nat)
    requires Listed(pend, states, Waiting) && Listed(ready, states, Scheduled) && n <= |pend|
    ensures var marked := Mark(states, pend[..n], Scheduled);
            Listed(pend[n..], marked, Waiting) && Listed(ready + pend[..n], marked, Scheduled)
  {
    hide Listed, Mark;
    if n == 0 {
      assert ready + pend[..0] == ready && pend[0..] == pend && pend[..0] == [];
      MarkNone(states);
    } else {
      RipenLists(pend, ready, states, n - 1);
      var a := pend[n - 1];
      var p, r := pend[n - 1..], ready + pend[..n - 1];
      var marked := Mark(states, pend[..n - 1], Scheduled);
      assert pend[..n] == pend[..n - 1] + [a];
      MarkLast(states, pend[..n - 1], a);
      ListedWithout(p, marked, Waiting, 0, Scheduled);
      assert Without(p, 0) == pend[n..];
      assert p[0] == a;
      Elsewhere(p, r, marked, a);
      ListedWith(r, marked, Scheduled, |r|, a);
      assert With(r, |r|, a) == ready + pend[..n];
    }
  }

  lemma RipenPend<A>(pend: seq<Timer<A>>, now: int)
    requires Ordered(pend)
    ensures var rest := pend[RipeCount(pend, now)..];
            Ordered(rest) && forall t :: t in rest ==> t in pend && t.due > now
  {
    RipeOnes(pend, now);
  }

  lemma RipenFacts<A>(s: Sched<A>, now: int, time: int)
    requires Inv(s)
    ensures var d := Ripen(s, now);
            && Inv(d)
            && (forall t :: t in d.pend ==> t in s.pend && t.due > now)
            && (DueBy(s, now + UINT32_SPAN - 1) ==> Armed(d))
            && (DueBy(s, time) ==> DueBy(d, time))
  {
    hide Mark, Listed, Ordered, RipeCount, Alarm, Armed, DueBy;
    RipenPend(s.pend, now);
    var n := RipeCount(s.pend, now);
    assert Actors(s.pend)[..n] == Actors(s.pend[..n]);
    assert Actors(s.pend)[n..] == Actors(s.pend[n..]);
    RipenLists(Actors(s.pend), s.ready, s.states, n);
    RipenDue(s, now, time);
  }

  lemma RipenDue<A>(s: Sched<A>, now: int, time: int)
    requires Ordered(s.pend)
    ensures DueBy(s, now + UINT32_SPAN - 1) ==> Armed(Ripen(s, now))
    ensures DueBy(s, time) ==> DueBy(Ripen(s, now), time)
  {
    hide Mark, Ordered, RipeCount, Alarm, Actors;
    RipenPend(s.pend, now);
    var n := RipeCount(s.pend, now);
    if n < |s.pend| {
      assert s.pend[n..][0] in s.pend[n..];
      AlarmIs(now, s.pend[n].due);
    }
  }

  lemma AlarmIs(now: int, due: int)
    ensures now < due < now + UINT32_SPAN ==> Alarm(now, due - now) == Some(due)
  {
  }

  /** One round of the loop of actor_poll. */
  function RipenOne<A>(s: Sched<A>): Sched<A>
    requires s.pend != []
  {
    var a := s.pend[0].actor;
    s.(pend := s.pend[1..], ready := s.ready + [a], states := s.states[a := Scheduled])
  }

  lemma {:induction false} MarkFirst<A>(states: map<A, ActorState>, a: A, rest: seq<A>)
    ensures Mark(states, [a] + rest, Scheduled) == Mark(states[a := Scheduled], rest, Scheduled)
  {
    if rest == [] {
      assert [a] + rest == [a] && [a][..0] == [];
    } else {
      MarkFirst(states, a, rest[..|rest| - 1]);
      assert ([a] + rest)[..|rest|] == [a] + rest[..|rest| - 1];
    }
  }

  lemma RipenMore<A>(s: Sched<A>, now: int)
    requires Inv(s) && s.pend != [] && s.pend[0].due <= now
    ensures Inv(RipenOne(s)) && Ripen(RipenOne(s), now) == Ripen(s, now)
  {
    hide Mark, Listed, Alarm;
    var a, d, n := s.pend[0].actor, RipenOne(s), RipeCount(s.pend, now);
    assert Actors(s.pend)[..1] == [a] && Actors(s.pend)[1..] == Actors(d.pend);
    RipenLists(Actors(s.pend), s.ready, s.states, 1);
    MarkFirst(s.states, a, []);
    assert [a] + [] == [a];
    MarkNone(s.states[a := Scheduled]);
    var rest := Actors(d.pend[..n - 1]);
    assert Actors(s.pend[..n]) == [a] + rest;
    MarkFirst(s.states, a, rest);
    assert s.ready + ([a] + rest) == s.ready + [a] + rest;
  }

  lemma TakeFacts<A>(s: Sched<A>)
    requires Inv(s) && s.ready != []
    ensures var d := Take(s);
            && Inv(d) && OffList(d, s.ready[0]) && StateOf(d, s.ready[0]) == NotScheduled
            && (Armed(s) ==> Armed(d)) && d.pend == s.pend
  {
    StateTells(s, s.ready[0]);
    ListedWithout(s.ready, s.states, Scheduled, 0, NotScheduled);
    assert Without(s.ready, 0) == s.ready[1..];
    ListedOther(Actors(s.pend), s.states, Waiting, s.ready[0], NotScheduled);
  }
}
