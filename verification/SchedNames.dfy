/** The scheduler does not look at what its actors are: renaming them, one to one, commutes
    with every operation. */
module SchedNames {
  import opened CText
  import opened Scheduling
  import opened SchedSteps

  ghost predicate OneToOne<A, B>(ids: map<A, B>) {
    forall a, b :: a in ids && b in ids && ids[a] == ids[b] ==> a == b
  }

  /** Every actor has a name. */
  ghost predicate Covers<A, B>(ids: map<A, B>, q: Sched<A>) {
    && q.states.Keys <= ids.Keys
    && (forall i :: 0 <= i < |q.pend| ==> q.pend[i].actor in ids)
    && (forall i :: 0 <= i < |q.ready| ==> q.ready[i] in ids)
  }

  ghost function NameTimer<A, B>(ids: map<A, B>, t: Timer<A>): Timer<B>
    requires t.actor in ids
  {
    Timer(ids[t.actor], t.due, t.stamp)
  }

  ghost function NamePend<A, B>(ids: map<A, B>, pend: seq<Timer<A>>): (r: seq<Timer<B>>)
    requires forall i :: 0 <= i < |pend| ==> pend[i].actor in ids
    ensures |r| == |pend| && forall i :: 0 <= i < |r| ==> r[i] == NameTimer(ids, pend[i])
  {
    seq(|pend|, i requires 0 <= i < |pend| => NameTimer(ids, pend[i]))
  }

  ghost function NameList<A, B>(ids: map<A, B>, list: seq<A>): (r: seq<B>)
    requires forall i :: 0 <= i < |list| ==> list[i] in ids
    ensures |r| == |list| && forall i :: 0 <= i < |r| ==> r[i] == ids[list[i]]
  {
    seq(|list|, i requires 0 <= i < |list| => ids[list[i]])
  }

  ghost function NameStates<A, B>(ids: map<A, B>, states: map<A, ActorState>): (r: map<B, ActorState>)
    requires OneToOne(ids) && states.Keys <= ids.Keys
    ensures forall a :: a in ids ==> (ids[a] in r <==> a in states) && (a in states ==> r[ids[a]] == states[a])
    ensures forall b :: b in r ==> exists a :: a in states && ids[a] == b
  {
    map a | a in states :: ids[a] := states[a]
  }

  ghost function Named<A, B>(ids: map<A, B>, q: Sched<A>): Sched<B>
    requires OneToOne(ids) && Covers(ids, q)
  {
    Sched(NamePend(ids, q.pend), NameList(ids, q.ready), NameStates(ids, q.states), q.alarm, q.stamps)
  }

  lemma NamedState<A, B>(ids: map<A, B>, q: Sched<A>, a: A)
    requires OneToOne(ids) && Covers(ids, q) && a in ids
    ensures StateOf(Named(ids, q), ids[a]) == StateOf(q, a)
  {
  }

  lemma NamedUpdate<A, B>(ids: map<A, B>, states: map<A, ActorState>, a: A, state: ActorState)
    requires OneToOne(ids) && states.Keys <= ids.Keys && a in ids
    ensures states[a := state].Keys <= ids.Keys
    ensures NameStates(ids, states[a := state]) == NameStates(ids, states)[ids[a] := state]
  {
    var l, r := NameStates(ids, states[a := state]), NameStates(ids, states)[ids[a] := state];
    forall b ensures b in l <==> b in r {
      if b in l {
        var x :| x in states[a := state] && ids[x] == b;
      }
      if b in r && b != ids[a] {
        var x :| x in states && ids[x] == b;
      }
    }
    forall b | b in l ensures l[b] == r[b] {
      var x :| x in states[a := state] && ids[x] == b;
    }
  }

  // ---------- the lists ----------

  lemma {:induction false} NamedDropTimer<A, B>(ids: map<A, B>, pend: seq<Timer<A>>, a: A)
    requires OneToOne(ids) && a in ids && forall i :: 0 <= i < |pend| ==> pend[i].actor in ids
    ensures forall i :: 0 <= i < |DropTimer(pend, a)| ==> DropTimer(pend, a)[i].actor in ids
    ensures NamePend(ids, DropTimer(pend, a)) == DropTimer(NamePend(ids, pend), ids[a])
  {
    if pend != [] {
      NamedDropTimer(ids, pend[1..], a);
      assert NamePend(ids, pend)[1..] == NamePend(ids, pend[1..]);
    }
  }

  lemma {:induction false} NamedDropActor<A, B>(ids: map<A, B>, list: seq<A>, a: A)
    requires OneToOne(ids) && a in ids && forall i :: 0 <= i < |list| ==> list[i] in ids
    ensures forall i :: 0 <= i < |DropActor(list, a)| ==> DropActor(list, a)[i] in ids
    ensures NameList(ids, DropActor(list, a)) == DropActor(NameList(ids, list), ids[a])
  {
    if list != [] {
      NamedDropActor(ids, list[1..], a);
      assert NameList(ids, list)[1..] == NameList(ids, list[1..]);
    }
  }

  lemma {:induction false} NamedInsert<A, B>(ids: map<A, B>, pend: seq<Timer<A>>, t: Timer<A>)
    requires OneToOne(ids) && t.actor in ids && forall i :: 0 <= i < |pend| ==> pend[i].actor in ids
    ensures forall i :: 0 <= i < |Insert(pend, t)| ==> Insert(pend, t)[i].actor in ids
    ensures NamePend(ids, Insert(pend, t)) == Insert(NamePend(ids, pend), NameTimer(ids, t))
  {
    if pend == [] || pend[0].due > t.due {
      assert NamePend(ids, [t] + pend) == [NameTimer(ids, t)] + NamePend(ids, pend);
    } else {
      NamedInsert(ids, pend[1..], t);
      assert NamePend(ids, pend)[1..] == NamePend(ids, pend[1..]);
      assert Insert(pend, t) == [pend[0]] + Insert(pend[1..], t);
    }
  }

  lemma {:induction false} NamedMark<A, B>(ids: map<A, B>, states: map<A, ActorState>, actors: seq<A>, state: ActorState)
    requires OneToOne(ids) && states.Keys <= ids.Keys && forall i :: 0 <= i < |actors| ==> actors[i] in ids
    ensures Mark(states, actors, state).Keys <= ids.Keys
    ensures NameStates(ids, Mark(states, actors, state)) == Mark(NameStates(ids, states), NameList(ids, actors), state)
  {
    hide NameStates;
    if actors == [] {
      assert NameList(ids, actors) == [];
    } else {
      var front, last := actors[..|actors| - 1], actors[|actors| - 1];
      NamedMark(ids, states, front, state);
      NamedUpdate(ids, Mark(states, front, state), last, state);
      assert NameList(ids, actors)[..|actors| - 1] == NameList(ids, front);
    }
  }

  lemma {:induction false} NamedRipe<A, B>(ids: map<A, B>, pend: seq<Timer<A>>, now: int)
    requires forall i :: 0 <= i < |pend| ==> pend[i].actor in ids
    ensures RipeCount(NamePend(ids, pend), now) == RipeCount(pend, now)
  {
    if pend != [] {
      NamedRipe(ids, pend[1..], now);
      assert NamePend(ids, pend)[1..] == NamePend(ids, pend[1..]);
    }
  }

  // ---------- the operations ----------

  lemma NamedInit<A, B>(ids: map<A, B>, q: Sched<A>, a: A)
    requires OneToOne(ids) && Covers(ids, q) && a in ids
    ensures Covers(ids, Init(q, a)) && Named(ids, Init(q, a)) == Init(Named(ids, q), ids[a])
    ensures Covers(ids, Wipe(q, a)) && Named(ids, Wipe(q, a)) == Wipe(Named(ids, q), ids[a])
  {
    hide NameStates, NamePend, NameList;
    NamedUpdate(ids, q.states, a, NotScheduled);
    NamedUpdate(ids, q.states, a, Invalid);
  }

  lemma NamedDelete<A, B>(ids: map<A, B>, q: Sched<A>, a: A)
    requires OneToOne(ids) && Covers(ids, q) && a in ids
    ensures Covers(ids, Delete(q, a)) && Named(ids, Delete(q, a)) == Delete(Named(ids, q), ids[a])
  {
    hide NameStates, NamePend, NameList, DropTimer, DropActor, StateOf;
    NamedState(ids, q, a);
    NamedUpdate(ids, q.states, a, NotScheduled);
    NamedDropTimer(ids, q.pend, a);
    NamedDropActor(ids, q.ready, a);
  }

  lemma NamedPlace<A, B>(ids: map<A, B>, q: Sched<A>, now: int, a: A, delay: uint32, head: bool)
    requires OneToOne(ids) && Covers(ids, q) && a in ids
    ensures Covers(ids, Place(q, now, a, delay, head))
    ensures Named(ids, Place(q, now, a, delay, head)) == Place(Named(ids, q), now, ids[a], delay, head)
  {
    hide NameStates, Insert, Pend;
    if delay == 0 {
      NamedUpdate(ids, q.states, a, Scheduled);
      assert NameList(ids, [a] + q.ready) == [ids[a]] + NameList(ids, q.ready);
      assert NameList(ids, q.ready + [a]) == NameList(ids, q.ready) + [ids[a]];
    } else {
      NamedPending(ids, q, now, a, delay);
    }
  }

  lemma NamedPending<A, B>(ids: map<A, B>, q: Sched<A>, now: int, a: A, delay: uint32)
    requires OneToOne(ids) && Covers(ids, q) && a in ids
    ensures Covers(ids, Pend(q, now, a, delay)) && Named(ids, Pend(q, now, a, delay)) == Pend(Named(ids, q), now, ids[a], delay)
  {
    hide NameStates, NamePend, Insert, Alarm;
    var t := Timer(a, now + delay, q.stamps);
    NamedUpdate(ids, q.states, a, Waiting);
    NamedInsert(ids, q.pend, t);
    InsertSome(q.pend, t);
    var p := Insert(q.pend, t);
    assert NamePend(ids, p)[0].actor == ids[p[0].actor];
    assert q.pend != [] ==> NamePend(ids, q.pend)[0].actor == ids[q.pend[0].actor];
  }

  lemma NamedSchedule<A, B>(ids: map<A, B>, q: Sched<A>, now: Option<int>, a: A, delay: uint32, head: bool)
    requires OneToOne(ids) && Covers(ids, q) && a in ids
    ensures Covers(ids, Schedule(q, now, a, delay, head))
    ensures Named(ids, Schedule(q, now, a, delay, head)) == Schedule(Named(ids, q), now, ids[a], delay, head)
  {
    hide NameStates, NamePend, NameList, DropTimer, Place, StateOf;
    NamedState(ids, q, a);
    NamedDropTimer(ids, q.pend, a);
    if now.Some? {
      NamedPlace(ids, q, now.value, a, delay, head);
      NamedPlace(ids, q.(pend := DropTimer(q.pend, a)), now.value, a, delay, head);
    }
  }

  lemma NamedTimerMod<A, B>(ids: map<A, B>, q: Sched<A>, now: Option<int>, a: A, delay: uint32)
    requires OneToOne(ids) && Covers(ids, q) && a in ids
    ensures Covers(ids, TimerMod(q, now, a, delay))
    ensures Named(ids, TimerMod(q, now, a, delay)) == TimerMod(Named(ids, q), now, ids[a], delay)
  {
    hide Named, Covers, Delete, Schedule;
    NamedDelete(ids, q, a);
    NamedSchedule(ids, Delete(q, a), now, a, delay, false);
  }

  lemma NamedRipen<A, B>(ids: map<A, B>, q: Sched<A>, now: int)
    requires OneToOne(ids) && Covers(ids, q)
    ensures Covers(ids, Ripen(q, now)) && Named(ids, Ripen(q, now)) == Ripen(Named(ids, q), now)
  {
    hide NameStates, Mark, RipeCount;
    NamedRipe(ids, q.pend, now);
    var n := RipeCount(q.pend, now);
    var ripe := Actors(q.pend[..n]);
    NamedMark(ids, q.states, ripe, Scheduled);
    assert NameList(ids, ripe) == Actors(NamePend(ids, q.pend)[..n]);
    assert NamePend(ids, q.pend)[n..] == NamePend(ids, q.pend[n..]);
    assert NameList(ids, q.ready + ripe) == NameList(ids, q.ready) + NameList(ids, ripe);
  }

  lemma NamedTake<A, B>(ids: map<A, B>, q: Sched<A>)
    requires OneToOne(ids) && Covers(ids, q) && q.ready != []
    ensures Covers(ids, Take(q)) && Named(ids, Take(q)) == Take(Named(ids, q))
  {
    hide NameStates;
    NamedUpdate(ids, q.states, q.ready[0], NotScheduled);
    assert NameList(ids, q.ready)[1..] == NameList(ids, q.ready[1..]);
  }

  lemma NamedOnList<A, B>(ids: map<A, B>, q: Sched<A>, a: A)
    requires OneToOne(ids) && Covers(ids, q) && a in ids
    ensures OnList(Named(ids, q), ids[a]) <==> OnList(q, a)
  {
    hide NameStates;
    var l, r := Actors(Named(ids, q).pend), Actors(q.pend);
    assert forall i :: 0 <= i < |r| ==> l[i] == ids[r[i]];
    if ids[a] in l {
      var i :| 0 <= i < |l| && l[i] == ids[a];
      assert r[i] == a;
    }
    if a in r {
      var i :| 0 <= i < |r| && r[i] == a;
      assert l[i] == ids[a];
    }
    var m := NameList(ids, q.ready);
    if ids[a] in m {
      var i :| 0 <= i < |m| && m[i] == ids[a];
      assert q.ready[i] == a;
    }
    if a in q.ready {
      var i :| 0 <= i < |q.ready| && q.ready[i] == a;
      assert m[i] == ids[a];
    }
  }

  lemma NamedListed<A, B>(ids: map<A, B>, list: seq<A>, states: map<A, ActorState>, state: ActorState)
    requires OneToOne(ids) && states.Keys <= ids.Keys && (forall i :: 0 <= i < |list| ==> list[i] in ids) && Listed(list, states, state)
    ensures Listed(NameList(ids, list), NameStates(ids, states), state)
  {
    var l, m := NameList(ids, list), NameStates(ids, states);
    forall b | b in l ensures b in m && m[b] == state {
      var i :| 0 <= i < |l| && l[i] == b;
      assert list[i] in list;
    }
    forall b | b in m && m[b] == state ensures b in l {
      var a :| a in states && ids[a] == b;
      var i :| 0 <= i < |list| && list[i] == a;
      assert l[i] == b;
    }
  }

  lemma NamedInv<A, B>(ids: map<A, B>, q: Sched<A>)
    requires OneToOne(ids) && Covers(ids, q) && Inv(q)
    ensures Inv(Named(ids, q))
  {
    hide NameStates, Listed;
    var p := NamePend(ids, q.pend);
    assert forall i :: 0 <= i < |p| ==> p[i].due == q.pend[i].due && p[i].stamp == q.pend[i].stamp;
    assert Actors(p) == NameList(ids, Actors(q.pend));
    NamedListed(ids, Actors(q.pend), q.states, Waiting);
    NamedListed(ids, q.ready, q.states, Scheduled);
  }
}
