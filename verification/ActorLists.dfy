/** usr/actor.c over the rings of include/list.h.  The ghost sequences `pend` and `ready`
    are what the two rings stand for, and every operation does to the view what the
    scheduler on values does. */
module ActorLists {
  import opened CText
  import opened Scheduling
  import opened SchedSteps
  import opened ListRing

  ghost function TimerOf(n: Node): Timer<Node>
    reads n`ttschedule, n`stamp
  {
    Timer(n, n.ttschedule, n.stamp)
  }

  ghost function Timers(nodes: seq<Node>): (r: seq<Timer<Node>>)
    reads nodes`ttschedule, nodes`stamp
    ensures |r| == |nodes| && forall i :: 0 <= i < |r| ==> r[i] == TimerOf(nodes[i])
  {
    if nodes == [] then [] else Timers(nodes[..|nodes| - 1]) + [TimerOf(nodes[|nodes| - 1])]
  }

  lemma EmptyInv<A>()
    ensures Inv(Empty<A>())
  {
  }

  class Scheduler {
    const pendList: Node
    const readyList: Node
    var alarm: Option<int>
    ghost var pend: seq<Node>
    ghost var ready: seq<Node>
    ghost var actors: set<Node>
    ghost var stamps: nat

    ghost function Nodes(): set<Node>
      reads this
    {
      actors + {pendList, readyList}
    }

    /** The two rings are sound and disjoint. */
    ghost predicate Links()
      reads this, Nodes()`next, Nodes()`prev
    {
      && pendList != readyList && pendList !in actors && readyList !in actors
      && (forall n :: n in pend ==> n in actors && n !in ready)
      && (forall n :: n in ready ==> n in actors)
      && Ring([pendList] + pend) && Ring([readyList] + ready)
    }

    ghost predicate Valid()
      reads this, Nodes()
    {
      Links() && Inv(View())
    }

    ghost function View(): Sched<Node>
      reads this, Nodes()
      requires Links()
    {
      Sched(Timers(pend), ready, map n | n in actors :: n.state, alarm, stamps)
    }

    constructor ()
      ensures Valid() && View() == Empty() && fresh(pendList) && fresh(readyList)
    {
      pendList := new Node();
      readyList := new Node();
      alarm, pend, ready, actors, stamps := None, [], [], {}, 0;
      new;
      hide Inv, Ring, Timers;
      InitListHead(pendList);
      InitListHead(readyList);
      assert Ring([pendList]);
      assert [pendList] + pend == [pendList] && [readyList] + ready == [readyList];
      assert Links();
      EmptyInv<Node>();
      assert View() == Empty();
    }

    // ---------- the rings ----------

    method LinkPend(n: Node, before: Node, after: Node, ghost k: nat)
      requires Links() && n in actors && n !in pend && n !in ready && k <= |pend|
      requires before == ([pendList] + pend)[k] && after == ([pendList] + pend)[Succ(k, |pend| + 1)]
      modifies this`pend, Nodes()`next, Nodes()`prev
      ensures Links() && pend == With(old(pend), k, n)
    {
      hide Ring;
      ghost var r, other := [pendList] + pend, [readyList] + ready;
      assert n !in r && n !in other && before in r && after in r;
      assert before !in other && after !in other;
      ListInsert(n, before, after, r, k + 1);
      assert Ring(other);
      pend := With(pend, k, n);
      assert With(r, k + 1, n) == [pendList] + pend;
    }

    method LinkReady(n: Node, before: Node, after: Node, ghost k: nat)
      requires Links() && n in actors && n !in pend && n !in ready && k <= |ready|
      requires before == ([readyList] + ready)[k] && after == ([readyList] + ready)[Succ(k, |ready| + 1)]
      modifies this`ready, Nodes()`next, Nodes()`prev
      ensures Links() && ready == With(old(ready), k, n)
    {
      hide Ring;
      ghost var r, other := [readyList] + ready, [pendList] + pend;
      assert n !in r && n !in other && before in r && after in r;
      assert before !in other && after !in other;
      ListInsert(n, before, after, r, k + 1);
      assert Ring(other);
      ready := With(ready, k, n);
      assert With(r, k + 1, n) == [readyList] + ready;
    }

    method UnlinkPend(n: Node, ghost k: nat)
      requires Links() && k < |pend| && pend[k] == n
      modifies this`pend, Nodes()`next, Nodes()`prev
      ensures Links() && pend == Without(old(pend), k) && n !in pend && n !in ready
    {
      hide Ring;
      ghost var r, other := [pendList] + pend, [readyList] + ready;
      ghost var before, after := r[k], r[Succ(k + 1, |r|)];
      assert n !in other && before in r && after in r;
      assert before !in other && after !in other;
      ListDelInit(n, before, after, r, k + 1);
      assert Ring(other);
      assert Without(r, k + 1) == [pendList] + Without(pend, k);
      pend := Without(pend, k);
    }

    method UnlinkReady(n: Node, ghost k: nat)
      requires Links() && k < |ready| && ready[k] == n
      modifies this`ready, Nodes()`next, Nodes()`prev
      ensures Links() && ready == Without(old(ready), k) && n !in ready && n !in pend
    {
      hide Ring;
      ghost var r, other := [readyList] + ready, [pendList] + pend;
      ghost var before, after := r[k], r[Succ(k + 1, |r|)];
      assert n !in other && before in r && after in r;
      assert before !in other && after !in other;
      ListDelInit(n, before, after, r, k + 1);
      assert Ring(other);
      assert Without(r, k + 1) == [readyList] + Without(ready, k);
      ready := Without(ready, k);
    }

    // ---------- the rings and the view ----------

    method PutPend(n: Node, before: Node, after: Node, ghost k: nat)
      requires Links() && n in actors && n !in pend && n !in ready && k <= |pend|
      requires before == ([pendList] + pend)[k] && after == ([pendList] + pend)[Succ(k, |pend| + 1)]
      modifies this`pend, Nodes()`next, Nodes()`prev
      ensures Links() && View() == old(View()).(pend := With(old(View()).pend, k, old(TimerOf(n))))
    {
      hide Ring, Timers;
      LinkPend(n, before, after, k);
      assert Timers(old(pend)) == old(Timers(pend));
      TimersWith(old(pend), k, n);
    }

    method PutReady(n: Node, before: Node, after: Node, ghost k: nat)
      requires Links() && n in actors && n !in pend && n !in ready && k <= |ready|
      requires before == ([readyList] + ready)[k] && after == ([readyList] + ready)[Succ(k, |ready| + 1)]
      modifies this`ready, Nodes()`next, Nodes()`prev
      ensures Links() && View() == old(View()).(ready := With(old(View()).ready, k, n))
    {
      hide Ring, Timers;
      LinkReady(n, before, after, k);
      assert Timers(pend) == old(Timers(pend));
    }

    method TakePend(n: Node, ghost k: nat)
      requires Links() && k < |pend| && pend[k] == n
      modifies this`pend, Nodes()`next, Nodes()`prev
      ensures Links() && n !in pend && n !in ready
      ensures View() == old(View()).(pend := Without(old(View()).pend, k))
    {
      hide Ring, Timers;
      UnlinkPend(n, k);
      assert Timers(old(pend)) == old(Timers(pend));
      TimersWithout(old(pend), k);
    }

    method TakeReady(n: Node, ghost k: nat)
      requires Links() && k < |ready| && ready[k] == n
      modifies this`ready, Nodes()`next, Nodes()`prev
      ensures Links() && n !in pend && n !in ready
      ensures View() == old(View()).(ready := Without(old(View()).ready, k))
    {
      hide Ring, Timers;
      UnlinkReady(n, k);
      assert Timers(pend) == old(Timers(pend));
    }

    method SetState(n: Node, state: ActorState)
      requires Links() && n in actors
      modifies n`state
      ensures n.state == state
      ensures Links() && View() == old(View()).(states := old(View()).states[n := state])
    {
      hide Ring, Timers;
      n.state := state;
      assert Timers(pend) == old(Timers(pend));
    }

    method SetAlarm(value: Option<int>)
      requires Links()
      modifies `alarm
      ensures Links() && View() == old(View()).(alarm := value)
    {
      hide Ring, Timers;
      alarm := value;
    }

    // ---------- the operations ----------

    lemma Seen(n: Node)
      requires Links() && n in actors
      ensures StateOf(View(), n) == n.state
      ensures View().ready == ready && Actors(View().pend) == pend && |View().pend| == |pend|
    {
      hide Ring, Timers;
    }

    lemma Sees()
      requires Links()
      ensures View().ready == ready && Actors(View().pend) == pend && |View().pend| == |pend|
      ensures forall i :: 0 <= i < |pend| ==> View().pend[i] == TimerOf(pend[i])
    {
      hide Ring, Timers;
    }

    /** Cleared memory becomes an actor. */
    method Clear(n: Node)
      requires Valid() && n !in pend && n !in ready && n != pendList && n != readyList
      modifies this`actors, n
      ensures Valid() && View() == Scheduling.Wipe(old(View()), n) && actors == old(actors) + {n}
    {
      hide Ring, Timers, Inv;
      IdleNode(n);
      Blank(n);
      assert n !in [pendList] + pend && n !in [readyList] + ready;
      actors := actors + {n};
      assert Ring([pendList] + pend) && Ring([readyList] + ready);
      assert View() == Scheduling.Wipe(old(View()), n);
    }

    method Blank(n: Node)
      requires Links() && n !in pend && n !in ready && n != pendList && n != readyList
      modifies n
      ensures Links() && n.state == Invalid
      ensures Timers(pend) == old(Timers(pend))
      ensures forall a :: a in actors && a != n ==> a.state == old(a.state)
    {
      hide Ring, Timers;
      ghost var p, r := [pendList] + pend, [readyList] + ready;
      assert n !in p && n !in r;
      n.next, n.prev, n.state := null, null, Invalid;
      assert Ring(p) && Ring(r);
    }

    method Isolate(n: Node)
      requires Links() && n in actors && n !in pend && n !in ready
      modifies n`next, n`prev
      ensures Links() && View() == old(View())
    {
      hide Ring, Timers;
      ghost var p, r := [pendList] + pend, [readyList] + ready;
      assert n !in p && n !in r;
      InitListHead(n);
      assert Ring(p) && Ring(r);
      assert Timers(pend) == old(Timers(pend));
    }

    /** __actor_init */
    method Init(n: Node)
      requires Valid() && n in actors && n !in pend && n !in ready
      modifies n
      ensures Valid() && View() == Scheduling.Init(old(View()), n)
    {
      hide Ring, Timers, Inv, View;
      IdleNode(n);
      Isolate(n);
      SetState(n, NotScheduled);
    }

    lemma IdleNode(n: Node)
      requires Valid() && n !in pend && n !in ready
      ensures Inv(Scheduling.Init(View(), n)) && Inv(Scheduling.Wipe(View(), n))
    {
      hide Ring, Timers, Inv;
      Sees();
      IdleFacts(View(), n);
    }

    /** list_del_init of an actor that is on one of the lists */
    method Detach(n: Node)
      requires Valid() && n in actors && (n.state == Waiting || n.state == Scheduled)
      modifies this`pend, this`ready, Nodes()`next, Nodes()`prev
      ensures Links() && n !in pend && n !in ready
      ensures View() == old(View()).(pend := DropTimer(old(View()).pend, n), ready := DropActor(old(View()).ready, n))
    {
      hide Ring, Timers;
      Seen(n);
      StateTells(View(), n);
      if n.state == Waiting {
        ghost var k :| 0 <= k < |pend| && pend[k] == n;
        DropTimerIs(View().pend, n, k);
        DropActorNone(ready, n);
        hide Inv, View, DropTimer, DropActor;
        TakePend(n, k);
      } else {
        ghost var k :| 0 <= k < |ready| && ready[k] == n;
        DropActorIs(ready, k);
        DropTimerNone(View().pend, n);
        hide Inv, View, DropTimer, DropActor;
        TakeReady(n, k);
      }
    }

    /** actor_delete */
    method Delete(n: Node)
      requires Valid() && n in actors
      modifies this`pend, this`ready, this`alarm, Nodes()`next, Nodes()`prev, n`state
      ensures Valid() && View() == Scheduling.Delete(old(View()), n)
    {
      hide Ring, Timers, Inv, DropTimer, DropActor;
      Seen(n);
      DeleteFacts(View(), n);
      hide View;
      if n.state == Waiting || n.state == Scheduled {
        Detach(n);
        HeadIs();
        if pendList.next == pendList {
          SetAlarm(None);
        }
      }
      SetState(n, NotScheduled);
      assert View() == Scheduling.Delete(old(View()), n);
      assert Links();
      assert Inv(View());
    }

    /** The scan of actor_insert_on_pend_list: the first entry strictly later than `due`,
        or the list head. */
    method FindPlace(due: int) returns (x: Node, ghost k: nat)
      requires Links()
      ensures k == InsertAt(View().pend, due) && k <= |pend|
      ensures x == ([pendList] + pend)[Succ(k, |pend| + 1)] && x.prev == ([pendList] + pend)[k]
    {
      hide Timers, Ring;
      ghost var r := [pendList] + pend;
      Sees();
      Neighbours(r, 0);
      x, k := pendList.next, 0;
      while x != pendList && x.ttschedule <= due
        invariant 0 <= k <= |pend| && x == r[Succ(k, |r|)] && x.prev == r[k]
        invariant forall i :: 0 <= i < k ==> View().pend[i].due <= due
        decreases |pend| - k
      {
        assert k < |pend| && x == r[k + 1] && x == pend[k];
        Neighbours(r, k + 1);
        assert View().pend[k].due == x.ttschedule;
        x, k := x.next, k + 1;
      }
      hide Ring, Timers, View;
      PlaceIs(View().pend, due, k);
    }

    /** History only. */
    ghost method StampEntry(n: Node)
      requires Links() && n in actors && n !in pend
      modifies this`stamps, n`stamp
      ensures Links() && View() == old(View()).(stamps := old(View()).stamps + 1)
      ensures TimerOf(n) == Timer(n, old(n.ttschedule), old(View()).stamps)
    {
      hide Ring, Timers;
      n.stamp, stamps := stamps, stamps + 1;
      assert Timers(pend) == old(Timers(pend));
    }

    /** Stamp the entry and insert it in order. */
    method InsertInOrder(n: Node)
      requires Links() && n in actors && n !in pend && n !in ready
      modifies this`pend, this`stamps, n`stamp, Nodes()`next, Nodes()`prev
      ensures Links()
      ensures var s := old(View());
              View() == s.(pend := Insert(s.pend, Timer(n, n.ttschedule, s.stamps)), stamps := s.stamps + 1)
    {
      hide Ring, Timers, Insert, View;
      InsertIs(View().pend, Timer(n, n.ttschedule, View().stamps));
      StampEntry(n);
      var x, k := FindPlace(n.ttschedule);
      PutPend(n, x.prev, x, k);
    }

    /** actor_insert_on_pend_list */
    method InsertOnPendList(n: Node, now: int, delay: uint32)
      requires Links() && n in actors && n !in pend && n !in ready && n.ttschedule == now + delay && n.state == Waiting
      modifies this`pend, this`stamps, this`alarm, n`stamp, Nodes()`next, Nodes()`prev
      ensures Links() && View() == Scheduling.Pend(old(View()), now, n, delay)
    {
      hide Ring, Timers, Insert, View;
      Marked(n);
      InsertSome(View().pend, Timer(n, now + delay, View().stamps));
      HeadIs();
      var origHead := pendList.next;
      InsertInOrder(n);
      HeadIs();
      if origHead != pendList.next {
        SetAlarm(Alarm(now, delay));
      }
    }

    lemma Marked(n: Node)
      requires Links() && n in actors
      ensures View().states[n := n.state] == View().states
    {
      hide Ring, Timers;
    }

    /** The first entry of pend_list, or its head if there is none. */
    lemma HeadIs()
      requires Links()
      ensures View().pend == [] <==> pendList.next == pendList
      ensures View().pend != [] ==> pendList.next == View().pend[0].actor
    {
      hide Timers;
      Neighbours([pendList] + pend, 0);
      hide Ring;
      Sees();
    }

    method LinkFirst(n: Node)
      requires Links() && n in actors && n !in pend && n !in ready
      modifies this`ready, Nodes()`next, Nodes()`prev
      ensures Links() && View() == old(View()).(ready := [n] + old(View()).ready)
    {
      hide Timers;
      Neighbours([readyList] + ready, 0);
      hide Ring, View;
      assert With(old(ready), 0, n) == [n] + old(ready);
      Sees();
      PutReady(n, readyList, readyList.next, 0);
    }

    method LinkLast(n: Node)
      requires Links() && n in actors && n !in pend && n !in ready
      modifies this`ready, Nodes()`next, Nodes()`prev
      ensures Links() && View() == old(View()).(ready := old(View()).ready + [n])
    {
      hide Timers;
      Neighbours([readyList] + ready, |ready|);
      hide Ring, View;
      assert With(old(ready), |old(ready)|, n) == old(ready) + [n];
      Sees();
      PutReady(n, readyList.prev, readyList, |ready|);
    }

    method SetDue(n: Node, due: int)
      requires Links() && n in actors && n !in pend
      modifies n`ttschedule
      ensures Links() && View() == old(View()) && n.ttschedule == due
    {
      hide Ring, Timers;
      n.ttschedule := due;
      assert Timers(pend) == old(Timers(pend));
    }

    /** The common part of actor_schedule_private for an actor that is on no list. */
    method PlaceActor(n: Node, now: int, delay: uint32, head: bool)
      requires Links() && n in actors && n !in pend && n !in ready && Inv(Scheduling.Init(View(), n))
      modifies this, n, Nodes()`next, Nodes()`prev
      ensures Valid() && View() == Scheduling.Place(old(View()), now, n, delay, head) && actors == old(actors)
    {
      hide Ring, Timers, Inv, View;
      PlacedInv(View(), pend, now, n, delay, head);
      Isolate(n);
      if delay == 0 {
        SetState(n, Scheduled);
        if head {
          LinkFirst(n);
        } else {
          LinkLast(n);
        }
      } else {
        SetState(n, Waiting);
        SetDue(n, now + delay);
        InsertOnPendList(n, now, delay);
      }
      assert View() == Scheduling.Place(old(View()), now, n, delay, head);
    }

    lemma PlacedInv(s: Sched<Node>, nodes: seq<Node>, now: int, n: Node, delay: uint32, head: bool)
      requires Links() && s == View() && nodes == pend && n !in pend && n !in ready && Inv(Scheduling.Init(s, n))
      ensures Inv(Scheduling.Place(s, now, n, delay, head))
    {
      hide Ring, Timers, Inv, Scheduling.Place;
      Sees();
      PlaceSame(s, now, n, delay, head);
      PlaceFacts(Scheduling.Init(s, n), now, n, delay, head, 0);
    }

    /** actor_schedule_private; `now` is what clock_gettime gives, if it works */
    method Schedule(n: Node, now: Option<int>, delay: uint32, head: bool)
      requires Valid() && n in actors
      modifies this, n, Nodes()`next, Nodes()`prev
      ensures Valid() && View() == Scheduling.Schedule(old(View()), now, n, delay, head) && actors == old(actors)
    {
      hide Ring, Timers, Inv, Scheduling.Place, DropTimer;
      Seen(n);
      if now.None? {
        return;
      }
      StateTells(View(), n);
      match n.state
      case Waiting =>
        Unpend(n);
        PlaceActor(n, now.value, delay, head);
      case NotScheduled =>
        Seen(n);
        IdleNode(n);
        PlaceActor(n, now.value, delay, head);
      case _ =>
    }

    /** list_del of a waiting actor */
    method Unpend(n: Node)
      requires Valid() && n in actors && n.state == Waiting
      modifies this`pend, Nodes()`next, Nodes()`prev
      ensures Links() && n !in pend && n !in ready && Inv(Scheduling.Init(View(), n))
      ensures View() == old(View()).(pend := DropTimer(old(View()).pend, n))
    {
      hide Ring, Timers;
      Seen(n);
      StateTells(View(), n);
      UnpendFacts(View(), n);
      ghost var k :| 0 <= k < |pend| && pend[k] == n;
      DropTimerIs(View().pend, n, k);
      hide Inv, View, DropTimer;
      TakePend(n, k);
    }

    /** actor_timer_mod */
    method TimerMod(n: Node, now: Option<int>, delay: uint32)
      requires Valid() && n in actors
      modifies this, n, Nodes()`next, Nodes()`prev
      ensures Valid() && View() == Scheduling.TimerMod(old(View()), now, n, delay) && actors == old(actors)
    {
      hide Links, Inv, View, Scheduling.Delete, Scheduling.Schedule;
      Delete(n);
      Schedule(n, now, delay, false);
    }

    // ---------- actor_poll ----------

    /** Move the first waiting actor to the end of ready_list. */
    method RipenFirst(n: Node)
      requires Valid() && pend != [] && n == pend[0]
      modifies this`pend, this`ready, n`state, Nodes()`next, Nodes()`prev
      ensures Links() && View() == RipenOne(old(View()))
    {
      hide Ring, Timers, Inv;
      Sees();
      assert Without(View().pend, 0) == View().pend[1..];
      hide View;
      TakePend(n, 0);
      LinkLast(n);
      SetState(n, Scheduled);
    }

    /** actor_poll up to the point where actors are run */
    method Ripen(now: int)
      requires Valid()
      modifies this`pend, this`ready, this`alarm, Nodes()
      ensures Valid() && View() == Scheduling.Ripen(old(View()), now)
    {
      hide Ring, Timers, Inv, Scheduling.Ripen;
      ghost var goal := Scheduling.Ripen(View(), now);
      var thread := pendList.next;
      HeadIs();
      Sees();
      while thread != pendList
        invariant Valid() && actors == old(actors) && thread == pendList.next
        invariant Scheduling.Ripen(View(), now) == goal
        decreases |pend|
      {
        HeadIs();
        Sees();
        var left := if now > thread.ttschedule then 0 else thread.ttschedule - now;
        if left > 0 {
          RipenStops(View(), now);
          SetAlarm(Alarm(now, left));
          return;
        }
        RipenMore(View(), now);
        RipenFirst(thread);
        Sees();
        thread := pendList.next;
      }
      HeadIs();
      RipenEmpty(View(), now);
      SetAlarm(None);
    }

    /** actor_poll takes the first ready actor off its list to run it. */
    method TakeFirst() returns (n: Node)
      requires Valid() && ready != []
      modifies this`ready, Nodes()
      ensures Valid() && View() == Scheduling.Take(old(View())) && n == old(ready[0])
    {
      hide Ring, Timers, Inv;
      Sees();
      TakeFacts(View());
      ReadyHead();
      n := readyList.next;
      assert Without(View().ready, 0) == View().ready[1..];
      hide View;
      TakeReady(n, 0);
      SetState(n, NotScheduled);
      assert View() == Scheduling.Take(old(View()));
    }

    lemma ReadyHead()
      requires Links() && ready != []
      ensures readyList.next == ready[0]
    {
      Neighbours([readyList] + ready, 0);
    }
  }

  lemma RipenStops<A>(s: Sched<A>, now: int)
    requires s.pend != [] && s.pend[0].due > now && Inv(s)
    ensures Ripen(s, now) == s.(alarm := Alarm(now, s.pend[0].due - now))
    ensures Inv(Ripen(s, now))
  {
    assert RipeCount(s.pend, now) == 0;
    assert s.ready + [] == s.ready;
    assert Actors(s.pend[..0]) == [];
    RipenFacts(s, now, 0);
  }

  lemma RipenEmpty<A>(s: Sched<A>, now: int)
    requires s.pend == [] && Inv(s)
    ensures Ripen(s, now) == s.(alarm := None)
    ensures Inv(Ripen(s, now))
  {
    assert s.ready + [] == s.ready;
    assert Actors(s.pend[..0]) == [];
    RipenFacts(s, now, 0);
  }

  lemma {:induction false} PlaceIs<A>(pend: seq<Timer<A>>, due: int, k: nat)
    requires k <= |pend| && (forall i :: 0 <= i < k ==> pend[i].due <= due) && (k < |pend| ==> pend[k].due > due)
    ensures InsertAt(pend, due) == k
  {
    if k > 0 {
      PlaceIs(pend[1..], due, k - 1);
    }
  }

  lemma {:induction false} TimersWith(nodes: seq<Node>, k: nat, n: Node)
    requires k <= |nodes|
    ensures Timers(With(nodes, k, n)) == With(Timers(nodes), k, TimerOf(n))
  {
    hide Timers;
  }

  lemma {:induction false} TimersWithout(nodes: seq<Node>, k: nat)
    requires k < |nodes|
    ensures Timers(Without(nodes, k)) == Without(Timers(nodes), k)
  {
    hide Timers;
  }
}
