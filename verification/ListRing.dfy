/** The intrusive list of include/list.h: rings of nodes, rewritten pointer by pointer, and
    the sequences they stand for.  A node is an actor of usr/actor.h with its list_head. */
module ListRing {
  import opened Scheduling
  import opened SchedSteps

  class Node {
    var next: Node?
    var prev: Node?
    var state: ActorState
    var ttschedule: int
    ghost var stamp: nat

    /** Cleared memory. */
    constructor ()
      ensures next == null && prev == null && state == Invalid
    {
      next, prev, state, ttschedule, stamp := null, null, Invalid, 0, 0;
    }
  }

  function Succ(i: nat, n: nat): nat
    requires i < n
  {
    if i + 1 == n then 0 else i + 1
  }

  ghost predicate Distinct(r: seq<Node>) {
    forall i, j :: 0 <= i < j < |r| ==> r[i] != r[j]
  }

  ghost predicate Linked(r: seq<Node>)
    reads r`next, r`prev
  {
    && (forall i :: 0 <= i < |r| ==> r[i].next == r[Succ(i, |r|)])
    && (forall i :: 0 <= i < |r| ==> r[Succ(i, |r|)].prev == r[i])
  }

  /** The nodes `r`, in this order, are linked in both directions into a ring. */
  ghost predicate Ring(r: seq<Node>)
    reads r`next, r`prev
  {
    |r| > 0 && Distinct(r) && Linked(r)
  }

  lemma DistinctWith(r: seq<Node>, k: nat, n: Node)
    requires Distinct(r) && k <= |r| && n !in r
    ensures Distinct(With(r, k, n))
  {
  }

  lemma DistinctWithout(r: seq<Node>, k: nat)
    requires Distinct(r) && k < |r|
    ensures Distinct(Without(r, k))
  {
  }

  lemma Neighbours(r: seq<Node>, k: nat)
    requires Ring(r) && k < |r|
    ensures r[k].next == r[Succ(k, |r|)] && r[Succ(k, |r|)].prev == r[k]
  {
  }

  /** INIT_LIST_HEAD */
  method InitListHead(n: Node)
    modifies n`next, n`prev
    ensures Ring([n])
  {
    n.next, n.prev := n, n;
  }

  /** list_empty */
  method ListEmpty(head: Node, ghost r: seq<Node>) returns (empty: bool)
    requires Ring(r) && r[0] == head
    ensures empty <==> |r| == 1
  {
    empty := head.next == head;
  }

  /** __list_add between two neighbours of a ring */
  method ListInsert(n: Node, before: Node, after: Node, ghost r: seq<Node>, ghost k: nat)
    requires Ring(r) && 1 <= k <= |r| && n !in r
    requires before == r[k - 1] && after == r[Succ(k - 1, |r|)]
    modifies n`next, n`prev, before`next, after`prev
    ensures Ring(With(r, k, n))
  {
    after.prev := n;
    n.next := after;
    n.prev := before;
    before.next := n;
    ghost var s := With(r, k, n);
    forall i | 0 <= i < |s| ensures s[i].next == s[Succ(i, |s|)] && s[Succ(i, |s|)].prev == s[i] {
      if i < k - 1 {
        assert s[i] == r[i] && s[i + 1] == r[i + 1] && Succ(i, |r|) == i + 1;
      } else if i > k {
        assert s[i] == r[i - 1] && s[Succ(i, |s|)] == r[Succ(i - 1, |r|)];
      }
    }
    DistinctWith(r, k, n);
    hide Distinct;
  }

  /** __list_del of the node between two neighbours */
  method ListUnlink(before: Node, after: Node, ghost r: seq<Node>, ghost k: nat)
    requires Ring(r) && 1 <= k < |r|
    requires before == r[k - 1] && after == r[Succ(k, |r|)]
    modifies before`next, after`prev
    ensures Ring(Without(r, k))
  {
    after.prev := before;
    before.next := after;
    ghost var s := Without(r, k);
    forall i | 0 <= i < |s| ensures s[i].next == s[Succ(i, |s|)] && s[Succ(i, |s|)].prev == s[i] {
      if i < k - 1 {
        assert s[i] == r[i] && s[i + 1] == r[i + 1] && Succ(i, |r|) == i + 1;
      } else if i > k - 1 {
        assert s[i] == r[i + 1] && s[Succ(i, |s|)] == r[Succ(i + 1, |r|)];
      }
    }
    DistinctWithout(r, k);
    hide Distinct;
  }

  /** list_del_init; the ghosts name the neighbours it rewrites */
  method ListDelInit(n: Node, ghost before: Node, ghost after: Node, ghost r: seq<Node>, ghost k: nat)
    requires Ring(r) && 1 <= k < |r| && r[k] == n
    requires before == r[k - 1] && after == r[Succ(k, |r|)]
    modifies n`next, n`prev, before`next, after`prev
    ensures Ring(Without(r, k)) && Ring([n]) && n !in Without(r, k)
  {
    assert Succ(k - 1, |r|) == k;
    ListUnlink(n.prev, n.next, r, k);
    InitListHead(n);
  }
}
