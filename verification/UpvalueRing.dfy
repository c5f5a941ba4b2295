// The doubly linked list of all open upvalues (lfunc.c), a ring through the sentinel uvhead.  It denotes
// the sequence that the global state keeps.
module UpvalueRing {
  import opened Objects

  datatype Node = Head | Upval(id: Id)

  // Node i of the ring that denotes list; both ends are the sentinel.
  function At(list: seq<Id>, i: nat): Node {
    if 0 < i <= |list| then Upval(list[i - 1]) else Head
  }

  ghost predicate OnRing(list: seq<Id>, n: Node) {
    n == Head || n.id in list
  }

  ghost predicate IsRing(next: map<Node, Node>, prev: map<Node, Node>, list: seq<Id>) {
    && NoDup(list)
    && (forall n {:trigger n in next} :: n in next <==> OnRing(list, n))
    && (forall n {:trigger n in prev} :: n in prev <==> OnRing(list, n))
    && (forall i: nat {:trigger At(list, i)} :: i <= |list| ==> Joined(next, prev, At(list, i), At(list, i + 1)))
  }

  predicate Joined(next: map<Node, Node>, prev: map<Node, Node>, a: Node, b: Node) {
    a in next && next[a] == b && b in prev && prev[b] == a
  }

  class Ring {
    var next: map<Node, Node>
    var prev: map<Node, Node>
    ghost var list: seq<Id>

    ghost predicate Valid()
      reads this
    {
      IsRing(next, prev, list)
    }

    constructor ()
      ensures Valid() && list == []
    {
      next, prev, list := map[Head := Head], map[Head := Head], [];
    }

    // luaF_findupval: u becomes the first of the list.
    method Link(u: Id)
      requires Valid() && u !in list
      modifies this
      ensures Valid() && list == [u] + old(list)
    {
      FirstOnRing(next, prev, list);
      LinkedRing(next, prev, list, u);
      var first := next[Head];
      prev := prev[Upval(u) := Head];
      next := next[Upval(u) := first];
      prev := prev[first := Upval(u)];
      next := next[Head := Upval(u)];
      list := [u] + list;
    }

    // unlinkupval: the neighbours of u are joined, and no other link changes.
    method Unlink(u: Id)
      requires Valid() && u in list
      modifies this
      ensures Valid() && list == Without(old(list), u)
      ensures Joined(next, prev, old(prev)[Upval(u)], old(next)[Upval(u)])
      ensures forall n :: n in next && n != old(prev)[Upval(u)] ==> n in old(next) && next[n] == old(next)[n]
      ensures forall n :: n in prev && n != old(next)[Upval(u)] ==> n in old(prev) && prev[n] == old(prev)[n]
    {
      Neighbours(next, prev, list, u);
      UnlinkedRing(next, prev, list, u);
      var before, after := prev[Upval(u)], next[Upval(u)];
      prev := prev[after := before] - {Upval(u)};
      next := next[before := after] - {Upval(u)};
      list := Without(list, u);
    }

    // From the sentinel along next until it comes back, as remarkupvals does: every open upvalue, once.
    method Walk() returns (seen: seq<Id>)
      requires Valid()
      ensures seen == list
    {
      seen := [];
      FirstOnRing(next, prev, list);
      var n := next[Head];
      while n != Head
        invariant |seen| <= |list| && seen == list[..|seen|] && n == At(list, |seen| + 1)
        decreases |list| - |seen|
      {
        assert Joined(next, prev, n, At(list, |seen| + 2));
        seen := seen + [n.id];
        n := next[n];
      }
    }
  }

  lemma FirstOnRing(next: map<Node, Node>, prev: map<Node, Node>, list: seq<Id>)
    requires IsRing(next, prev, list)
    ensures Head in next && next[Head] == At(list, 1) && next[Head] in prev
  {
    assert Joined(next, prev, At(list, 0), At(list, 1));
  }

  lemma NodesDiffer(list: seq<Id>, i: nat, j: nat)
    requires NoDup(list) && i <= |list| && j <= |list| && i != j
    ensures At(list, i) != At(list, j)
  {
  }

  lemma LinkedRing(next: map<Node, Node>, prev: map<Node, Node>, list: seq<Id>, u: Id)
    requires IsRing(next, prev, list) && u !in list
    ensures IsRing(next[Upval(u) := At(list, 1)][Head := Upval(u)], prev[Upval(u) := Head][At(list, 1) := Upval(u)],
                   [u] + list)
  {
    var next', list' := next[Upval(u) := At(list, 1)][Head := Upval(u)], [u] + list;
    var prev' := prev[Upval(u) := Head][At(list, 1) := Upval(u)];
    FirstOnRing(next, prev, list);
    NoDupAppend([u], list);
    forall i: nat | i <= |list'|
      ensures Joined(next', prev', At(list', i), At(list', i + 1))
    {
      if i >= 2 {
        assert At(list', i) == At(list, i - 1) && At(list', i + 1) == At(list, i);
        assert Joined(next, prev, At(list, i - 1), At(list, i));
        if i <= |list| {
          NodesDiffer(list, i, 1);
        }
      }
    }
  }

  // The source asserts as much of a linked upvalue: its neighbours point back to it.
  lemma Neighbours(next: map<Node, Node>, prev: map<Node, Node>, list: seq<Id>, u: Id)
    requires IsRing(next, prev, list) && u in list
    ensures Upval(u) in next && Upval(u) in prev
    ensures Joined(next, prev, prev[Upval(u)], Upval(u)) && Joined(next, prev, Upval(u), next[Upval(u)])
    ensures prev[Upval(u)] != Upval(u) && next[Upval(u)] != Upval(u)
  {
    var k :| 0 <= k < |list| && list[k] == u;
    NeighboursAt(next, prev, list, k);
  }

  lemma NeighboursAt(next: map<Node, Node>, prev: map<Node, Node>, list: seq<Id>, k: nat)
    requires IsRing(next, prev, list) && k < |list|
    ensures Joined(next, prev, At(list, k), At(list, k + 1)) && Joined(next, prev, At(list, k + 1), At(list, k + 2))
    ensures At(list, k + 1) == Upval(list[k]) && Upval(list[k]) !in {At(list, k), At(list, k + 2)}
  {
    assert Joined(next, prev, At(list, k), At(list, k + 1)) && Joined(next, prev, At(list, k + 1), At(list, k + 2));
  }

  lemma UnlinkedRing(next: map<Node, Node>, prev: map<Node, Node>, list: seq<Id>, u: Id)
    requires IsRing(next, prev, list) && u in list && Upval(u) in next && Upval(u) in prev
    ensures var before, after := prev[Upval(u)], next[Upval(u)];
            IsRing(next[before := after] - {Upval(u)}, prev[after := before] - {Upval(u)}, Without(list, u))
  {
    var k: nat :| k < |list| && list[k] == u;
    NeighboursAt(next, prev, list, k);
    WithoutAt(list, k);
    RemoveAtFacts(list, k);
    RemovedRing(next, prev, list, k);
  }

  lemma RemovedRing(next: map<Node, Node>, prev: map<Node, Node>, list: seq<Id>, k: nat)
    requires IsRing(next, prev, list) && k < |list|
    requires NoDup(RemoveAt(list, k)) && forall x :: x in RemoveAt(list, k) <==> x in list && x != list[k]
    ensures var n := Upval(list[k]);
            IsRing(next[At(list, k) := At(list, k + 2)] - {n}, prev[At(list, k + 2) := At(list, k)] - {n},
                   RemoveAt(list, k))
  {
    var n, list' := Upval(list[k]), RemoveAt(list, k);
    var next', prev' := next[At(list, k) := At(list, k + 2)] - {n}, prev[At(list, k + 2) := At(list, k)] - {n};
    NeighboursAt(next, prev, list, k);
    forall i: nat | i <= |list'|
      ensures Joined(next', prev', At(list', i), At(list', i + 1))
    {
      RemovedJoin(next, prev, list, k, i);
    }
  }

  lemma RemovedJoin(next: map<Node, Node>, prev: map<Node, Node>, list: seq<Id>, k: nat, i: nat)
    requires IsRing(next, prev, list) && k < |list| && i < |list|
    ensures var n, list' := Upval(list[k]), RemoveAt(list, k);
            Joined(next[At(list, k) := At(list, k + 2)] - {n}, prev[At(list, k + 2) := At(list, k)] - {n},
                   At(list', i), At(list', i + 1))
  {
    var list', j := RemoveAt(list, k), if i < k then i else i + 1;
    assert At(list', i + 1) == At(list, if i < k then i + 1 else i + 2);
    assert At(list', i) == At(list, if i <= k then i else i + 1);
    NeighboursAt(next, prev, list, k);
    if i != k {
      assert Joined(next, prev, At(list, j), At(list, j + 1));
      NodesDiffer(list, j, k);
      NodesDiffer(list, j, k + 1);
      JoinKept(next, prev, At(list, j), At(list, j + 1), At(list, k), At(list, k + 2), Upval(list[k]));
    }
  }

  // Joins of other nodes stay; distinct nodes have distinct successors.
  lemma JoinKept(next: map<Node, Node>, prev: map<Node, Node>, a: Node, b: Node, x: Node, y: Node, n: Node)
    requires Joined(next, prev, a, b) && Joined(next, prev, x, n) && Joined(next, prev, n, y) && a != x && a != n
    ensures Joined(next[x := y] - {n}, prev[y := x] - {n}, a, b)
  {
  }

  lemma {:induction false} WithoutAt(list: seq<Id>, k: nat)
    requires NoDup(list) && k < |list|
    ensures Without(list, list[k]) == RemoveAt(list, k)
    decreases k
  {
    if k == 0 {
      assert list[..0] + list[1..] == list[1..];
    } else {
      var rest := list[1..];
      assert list[0] != list[k] && rest[k - 1] == list[k];
      assert NoDup(rest) by {
        forall i, j | 0 <= i < j < |rest|
          ensures rest[i] != rest[j]
        {
          assert list[i + 1] != list[j + 1];
        }
      }
      WithoutAt(rest, k - 1);
      assert [list[0]] + RemoveAt(rest, k - 1) == RemoveAt(list, k);
    }
  }
}
