// The sweep phase: each way in which it changes the state keeps the invariant.
module Sweeping {
  import opened Objects
  import opened Marking
  import opened Propagation
  import opened Invariants

  // ---- an object survives ----

  ghost function Whitened(s: State, a: Id): State
    requires a in s.heap
  {
    Recoloured(s, a, MakeWhite(s.heap[a].marks, s.white))
  }

  // Alive objects stay alive and get nothing new to hold.
  ghost predicate NothingNew(s: State, s': State) {
    && (forall b :: Alive(s, b) ==> Alive(s', b))
    && (forall a, b {:trigger Holds(s', a, b)} :: a in s'.heap && !DeadIn(s', a) && Holds(s', a, b) ==> Alive(s, b))
    && (forall b :: IsRoot(s', b) ==> IsRoot(s, b))
  }

  lemma NothingNewLive(s: State, s': State)
    requires LiveClosed(s) && NothingNew(s, s')
    ensures LiveClosed(s')
  {
  }

  lemma WhitenedBase(s: State, a: Id, hash: string -> nat)
    requires Base(s, hash) && a in s.heap && (DeadIn(s, a) ==> s.heap[a].marks.fixed)
    ensures Base(Whitened(s, a), hash) && CurrentWhite(Whitened(s, a), a)
  {
    var s' := Whitened(s, a);
    WhitenedParts(s, s', a);
    SameBodiesSkeleton(s, s');
    ThreadsKept(s, s');
    ListsKept(s, s', hash);
  }

  lemma WhitenedParts(s: State, s': State, a: Id)
    requires AllProper(s) && RootsOk(s) && FixedOk(s) && LiveClosed(s)
    requires a in s.heap && (DeadIn(s, a) ==> s.heap[a].marks.fixed)
    requires s' == Whitened(s, a).(sweep := s'.sweep)
    ensures AllProper(s') && RootsOk(s') && FixedOk(s') && LiveClosed(s') && CurrentWhite(s', a)
  {
    assert Proper(s.heap[a]);
    assert IsRoot(s, s.main) && Alive(s, s.main);
    forall x, b | x in s'.heap && !DeadIn(s', x) && Holds(s', x, b)
      ensures Alive(s, b)
    {
      HoldsSame(s, s', x, b);
    }
    NothingNewLive(s, s');
  }

  // ---- an object is freed ----

  ghost function FreedString(s: State, i: nat, j: nat): State
    requires i < |s.strt| && j < |s.strt[i]| && s.nuse > 0
  {
    s.(heap := s.heap - {s.strt[i][j]}, strt := s.strt[i := RemoveAt(s.strt[i], j)], nuse := s.nuse - 1)
  }

  lemma FreedStringBase(s: State, i: nat, j: nat, hash: string -> nat)
    requires Base(s, hash) && i < |s.strt| && j < |s.strt[i]|
    requires s.strt[i][j] in s.heap && DeadIn(s, s.strt[i][j]) && !s.heap[s.strt[i][j]].marks.fixed
    ensures s.nuse > 0 && Base(FreedString(s, i, j), hash)
  {
    var a := s.strt[i][j];
    TotalUpdate(s.strt, i, RemoveAt(s.strt[i], j));
    var s' := FreedString(s, i, j);
    assert a in s.strt[i] && InBucket(s, hash, a, i) && Proper(s.heap[a]);
    FreedStringLists(s, i, j, hash);
    FreedStringRoots(s, i, j);
    FreedOther(s, s', a);
    FreedThreads(s, s', a);
  }

  lemma FreedStringRoots(s: State, i: nat, j: nat)
    requires RootListOk(s) && i < |s.strt| && j < |s.strt[i]| && s.nuse > 0
    requires s.strt[i][j] in s.heap && s.heap[s.strt[i][j]].kind == STRING
    ensures RootListOk(FreedString(s, i, j))
  {
  }

  lemma FreedStringLists(s: State, i: nat, j: nat, hash: string -> nat)
    requires StringsOk(s, hash) && i < |s.strt| && j < |s.strt[i]| && s.nuse > 0
    requires s.strt[i][j] in s.heap
    ensures StringsOk(FreedString(s, i, j), hash)
  {
    var a, s' := s.strt[i][j], FreedString(s, i, j);
    TotalUpdate(s.strt, i, RemoveAt(s.strt[i], j));
    RemoveAtFacts(s.strt[i], j);
    assert a in s.strt[i] && InBucket(s, hash, a, i);
    forall k, b | 0 <= k < |s'.strt| && b in s'.strt[k]
      ensures InBucket(s', hash, b, k)
    {
      assert b in s.strt[k] && InBucket(s, hash, b, k);
    }
  }

  // Freeing what is dead takes nothing from what is alive.  (The body of the thread of a freed upvalue
  // may lose it from its list.)
  ghost predicate Frees(s: State, s': State, a: Id) {
    && s' == s.(heap := s'.heap, rootgc := s'.rootgc, strt := s'.strt, nuse := s'.nuse, uvhead := s'.uvhead)
    && a in s.heap && s'.heap.Keys == s.heap.Keys - {a}
    && forall x {:trigger s'.heap[x]} :: x in s'.heap ==> Leaves(s.heap[x], s'.heap[x])
  }

  predicate Leaves(o: Obj, o': Obj) {
    o' == o || (o.body.Stack? && o'.body.Stack? && o' == o.(body := o.body.(openupval := o'.body.openupval)))
  }

  lemma FreedOther(s: State, s': State, a: Id)
    requires AllProper(s) && RootsOk(s) && FixedOk(s) && LiveClosed(s) && Frees(s, s', a)
    requires DeadIn(s, a) && !s.heap[a].marks.fixed
    ensures AllProper(s') && RootsOk(s') && FixedOk(s') && LiveClosed(s')
  {
    assert IsRoot(s, s.main) && IsRoot(s, s.running);
    forall x | x in s'.heap
      ensures Proper(s'.heap[x]) && DeadIn(s', x) == DeadIn(s, x) && s'.heap[x].marks == s.heap[x].marks &&
              s'.heap[x].kind == s.heap[x].kind
    {
      assert Leaves(s.heap[x], s'.heap[x]) && Proper(s.heap[x]);
    }
    forall x, b | x in s'.heap && !DeadIn(s', x) && Holds(s', x, b)
      ensures Alive(s, b)
    {
      FreedHolds(s, s', a, x, b);
    }
    NothingNewLive(s, s');
  }

  lemma FreedHolds(s: State, s': State, a: Id, x: Id, b: Id)
    requires Frees(s, s', a) && x in s'.heap && Holds(s', x, b)
    ensures Holds(s, x, b)
  {
    assert Leaves(s.heap[x], s'.heap[x]);
    if s.heap[x].body.Open? {
      var t := s.heap[x].body.thread;
      assert Leaves(s.heap[t], s'.heap[t]);
    }
  }

  // The freed object has nothing to do with open upvalues.
  lemma FreedThreads(s: State, s': State, a: Id)
    requires ThreadsOk(s) && Frees(s, s', a) && s'.uvhead == s.uvhead
    requires forall x :: x in s'.heap ==> s'.heap[x] == s.heap[x]
    requires !s.heap[a].body.Open? && (s.heap[a].body.Stack? ==> s.heap[a].body.openupval == [])
    ensures ThreadsOk(s')
  {
    forall t | t in s'.heap && s'.heap[t].body.Stack?
      ensures OpenListOk(s', t)
    {
      assert OpenListOk(s, t);
      var ups := s.heap[t].body.openupval;
      forall i | 0 <= i < |ups|
        ensures IsOpenAt(s', ups[i], t)
      {
        assert IsOpenAt(s, ups[i], t);
      }
    }
    forall u | u in s'.heap && s'.heap[u].body.Open?
      ensures var t := s'.heap[u].body.thread; t in s'.heap && s'.heap[t].body.Stack? && u in s'.heap[t].body.openupval
    {
      assert s.heap[u].body.Open?;
    }
  }

  ghost function FreedObject(s: State, a: Id): State {
    s.(heap := s.heap - {a}, rootgc := Without(s.rootgc, a))
  }

  lemma FreedObjectBase(s: State, a: Id, hash: string -> nat)
    requires Base(s, hash) && a in s.heap && InRootList(s.heap[a]) && DeadIn(s, a) && !s.heap[a].marks.fixed
    requires s.heap[a].body.Stack? ==> s.heap[a].body.openupval == []
    requires s.sweep < |s.rootgc|
    ensures Base(FreedObject(s, a), hash)
  {
    hide RootListOk, StringsOk;
    var s' := FreedObject(s, a);
    assert Proper(s.heap[a]);
    FreedOther(s, s', a);
    FreedThreads(s, s', a);
    FreedObjectLists(s, a, hash);
  }

  lemma FreedObjectLists(s: State, a: Id, hash: string -> nat)
    requires RootListOk(s) && StringsOk(s, hash) && a in s.heap && InRootList(s.heap[a]) &&
             Matches(s.heap[a].kind, s.heap[a].body)
    requires s.sweep < |s.rootgc|
    ensures RootListOk(FreedObject(s, a)) && StringsOk(FreedObject(s, a), hash)
  {
    var s' := FreedObject(s, a);
    WithoutFacts(s.rootgc, a);
    WithoutLength(s.rootgc, a);
    StringsSame(s, s', hash);
  }

  lemma {:induction false} WithoutLength<T>(q: seq<T>, x: T)
    ensures |Without(q, x)| == if x in q then |q| - 1 else |q|
    decreases |q|
  {
    if q != [] && q[0] != x {
      WithoutLength(q[1..], x);
    }
  }

  // ---- open upvalues ----

  // The upvalue at position j of the open list of t is taken off the lists.
  ghost function Unlinked(s: State, t: Id, j: nat): State
    requires t in s.heap && s.heap[t].body.Stack? && j < |s.heap[t].body.openupval|
  {
    var ups := s.heap[t].body.openupval;
    s.(heap := s.heap[t := s.heap[t].(body := s.heap[t].body.(openupval := RemoveAt(ups, j)))],
       uvhead := Without(s.uvhead, ups[j]))
  }

  ghost function FreedUpvalue(s: State, t: Id, j: nat): State
    requires t in s.heap && s.heap[t].body.Stack? && j < |s.heap[t].body.openupval|
  {
    var s1 := Unlinked(s, t, j);
    s1.(heap := s1.heap - {s.heap[t].body.openupval[j]})
  }

  // Without the upvalue u, wherever it goes, the lists are right.
  lemma UnlinkedThreads(s: State, s': State, t: Id, j: nat)
    requires ThreadsOk(s) && t in s.heap && s.heap[t].body.Stack? && j < |s.heap[t].body.openupval|
    requires s'.uvhead == Without(s.uvhead, s.heap[t].body.openupval[j])
    requires var u := s.heap[t].body.openupval[j];
             && u != t && t in s'.heap &&
               s'.heap[t].body == s.heap[t].body.(openupval := RemoveAt(s.heap[t].body.openupval, j))
             && (forall x :: x in s.heap && x != u ==> x in s'.heap)
             && (forall x :: x in s'.heap && x != u && x != t ==> x in s.heap && s'.heap[x].body == s.heap[x].body)
             && (u in s'.heap ==> s'.heap[u].body.Closed?)
    ensures ThreadsOk(s')
  {
    var ups := s.heap[t].body.openupval;
    var u, rest := ups[j], RemoveAt(ups, j);
    assert OpenListOk(s, t) && IsOpenAt(s, u, t);
    OpenListNoDup(s, t);
    RemoveAtFacts(ups, j);
    WithoutFacts(s.uvhead, u);
    forall r | r in s'.heap && s'.heap[r].body.Stack?
      ensures OpenListOk(s', r)
    {
      assert OpenListOk(s, r);
      if r == t {
        UnlinkedList(s, s', t, j);
      } else {
        OtherOpenList(s, s', t, u, r);
      }
    }
    forall x | x in s'.heap && s'.heap[x].body.Open?
      ensures var r := s'.heap[x].body.thread; r in s'.heap && s'.heap[r].body.Stack? && x in s'.heap[r].body.openupval
    {
      assert x != u && x != t && s.heap[x].body.Open?;
      var r := s.heap[x].body.thread;
      assert r != u;
    }
  }

  lemma OpenListNoDup(s: State, t: Id)
    requires t in s.heap && s.heap[t].body.Stack? && OpenListOk(s, t)
    ensures NoDup(s.heap[t].body.openupval)
  {
  }

  lemma UnlinkedList(s: State, s': State, t: Id, j: nat)
    requires t in s.heap && s.heap[t].body.Stack? && j < |s.heap[t].body.openupval| && OpenListOk(s, t)
    requires var u := s.heap[t].body.openupval[j];
             && u != t && t in s'.heap &&
               s'.heap[t].body == s.heap[t].body.(openupval := RemoveAt(s.heap[t].body.openupval, j))
             && (forall x :: x in s.heap && x != u ==> x in s'.heap)
             && (forall x :: x in s'.heap && x != u && x != t ==> x in s.heap && s'.heap[x].body == s.heap[x].body)
    ensures OpenListOk(s', t)
  {
    var ups := s.heap[t].body.openupval;
    var rest := RemoveAt(ups, j);
    OpenListNoDup(s, t);
    forall i | 0 <= i < |rest|
      ensures rest[i] == ups[if i < j then i else i + 1] && rest[i] != ups[j] && IsOpenAt(s', rest[i], t)
      ensures rest[i] != t && s'.heap[rest[i]].body == s.heap[rest[i]].body
    {
      assert IsOpenAt(s, ups[if i < j then i else i + 1], t);
    }
  }

  lemma OtherOpenList(s: State, s': State, t: Id, u: Id, r: Id)
    requires r in s.heap && s.heap[r].body.Stack? && OpenListOk(s, r) && r != t && r in s'.heap &&
             s'.heap[r].body == s.heap[r].body
    requires t in s.heap && s.heap[t].body.Stack? && IsOpenAt(s, u, t)
    requires forall x :: x in s.heap && x != u ==> x in s'.heap
    requires forall x :: x in s'.heap && x != u && x != t ==> x in s.heap && s'.heap[x].body == s.heap[x].body
    ensures OpenListOk(s', r)
  {
    var ups := s.heap[r].body.openupval;
    forall i | 0 <= i < |ups|
      ensures IsOpenAt(s', ups[i], r) && s'.heap[ups[i]].body == s.heap[ups[i]].body
    {
      assert IsOpenAt(s, ups[i], r);
    }
  }

  lemma FreedUpvalueBase(s: State, t: Id, j: nat, hash: string -> nat)
    requires Base(s, hash) && t in s.heap && s.heap[t].body.Stack? && j < |s.heap[t].body.openupval|
    requires s.heap[t].body.openupval[j] in s.heap && DeadIn(s, s.heap[t].body.openupval[j])
    ensures Base(FreedUpvalue(s, t, j), hash)
  {
    var u, s' := s.heap[t].body.openupval[j], FreedUpvalue(s, t, j);
    assert OpenListOk(s, t) && IsOpenAt(s, u, t) && Proper(s.heap[u]) && Proper(s.heap[t]);
    assert RootsOk(s);
    FreedOther(s, s', u);
    UnlinkedThreads(s, s', t, j);
    FreedUpvalueLists(s, t, j, hash);
  }

  lemma FreedUpvalueLists(s: State, t: Id, j: nat, hash: string -> nat)
    requires RootListOk(s) && StringsOk(s, hash) && t in s.heap && s.heap[t].body.Stack? &&
             j < |s.heap[t].body.openupval|
    requires Proper(s.heap[t]) && IsOpenAt(s, s.heap[t].body.openupval[j], t)
    ensures RootListOk(FreedUpvalue(s, t, j)) && StringsOk(FreedUpvalue(s, t, j), hash)
  {
    var u, s' := s.heap[t].body.openupval[j], FreedUpvalue(s, t, j);
    forall i, b | 0 <= i < |s'.strt| && b in s'.strt[i]
      ensures InBucket(s', hash, b, i)
    {
      assert InBucket(s, hash, b, i);
    }
  }

  lemma OpenUpvalue(s: State, t: Id, j: nat, hash: string -> nat)
    requires Base(s, hash) && t in s.heap && s.heap[t].body.Stack? && j < |s.heap[t].body.openupval|
    ensures var u := s.heap[t].body.openupval[j];
            u in s.heap && s.heap[u].body.Open? && u != t && !s.heap[u].marks.fixed && u in s.uvhead && OpenListOk(s, t)
  {
    var u := s.heap[t].body.openupval[j];
    assert OpenListOk(s, t) && IsOpenAt(s, u, t) && Proper(s.heap[u]) && Proper(s.heap[t]);
    assert Proper(s.heap[s.main]);
  }

  // ---- closing ----

  // luaF_close on one upvalue: it keeps its value itself from now on, and is listed in rootgc.
  ghost function ClosedUpvalue(s: State, t: Id): State
    requires t in s.heap && s.heap[t].body.Stack? && |s.heap[t].body.openupval| > 0
    requires var u := s.heap[t].body.openupval[0]; u in s.heap && s.heap[u].kind == UPVAL
  {
    var u := s.heap[t].body.openupval[0];
    var s1 := Unlinked(s, t, 0);
    s1.(heap := s1.heap[u := s.heap[u].(body := Closed(UpvalueValue(s, u)))],
        rootgc := [u] + s.rootgc, sweep := if s.sweep == 0 then 0 else s.sweep + 1)
  }

  lemma ClosedUpvalueShape(s: State, t: Id, hash: string -> nat)
    requires Base(s, hash) && t in s.heap && s.heap[t].body.Stack? && |s.heap[t].body.openupval| > 0
    ensures HeadUpvalue(s, t)
    ensures RootListOk(ClosedUpvalue(s, t)) && ThreadsOk(ClosedUpvalue(s, t)) && StringsOk(ClosedUpvalue(s, t), hash)
  {
    var u := s.heap[t].body.openupval[0];
    assert OpenListOk(s, t) && IsOpenAt(s, u, t) && Proper(s.heap[u]) && Proper(s.heap[t]);
    UnlinkedThreads(s, ClosedUpvalue(s, t), t, 0);
    ClosedUpvalueLists(s, t, hash);
  }

  // The topmost open upvalue of t
  ghost predicate HeadUpvalue(s: State, t: Id)
    requires t in s.heap && s.heap[t].body.Stack? && |s.heap[t].body.openupval| > 0
  {
    var u := s.heap[t].body.openupval[0];
    u in s.heap && s.heap[u].kind == UPVAL && s.heap[u].body.Open? && s.heap[u].body.thread == t && u != t
  }

  lemma ClosedUpvalueLists(s: State, t: Id, hash: string -> nat)
    requires RootListOk(s) && StringsOk(s, hash) && t in s.heap && s.heap[t].body.Stack? &&
             |s.heap[t].body.openupval| > 0
    requires HeadUpvalue(s, t) && Proper(s.heap[t])
    ensures RootListOk(ClosedUpvalue(s, t)) && StringsOk(ClosedUpvalue(s, t), hash)
  {
    hide StringsOk, RootListOk;
    StringsSame(s, ClosedUpvalue(s, t), hash);
    ClosedUpvalueRoots(s, t);
  }

  lemma ClosedUpvalueRoots(s: State, t: Id)
    requires RootListOk(s) && t in s.heap && s.heap[t].body.Stack? && |s.heap[t].body.openupval| > 0
    requires HeadUpvalue(s, t) && Proper(s.heap[t])
    ensures RootListOk(ClosedUpvalue(s, t))
  {
    var u, s' := s.heap[t].body.openupval[0], ClosedUpvalue(s, t);
    NoDupAppend([u], s.rootgc);
    assert forall x :: x in s'.rootgc <==> x == u || x in s.rootgc;
  }

  lemma ClosedUpvalueHolds(s: State, t: Id, x: Id, b: Id, hash: string -> nat)
    requires Base(s, hash) && t in s.heap && s.heap[t].body.Stack? && |s.heap[t].body.openupval| > 0
    requires HeadUpvalue(s, t)
    requires x in s.heap
    ensures Holds(ClosedUpvalue(s, t), x, b) == Holds(s, x, b)
    ensures Points(ClosedUpvalue(s, t), x, b) == Points(s, x, b)
  {
    hide StringsOk, RootListOk, LiveClosed;
    var u, s' := s.heap[t].body.openupval[0], ClosedUpvalue(s, t);
    assert Proper(s.heap[x]) && Proper(s.heap[u]);
    if x == u {
      UpvalueHolds(s, u, b);
    } else if s.heap[x].body.Open? {
      OpenSlot(s, x);
      assert s.heap[x].body.thread != u;
    }
  }

  // An upvalue that is not black may be closed whatever its colour; then it is given one.
  lemma ClosedUpvalueBase(s: State, t: Id, hash: string -> nat)
    requires Base(s, hash) && t in s.heap && s.heap[t].body.Stack? && |s.heap[t].body.openupval| > 0
    ensures HeadUpvalue(s, t) && Base(ClosedUpvalue(s, t), hash)
  {
    hide ThreadsOk, RootListOk, StringsOk;
    ClosedUpvalueShape(s, t, hash);
    var u := s.heap[t].body.openupval[0];
    var s' := ClosedUpvalue(s, t);
    forall x | x in s'.heap
      ensures Proper(s'.heap[x]) && s'.heap[x].marks == s.heap[x].marks && s'.heap[x].kind == s.heap[x].kind
    {
      assert Proper(s.heap[x]);
    }
    forall x, b | x in s'.heap && !DeadIn(s', x) && Holds(s', x, b)
      ensures Alive(s, b)
    {
      ClosedUpvalueHolds(s, t, x, b, hash);
    }
    NothingNewLive(s, s');
  }

  // ---- sweeping as a whole ----

  predicate Dying(s: State, t: Id) {
    t in s.heap && DeadIn(s, t)
  }

  // What sweeping does to an object that it leaves in the heap: colours change, dead upvalues leave the list
  // of their thread, and the upvalues of a thread that dies are closed with the value they had.
  ghost predicate SweepStep(s: State, s': State, a: Id)
    requires a in s.heap && a in s'.heap
  {
    var o, o' := s.heap[a], s'.heap[a];
    && o'.kind == o.kind
    && (o'.marks == o.marks || (o'.marks == MakeWhite(o.marks, s.white) && (DeadIn(s, a) ==> o.marks.fixed)))
    && (o'.body == o.body
        || (o.body.Stack? && o'.body.Stack? && o'.body == o.body.(openupval := o'.body.openupval)
            && forall u :: u in o'.body.openupval ==> u in o.body.openupval)
        || (o.body.Open? && o.kind == UPVAL && Dying(s, o.body.thread) && o'.body == Closed(UpvalueValue(s, a))))
  }

  // Objects are freed only if they are dead and not fixed.
  ghost predicate Sweeps(s: State, s': State) {
    && s'.white == s.white && s'.main == s.main && s'.running == s.running && s'.registry == s.registry && s'.mt == s.mt
    && s'.heap.Keys <= s.heap.Keys
    && (forall a {:trigger a in s'.heap} :: a in s.heap && a !in s'.heap ==> DeadIn(s, a) && !s.heap[a].marks.fixed)
    && (forall a {:trigger s'.heap[a]} :: a in s'.heap ==> SweepStep(s, s', a))
  }

  lemma SweepsSelf(s: State)
    ensures Sweeps(s, s)
  {
  }

  lemma SweepValue(s: State, s': State, u: Id, hash: string -> nat)
    requires Sweeps(s, s') && Base(s', hash) && u in s'.heap && s'.heap[u].body.Open? && s'.heap[u].kind == UPVAL
    ensures s.heap[u].kind == UPVAL && UpvalueValue(s', u) == UpvalueValue(s, u)
  {
    assert SweepStep(s, s', u);
    OpenSlot(s', u);
    var t := s'.heap[u].body.thread;
    assert SweepStep(s, s', t);
  }

  lemma SweepsTrans(s0: State, s1: State, s2: State, hash: string -> nat)
    requires Sweeps(s0, s1) && Sweeps(s1, s2) && Base(s1, hash)
    ensures Sweeps(s0, s2)
  {
    forall a | a in s2.heap
      ensures SweepStep(s0, s2, a)
    {
      assert SweepStep(s0, s1, a) && SweepStep(s1, s2, a);
      if s1.heap[a].body.Open? && s2.heap[a].body != s1.heap[a].body {
        assert SweepStep(s0, s1, s1.heap[a].body.thread);
        SweepValue(s0, s1, a, hash);
      }
    }
    forall a | a in s0.heap && a !in s2.heap
      ensures DeadIn(s0, a) && !s0.heap[a].marks.fixed
    {
      if a in s1.heap {
        assert SweepStep(s0, s1, a);
      }
    }
  }

  lemma WhitenedSweeps(s: State, a: Id)
    requires a in s.heap && (DeadIn(s, a) ==> s.heap[a].marks.fixed)
    ensures Sweeps(s, Whitened(s, a))
  {
  }

  lemma FreedSweeps(s: State, s': State, a: Id)
    requires Frees(s, s', a) && DeadIn(s, a) && !s.heap[a].marks.fixed
    requires forall x :: x in s'.heap && s'.heap[x] != s.heap[x] ==>
               s'.heap[x].body.Stack? && s.heap[x].body.Stack? && forall u :: u in s'.heap[x].body.openupval ==>
                 u in s.heap[x].body.openupval
    ensures Sweeps(s, s')
  {
    forall x | x in s'.heap
      ensures SweepStep(s, s', x)
    {
      assert Leaves(s.heap[x], s'.heap[x]);
    }
  }

  lemma FreedUpvalueSweeps(s: State, t: Id, j: nat)
    requires t in s.heap && s.heap[t].body.Stack? && j < |s.heap[t].body.openupval| && OpenListOk(s, t)
    requires var u := s.heap[t].body.openupval[j]; u in s.heap && DeadIn(s, u) && !s.heap[u].marks.fixed && u != t
    ensures Sweeps(s, FreedUpvalue(s, t, j))
  {
    OpenListNoDup(s, t);
    RemoveAtFacts(s.heap[t].body.openupval, j);
    FreedSweeps(s, FreedUpvalue(s, t, j), s.heap[t].body.openupval[j]);
  }

  lemma ClosedUpvalueSweeps(s: State, t: Id)
    requires t in s.heap && s.heap[t].body.Stack? && |s.heap[t].body.openupval| > 0 && OpenListOk(s, t)
    requires HeadUpvalue(s, t) && DeadIn(s, t)
    ensures Sweeps(s, ClosedUpvalue(s, t))
  {
    OpenListNoDup(s, t);
    RemoveAtFacts(s.heap[t].body.openupval, 0);
  }

  // ---- what has been swept stays swept ----

  lemma SweptStays(s: State, s': State, a: Id)
    requires Sweeps(s, s') && SweptObject(s, a)
    ensures SweptObject(s', a)
  {
    WhiteStays(s, s', a);
    assert SweepStep(s, s', a);
    if s'.heap[a].body.Stack? {
      forall u | u in s'.heap[a].body.openupval
        ensures u in s'.heap && CurrentWhite(s', u)
      {
        WhiteStays(s, s', u);
      }
    }
  }

  lemma WhiteStays(s: State, s': State, a: Id)
    requires Sweeps(s, s') && a in s.heap && CurrentWhite(s, a)
    ensures a in s'.heap && CurrentWhite(s', a)
  {
    if a in s'.heap {
      assert SweepStep(s, s', a);
    }
  }

  // ---- reachability ----

  lemma SweepPoints(s: State, s': State, a: Id, b: Id, hash: string -> nat)
    requires Sweeps(s, s') && Base(s, hash) && Base(s', hash) && a in s'.heap
    ensures a in s.heap && Points(s', a, b) == Points(s, a, b)
  {
    assert SweepStep(s, s', a) && Proper(s.heap[a]) && Proper(s'.heap[a]);
    if s.heap[a].body.Open? {
      UpvalueHolds(s, a, b);
      UpvalueHolds(s', a, b);
      if s'.heap[a].body.Open? {
        SweepValue(s, s', a, hash);
      }
    }
  }

  lemma {:induction false} ChainSwept(s: State, s': State, p: seq<Id>, hash: string -> nat)
    requires Sweeps(s, s') && Base(s, hash) && Base(s', hash) && IsChain(s, p) && Alive(s, p[0])
    ensures IsChain(s', p)
    decreases |p|
  {
    forall i | 0 <= i < |p| - 1
      ensures p[i] in s'.heap && Points(s', p[i], p[i + 1])
    {
      ChainPrefixAlive(s, p, i);
      SweepPoints(s, s', p[i], p[i + 1], hash);
    }
  }

  lemma ChainPrefixAlive(s: State, p: seq<Id>, i: nat)
    requires LiveClosed(s) && IsChain(s, p) && Alive(s, p[0]) && i < |p|
    ensures Alive(s, p[i])
  {
    var q := p[..i + 1];
    forall j | 0 <= j < |q| - 1
      ensures q[j] in s.heap && Points(s, q[j], q[j + 1])
    {
      assert q[j] == p[j] && q[j + 1] == p[j + 1];
    }
    ChainAlive(s, q);
  }

  // Sweeping leaves what can be reached where it is.
  lemma ReachableSwept(s: State, s': State, a: Id, hash: string -> nat)
    requires Sweeps(s, s') && Base(s, hash) && Base(s', hash)
    ensures Reachable(s, a) == Reachable(s', a)
  {
    if Reachable(s, a) {
      var r :| IsRoot(s, r) && ReachableFrom(s, r, a);
      var p :| IsChain(s, p) && p[0] == r && p[|p| - 1] == a;
      assert Alive(s, r);
      ChainSwept(s, s', p, hash);
      assert ReachableFrom(s', r, a) && IsRoot(s', r);
    }
    if Reachable(s', a) {
      var r :| IsRoot(s', r) && ReachableFrom(s', r, a);
      var p :| IsChain(s', p) && p[0] == r && p[|p| - 1] == a;
      forall i | 0 <= i < |p| - 1
        ensures p[i] in s.heap && Points(s, p[i], p[i + 1])
      {
        assert p[i] in s'.heap;
        SweepPoints(s, s', p[i], p[i + 1], hash);
      }
      assert IsChain(s, p);
      assert ReachableFrom(s, r, a) && IsRoot(s, r);
    }
  }

  // ---- the front of rootgc ----

  ghost predicate FrontSwept(s: State) {
    forall i :: 0 <= i < s.sweep && i < |s.rootgc| ==> SweptObject(s, s.rootgc[i])
  }

  lemma FrontStays(s: State, s': State)
    requires FrontSwept(s) && Sweeps(s, s') && s'.rootgc == s.rootgc && s'.sweep == s.sweep
    ensures FrontSwept(s')
  {
    forall i | 0 <= i < s'.sweep && i < |s'.rootgc|
      ensures SweptObject(s', s'.rootgc[i])
    {
      assert SweptObject(s, s.rootgc[i]);
      SweptStays(s, s', s.rootgc[i]);
    }
  }

  lemma FrontClosed(s: State, t: Id, hash: string -> nat)
    requires Base(s, hash) && FrontSwept(s) && t in s.heap && s.heap[t].body.Stack? && |s.heap[t].body.openupval| > 0
    requires var u := s.heap[t].body.openupval[0]; u in s.heap && CurrentWhite(s, u)
    ensures HeadUpvalue(s, t) && FrontSwept(ClosedUpvalue(s, t)) && Base(ClosedUpvalue(s, t), hash)
    ensures DeadIn(s, t) ==> Sweeps(s, ClosedUpvalue(s, t))
  {
    assert OpenListOk(s, t);
    hide Base, Sweeps, FrontSwept, OpenListOk;
    ClosedUpvalueBase(s, t, hash);
    FrontClosedStays(s, t);
    if DeadIn(s, t) {
      ClosedUpvalueSweeps(s, t);
    }
  }

  lemma FrontClosedStays(s: State, t: Id)
    requires FrontSwept(s) && t in s.heap && s.heap[t].body.Stack? && |s.heap[t].body.openupval| > 0
    requires HeadUpvalue(s, t) && OpenListOk(s, t) && CurrentWhite(s, s.heap[t].body.openupval[0])
    ensures FrontSwept(ClosedUpvalue(s, t))
  {
    hide OpenListOk, SweptObject;
    var s', u := ClosedUpvalue(s, t), s.heap[t].body.openupval[0];
    forall i | 0 <= i < s'.sweep && i < |s'.rootgc|
      ensures SweptObject(s', s'.rootgc[i])
    {
      if i > 0 {
        assert s'.rootgc[i] == s.rootgc[i - 1] && SweptObject(s, s.rootgc[i - 1]);
        ClosedStaysSwept(s, t, s.rootgc[i - 1]);
      } else {
        ClosedIsSwept(s, t);
      }
    }
  }

  lemma ClosedIsSwept(s: State, t: Id)
    requires t in s.heap && s.heap[t].body.Stack? && |s.heap[t].body.openupval| > 0
    requires HeadUpvalue(s, t) && CurrentWhite(s, s.heap[t].body.openupval[0])
    ensures SweptObject(ClosedUpvalue(s, t), s.heap[t].body.openupval[0])
  {
  }

  lemma ClosedStaysSwept(s: State, t: Id, a: Id)
    requires SweptObject(s, a) && t in s.heap && s.heap[t].body.Stack? && |s.heap[t].body.openupval| > 0
    requires HeadUpvalue(s, t) && OpenListOk(s, t)
    ensures SweptObject(ClosedUpvalue(s, t), a)
  {
    var s' := ClosedUpvalue(s, t);
    OpenListNoDup(s, t);
    RemoveAtFacts(s.heap[t].body.openupval, 0);
    if s'.heap[a].body.Stack? {
      forall u | u in s'.heap[a].body.openupval
        ensures u in s'.heap && CurrentWhite(s', u)
      {
        assert u in s.heap[a].body.openupval;
      }
    }
  }

  lemma {:induction false} WithoutPrefix<T>(q: seq<T>, x: T, n: nat)
    requires n <= |q| && x !in q[..n]
    ensures |Without(q, x)| >= n && Without(q, x)[..n] == q[..n]
    decreases |q|
  {
    if q != [] && q[0] != x && n > 0 {
      assert q[1..][..n - 1] == q[..n][1..];
      WithoutPrefix(q[1..], x, n - 1);
      assert Without(q, x)[..n] == [q[0]] + Without(q[1..], x)[..n - 1];
    }
  }

  // A dead object goes; the front of the list does not notice.
  lemma FrontFreed(s: State, a: Id, hash: string -> nat)
    requires Base(s, hash) && FrontSwept(s) && a in s.heap && InRootList(s.heap[a]) && DeadIn(s, a) &&
             !s.heap[a].marks.fixed
    requires s.heap[a].body.Stack? ==> s.heap[a].body.openupval == []
    ensures var s' := FreedObject(s, a);
            Base(s', hash) && FrontSwept(s') && Sweeps(s, s') && |s'.rootgc| == |s.rootgc| - 1 && s.sweep < |s.rootgc|
  {
    var s' := FreedObject(s, a);
    assert a in s.rootgc;
    WithoutLength(s.rootgc, a);
    forall i | 0 <= i < s.sweep
      ensures s.rootgc[i] != a
    {
      assert SweptObject(s, s.rootgc[i]) && CurrentWhite(s, s.rootgc[i]);
    }
    assert a !in s.rootgc[..s.sweep];
    WithoutPrefix(s.rootgc, a, s.sweep);
    assert s.sweep < |s.rootgc|;
    FreedObjectBase(s, a, hash);
    FreedSweeps(s, s', a);
    hide Base, Sweeps;
    forall i | 0 <= i < s'.sweep && i < |s'.rootgc|
      ensures SweptObject(s', s'.rootgc[i])
    {
      assert s'.rootgc[i] == s'.rootgc[..s.sweep][i] == s.rootgc[..s.sweep][i] == s.rootgc[i];
      SweptStays(s, s', s.rootgc[i]);
    }
  }

  // The object at the front survives.
  ghost function Passed(s: State): State
    requires s.sweep < |s.rootgc| && s.rootgc[s.sweep] in s.heap
  {
    Whitened(s, s.rootgc[s.sweep]).(sweep := s.sweep + 1)
  }

  lemma PassedBase(s: State, hash: string -> nat)
    requires Base(s, hash) && s.sweep < |s.rootgc|
    requires var a := s.rootgc[s.sweep]; a in s.heap && (DeadIn(s, a) ==> s.heap[a].marks.fixed)
    ensures Base(Passed(s), hash)
  {
    var s' := Passed(s);
    WhitenedParts(s, s', s.rootgc[s.sweep]);
    SameBodiesSkeleton(s, s');
    ThreadsKept(s, s');
    ListsKept(s, s', hash);
  }

  lemma PassedSweeps(s: State)
    requires s.sweep < |s.rootgc|
    requires var a := s.rootgc[s.sweep]; a in s.heap && (DeadIn(s, a) ==> s.heap[a].marks.fixed)
    ensures Sweeps(s, Passed(s)) && Sweeps(s, Whitened(s, s.rootgc[s.sweep]))
  {
    WhitenedSweeps(s, s.rootgc[s.sweep]);
    SweepsMoved(s, Whitened(s, s.rootgc[s.sweep]), s.sweep + 1);
  }

  lemma FrontGrows(s: State)
    requires AllProper(s) && FrontSwept(s) && s.sweep < |s.rootgc|
    requires var a := s.rootgc[s.sweep];
             && a in s.heap && (DeadIn(s, a) ==> s.heap[a].marks.fixed)
             && (s.heap[a].body.Stack? ==> forall u :: u in s.heap[a].body.openupval ==>
               u in s.heap && CurrentWhite(s, u))
    ensures FrontSwept(Passed(s))
  {
    var a := s.rootgc[s.sweep];
    var w := Whitened(s, a);
    assert Proper(s.heap[a]);
    PassedSweeps(s);
    FrontStays(s, w);
    FrontWhite(s, w, a);
    FrontExtended(w);
  }

  lemma FrontWhite(s: State, w: State, a: Id)
    requires a in s.heap && w == Whitened(s, a) && Sweeps(s, w) && CurrentWhite(w, a)
    requires s.heap[a].body.Stack? ==> forall u :: u in s.heap[a].body.openupval ==> u in s.heap && CurrentWhite(s, u)
    ensures SweptObject(w, a)
  {
    forall u | w.heap[a].body.Stack? && u in w.heap[a].body.openupval
      ensures u in w.heap && CurrentWhite(w, u)
    {
      WhiteStays(s, w, u);
    }
  }

  lemma FrontExtended(w: State)
    requires FrontSwept(w) && w.sweep < |w.rootgc| && SweptObject(w, w.rootgc[w.sweep])
    ensures FrontSwept(w.(sweep := w.sweep + 1))
  {
    var s' := w.(sweep := w.sweep + 1);
    forall i | 0 <= i < s'.sweep && i < |s'.rootgc|
      ensures SweptObject(s', s'.rootgc[i])
    {
      assert SweptObject(w, w.rootgc[i]);
    }
  }

  lemma SweepsMoved(s: State, w: State, n: nat)
    requires Sweeps(s, w)
    ensures Sweeps(s, w.(sweep := n))
  {
    var s' := w.(sweep := n);
    forall a | a in s'.heap
      ensures SweepStep(s, s', a)
    {
      assert SweepStep(s, w, a);
    }
  }

  // ---- a thread while its upvalues are swept ----

  ghost predicate SameThread(s: State, s': State, t: Id) {
    && t in s.heap && t in s'.heap && s.heap[t].body.Stack? && s'.heap[t].body.Stack?
    && s'.heap[t].kind == s.heap[t].kind && s'.heap[t].marks == s.heap[t].marks
  }

  ghost predicate WhiteUpvals(s: State, t: Id, n: nat)
    requires t in s.heap && s.heap[t].body.Stack?
  {
    forall i :: 0 <= i < n && i < |s.heap[t].body.openupval| ==>
      s.heap[t].body.openupval[i] in s.heap && CurrentWhite(s, s.heap[t].body.openupval[i])
  }

  lemma WhiteUpvalsStay(s: State, s': State, t: Id, j: nat, next: nat)
    requires Sweeps(s, s') && SameThread(s, s', t) && j < |s.heap[t].body.openupval| && WhiteUpvals(s, t, j)
    requires
      || (next == j + 1 && s'.heap[t].body == s.heap[t].body && s'.heap[t].body.openupval[j] in s'.heap
          && CurrentWhite(s', s'.heap[t].body.openupval[j]))
      || (next == j && s'.heap[t].body.openupval == RemoveAt(s.heap[t].body.openupval, j))
    ensures WhiteUpvals(s', t, next)
  {
    forall i | 0 <= i < j && i < |s'.heap[t].body.openupval|
      ensures s'.heap[t].body.openupval[i] in s'.heap && CurrentWhite(s', s'.heap[t].body.openupval[i])
    {
      assert s'.heap[t].body.openupval[i] == s.heap[t].body.openupval[i];
      WhiteStays(s, s', s.heap[t].body.openupval[i]);
    }
  }

  lemma ClosedRest(s: State, s': State, t: Id)
    requires t in s.heap && s.heap[t].body.Stack? && |s.heap[t].body.openupval| > 0 && HeadUpvalue(s, t)
    requires s' == ClosedUpvalue(s, t) && Sweeps(s, s')
    requires forall u :: u in s.heap[t].body.openupval ==> u in s.heap && CurrentWhite(s, u)
    ensures SameThread(s, s', t) && |s'.heap[t].body.openupval| < |s.heap[t].body.openupval|
    ensures forall u :: u in s'.heap[t].body.openupval ==> u in s'.heap && CurrentWhite(s', u)
  {
    forall u | u in s'.heap[t].body.openupval
      ensures u in s'.heap && CurrentWhite(s', u)
    {
      assert u in s.heap[t].body.openupval;
      WhiteStays(s, s', u);
    }
  }

  // ---- buckets ----

  // One string of bucket i: freed, or white again and passed.
  ghost predicate StringStep(s: State, s': State, i: nat, j: nat, next: nat)
    requires i < |s.strt| && j < |s.strt[i]|
  {
    && |s'.strt| == |s.strt| && s'.rootgc == s.rootgc && s'.sweep == s.sweep && s'.sweepstr == s.sweepstr &&
      s'.phase == s.phase
    && s'.uvhead == s.uvhead
    && (forall k :: 0 <= k < |s.strt| && k != i ==> s'.strt[k] == s.strt[k])
    && ((next == j + 1 && s'.strt[i] == s.strt[i] && s.strt[i][j] in s'.heap && CurrentWhite(s', s.strt[i][j]))
        || (next == j && s'.strt[i] == RemoveAt(s.strt[i], j)))
  }

  lemma StringHere(s: State, i: nat, j: nat, hash: string -> nat)
    requires Base(s, hash) && i < |s.strt| && j < |s.strt[i]|
    ensures s.strt[i][j] in s.heap
  {
    var a := s.strt[i][j];
    assert a in s.strt[i] && InBucket(s, hash, a, i);
  }

  lemma StringPassed(s: State, i: nat, j: nat, hash: string -> nat)
    requires Base(s, hash) && i < |s.strt| && j < |s.strt[i]| && s.strt[i][j] in s.heap
    requires DeadIn(s, s.strt[i][j]) ==> s.heap[s.strt[i][j]].marks.fixed
    ensures var s' := Whitened(s, s.strt[i][j]); Base(s', hash) && Sweeps(s, s') && StringStep(s, s', i, j, j + 1)
  {
    hide Base, Sweeps;
    WhitenedBase(s, s.strt[i][j], hash);
    WhitenedSweeps(s, s.strt[i][j]);
  }

  lemma StringFreed(s: State, i: nat, j: nat, hash: string -> nat)
    requires Base(s, hash) && i < |s.strt| && j < |s.strt[i]| && s.strt[i][j] in s.heap
    requires DeadIn(s, s.strt[i][j]) && !s.heap[s.strt[i][j]].marks.fixed
    ensures s.nuse > 0
    ensures var s' := FreedString(s, i, j); Base(s', hash) && Sweeps(s, s') && StringStep(s, s', i, j, j)
  {
    hide Base, Sweeps;
    FreedStringBase(s, i, j, hash);
    FreedSweeps(s, FreedString(s, i, j), s.strt[i][j]);
  }

  ghost predicate BucketWhite(s: State, i: nat, n: nat) {
    forall k :: 0 <= k < n && i < |s.strt| && k < |s.strt[i]| ==>
      s.strt[i][k] in s.heap && CurrentWhite(s, s.strt[i][k])
  }

  lemma BucketWhiteStays(s: State, s': State, i: nat, j: nat, next: nat)
    requires i < |s.strt| && j < |s.strt[i]| && StringStep(s, s', i, j, next) && Sweeps(s, s') && BucketWhite(s, i, j)
    ensures BucketWhite(s', i, next)
  {
    forall k | 0 <= k < j && k < |s'.strt[i]|
      ensures s'.strt[i][k] in s'.heap && CurrentWhite(s', s'.strt[i][k])
    {
      assert s'.strt[i][k] == s.strt[i][k];
      WhiteStays(s, s', s.strt[i][k]);
    }
  }

  lemma BucketsStay(s: State, s': State, i: nat)
    requires Swept(s, i) && Sweeps(s, s') && |s'.strt| == |s.strt| && s'.rootgc == s.rootgc && s'.sweep == s.sweep
    requires forall k :: 0 <= k < |s.strt| && k != i ==> s'.strt[k] == s.strt[k]
    ensures Swept(s', i)
  {
    forall k, a | 0 <= k < |s'.strt| && k < i && a in s'.strt[k]
      ensures a in s'.heap && CurrentWhite(s', a)
    {
      WhiteStays(s, s', a);
    }
    FrontStays(s, s');
  }

  lemma BucketDone(s: State, i: nat)
    requires i < |s.strt| && Swept(s, i) && BucketWhite(s, i, |s.strt[i]|)
    ensures Swept(s, i + 1)
  {
    forall k, a | 0 <= k < |s.strt| && k < i + 1 && a in s.strt[k]
      ensures a in s.heap && CurrentWhite(s, a)
    {
      if k == i {
        var m :| 0 <= m < |s.strt[i]| && s.strt[i][m] == a;
      }
    }
  }

  // ---- the end of the sweep ----

  lemma AllSwept(s: State, hash: string -> nat)
    requires Base(s, hash) && Swept(s, |s.strt|) && s.sweep == |s.rootgc|
    ensures AllWhite(s)
  {
    forall a | a in s.heap
      ensures CurrentWhite(s, a)
    {
      assert Proper(s.heap[a]);
      if s.heap[a].body.Text? {
        assert a in s.strt[hash(s.heap[a].body.content) % |s.strt|];
      } else if s.heap[a].body.Open? {
        OpenSlot(s, a);
        var t := s.heap[a].body.thread;
        ListedSwept(s, t);
      } else {
        ListedSwept(s, a);
      }
    }
  }

  lemma ListedSwept(s: State, a: Id)
    requires RootListOk(s) && FrontSwept(s) && s.sweep == |s.rootgc| && a in s.heap && InRootList(s.heap[a])
    ensures SweptObject(s, a)
  {
    var i :| 0 <= i < |s.rootgc| && s.rootgc[i] == a;
  }

  // Only the position of the collector changes.
  lemma Repositioned(s: State, s': State, hash: string -> nat)
    requires Base(s, hash) && s' == s.(phase := s'.phase, sweepstr := s'.sweepstr, sweep := s'.sweep)
    requires s'.sweep <= |s.rootgc|
    ensures Base(s', hash) && Sweeps(s, s')
  {
    hide ThreadsOk, LiveClosed, AllProper;
    SameHeapStrings(s, s', hash);
    SameHeapBase(s, s', hash);
  }

  lemma SweptMoved(s: State, s': State, buckets: nat)
    requires Swept(s, buckets) && s' == s.(phase := s'.phase, sweepstr := s'.sweepstr)
    ensures Swept(s', buckets)
  {
    forall i | 0 <= i < s'.sweep && i < |s'.rootgc|
      ensures SweptObject(s', s'.rootgc[i])
    {
      assert SweptObject(s, s.rootgc[i]);
    }
  }

  lemma BucketsSwept(s: State, s': State)
    requires Swept(s, |s.strt|) && Sweeps(s, s') && s'.strt == s.strt && FrontSwept(s')
    ensures Swept(s', |s'.strt|)
  {
    forall k, a | 0 <= k < |s'.strt| && a in s'.strt[k]
      ensures a in s'.heap && CurrentWhite(s', a)
    {
      WhiteStays(s, s', a);
    }
  }

  // The table may have been resized, and the phase changes.
  lemma EndOfSweep(s: State, s1: State, s3: State, hash: string -> nat)
    requires Sweeps(s, s1) && Base(s1, hash) && AllWhite(s1) && s3 == s1.(strt := s3.strt, phase := GCSfinalize)
    ensures Sweeps(s, s3) && PhaseOk(s3)
  {
    hide Base;
    assert Sweeps(s1, s3);
    SweepsTrans(s, s1, s3, hash);
    forall a | a in s3.heap
      ensures CurrentWhite(s3, a)
    {
      assert CurrentWhite(s1, a);
    }
  }
}
