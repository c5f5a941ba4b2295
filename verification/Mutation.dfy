// What the running program does between the steps of the collector.
module Mutation {
  import opened Objects
  import opened Marking
  import opened Propagation
  import opened Invariants
  import opened Sweeping

  // ---- steps that leave every colour as it is ----

  // Objects keep their marks, new ones are white, and while marks are propagated black objects get nothing
  // white to hold.
  ghost predicate ColoursKept(s: State, s': State) {
    && s'.white == s.white && s'.phase == s.phase && s'.gray == s.gray && s'.grayagain == s.grayagain
    && s'.main == s.main && s'.registry == s.registry && s'.sweepstr == s.sweepstr
    && s.heap.Keys <= s'.heap.Keys
    && (forall x {:trigger s'.heap[x]} :: x in s.heap ==>
          s'.heap[x].marks == s.heap[x].marks && s'.heap[x].kind == s.heap[x].kind
          && s'.heap[x].body.Closed? == s.heap[x].body.Closed? && s'.heap[x].body.Stack? == s.heap[x].body.Stack?)
    && (forall x :: x in s'.heap && x !in s.heap ==> CurrentWhite(s', x))
    && (s.phase == GCSpropagate ==>
          forall x, b {:trigger Holds(s', x, b)} ::
            x in s.heap && IsBlack(s.heap[x].marks) && Holds(s', x, b) ==> Holds(s, x, b) || NonWhite(s, b))
  }

  // What is in front of the sweep was there before, or is new.
  ghost predicate FrontKept(s: State, s': State) {
    && |s'.strt| == |s.strt|
    && (forall i, a {:trigger a in s'.strt[i]} :: 0 <= i < |s'.strt| && a in s'.strt[i] ==>
      a in s.strt[i] || (a in s'.heap && a !in s.heap))
    && (s.sweep == 0 ==> s'.sweep == 0)
    && (forall i {:trigger s'.rootgc[i]} :: 0 <= i < s'.sweep && i < |s'.rootgc| ==>
          InFront(s, s'.rootgc[i]) || (s'.rootgc[i] in s'.heap && s'.rootgc[i] !in s.heap))
    && (forall t {:trigger s'.heap[t]} :: t in s'.heap && s'.heap[t].body.Stack? ==>
          forall u :: u in s'.heap[t].body.openupval ==>
            (t in s.heap && s.heap[t].body.Stack? && u in s.heap[t].body.openupval) || (u in s'.heap && u !in s.heap))
  }

  ghost predicate InFront(s: State, a: Id) {
    exists k :: 0 <= k < s.sweep && k < |s.rootgc| && s.rootgc[k] == a
  }

  lemma WhiteKept(s: State, s': State, a: Id)
    requires ColoursKept(s, s') && a in s'.heap && (a in s.heap ==> CurrentWhite(s, a))
    ensures CurrentWhite(s', a)
  {
    if a in s.heap {
      assert s'.heap[a].marks == s.heap[a].marks;
    }
  }

  lemma SweptKept(s: State, s': State, buckets: nat)
    requires ColoursKept(s, s') && FrontKept(s, s') && Swept(s, buckets)
    ensures Swept(s', buckets)
  {
    forall i, a | 0 <= i < |s'.strt| && i < buckets && a in s'.strt[i]
      ensures a in s'.heap && CurrentWhite(s', a)
    {
      WhiteKept(s, s', a);
    }
    forall i | 0 <= i < s'.sweep && i < |s'.rootgc|
      ensures SweptObject(s', s'.rootgc[i])
    {
      var a := s'.rootgc[i];
      if InFront(s, a) {
        var k :| 0 <= k < s.sweep && k < |s.rootgc| && s.rootgc[k] == a;
        assert SweptObject(s, s.rootgc[k]);
      }
      SweptObjectKept(s, s', a);
    }
  }

  lemma SweptObjectKept(s: State, s': State, a: Id)
    requires ColoursKept(s, s') && FrontKept(s, s') && a in s'.heap && (a in s.heap ==> SweptObject(s, a))
    ensures SweptObject(s', a)
  {
    WhiteKept(s, s', a);
    forall u | s'.heap[a].body.Stack? && u in s'.heap[a].body.openupval
      ensures u in s'.heap && CurrentWhite(s', u)
    {
      if u in s.heap {
        assert s.heap[a].body.Stack? && u in s.heap[a].body.openupval;
      }
      WhiteKept(s, s', u);
    }
  }

  lemma GrayKept(s: State, s': State)
    requires ColoursKept(s, s') && GrayOk(s)
    ensures GrayOk(s')
  {
    forall x | x in s'.heap && IsGray(s'.heap[x].marks)
      ensures x in s.heap && IsGray(s.heap[x].marks) && s'.heap[x].kind == s.heap[x].kind &&
              s'.heap[x].body.Closed? == s.heap[x].body.Closed?
    {
    }
    forall a | InLists(s', a)
      ensures a in s'.heap && IsGray(s'.heap[a].marks) && Listable(s'.heap[a].kind)
    {
      assert InLists(s, a) && a in s.heap && s'.heap[a].marks == s.heap[a].marks;
    }
    assert forall x :: x in s'.heap && IsGray(s'.heap[x].marks) && Listable(s'.heap[x].kind) ==> InLists(s, x);
  }

  lemma PhaseKept(s: State, s': State)
    requires ColoursKept(s, s') && FrontKept(s, s') && PhaseOk(s)
    ensures PhaseOk(s')
  {
    match s.phase
    case GCSpause => AllWhiteKept(s, s');
    case GCSpropagate => PropagateKept(s, s');
    case GCSsweepstring => SweptKept(s, s', s.sweepstr);
    case GCSsweep => SweptKept(s, s', |s.strt|);
    case GCSfinalize => AllWhiteKept(s, s');
  }

  lemma AllWhiteKept(s: State, s': State)
    requires ColoursKept(s, s') && AllWhite(s)
    ensures AllWhite(s')
  {
    forall a | a in s'.heap
      ensures CurrentWhite(s', a)
    {
      WhiteKept(s, s', a);
    }
  }

  lemma PropagateKept(s: State, s': State)
    requires s.phase == GCSpropagate && ColoursKept(s, s') && NoneDead(s) && GrayOk(s) && BlackOk(s, {}) &&
             RootsMarked(s)
    ensures NoneDead(s') && GrayOk(s') && BlackOk(s', {}) && RootsMarked(s')
  {
    GrayKept(s, s');
    forall a | a in s'.heap
      ensures !DeadIn(s', a)
    {
      if a in s.heap {
        assert s'.heap[a].marks == s.heap[a].marks && !DeadIn(s, a);
      } else {
        assert CurrentWhite(s', a);
      }
    }
    forall a, b | a in s'.heap && IsBlack(s'.heap[a].marks) && Holds(s', a, b)
      ensures NonWhite(s', b)
    {
      if a in s.heap {
        assert s'.heap[a].marks == s.heap[a].marks;
        assert NonWhite(s, b) && s'.heap[b].marks == s.heap[b].marks;
      }
    }
  }

  // ---- stores ----

  predicate AliveValue(s: State, v: Value) {
    v.Ref? ==> v.id in s.heap && !DeadIn(s, v.id)
  }

  ghost function BodySet(s: State, o: Id, body: Body): State
    requires o in s.heap
  {
    s.(heap := s.heap[o := s.heap[o].(body := body)])
  }

  lemma BodySetShape(s: State, o: Id, body: Body, hash: string -> nat)
    requires ThreadsOk(s) && RootListOk(s) && StringsOk(s, hash) && o in s.heap &&
             SameFrame(s.heap[o], s.heap[o].(body := body))
    ensures var s' := BodySet(s, o, body); SameSkeleton(s, s') && ThreadsOk(s') && RootListOk(s') && StringsOk(s', hash)
  {
    var s' := BodySet(s, o, body);
    forall a | a in s.heap
      ensures SameFrame(s.heap[a], s'.heap[a])
    {
    }
    ThreadsKept(s, s');
    ListsKept(s, s', hash);
  }

  lemma BodySetLive(s: State, o: Id, body: Body)
    requires AllProper(s) && RootsOk(s) && FixedOk(s) && LiveClosed(s) && o in s.heap && Matches(s.heap[o].kind, body)
    requires s.heap[o].body.Open? == body.Open?
    requires forall x, b {:trigger Holds(BodySet(s, o, body), x, b)} ::
               x in s.heap && !DeadIn(s, x) && Holds(BodySet(s, o, body), x, b) ==> Alive(s, b)
    ensures var s' := BodySet(s, o, body); AllProper(s') && RootsOk(s') && FixedOk(s') && LiveClosed(s')
  {
    assert Proper(s.heap[o]);
    NothingNewLive(s, BodySet(s, o, body));
  }

  // One object gets a new body of the same frame, and nothing that is not alive becomes reachable by it.
  lemma BodySetBase(s: State, o: Id, body: Body, hash: string -> nat)
    requires Base(s, hash) && o in s.heap && SameFrame(s.heap[o], s.heap[o].(body := body)) &&
             Matches(s.heap[o].kind, body)
    requires forall x, b {:trigger Holds(BodySet(s, o, body), x, b)} ::
               x in s.heap && !DeadIn(s, x) && Holds(BodySet(s, o, body), x, b) ==> Alive(s, b)
    ensures Base(BodySet(s, o, body), hash)
  {
    BodySetShape(s, o, body, hash);
    BodySetLive(s, o, body);
  }

  lemma BodySetPhase(s: State, o: Id, body: Body)
    requires RootListOk(s) && PhaseOk(s) && o in s.heap && SameFrame(s.heap[o], s.heap[o].(body := body))
    requires SameSkeleton(s, BodySet(s, o, body))
    requires s.phase == GCSpropagate ==>
      forall x, b {:trigger Holds(BodySet(s, o, body), x, b)} ::
        x in s.heap && IsBlack(s.heap[x].marks) && Holds(BodySet(s, o, body), x, b) ==> Holds(s, x, b) || NonWhite(s, b)
    ensures PhaseOk(BodySet(s, o, body))
  {
    var s' := BodySet(s, o, body);
    FrontSame(s, s');
    PhaseKept(s, s');
  }

  // The lists, and the open upvalues of each thread, are the same.
  lemma FrontSame(s: State, s': State)
    requires RootListOk(s) && s'.strt == s.strt && s'.rootgc == s.rootgc && s'.sweep == s.sweep && SameSkeleton(s, s')
    ensures FrontKept(s, s')
  {
    forall t | t in s'.heap && s'.heap[t].body.Stack?
      ensures s.heap[t].body.Stack? && s'.heap[t].body.openupval == s.heap[t].body.openupval
    {
      assert SameFrame(s.heap[t], s'.heap[t]);
    }
    forall i | 0 <= i < s'.sweep && i < |s'.rootgc|
      ensures InFront(s, s'.rootgc[i])
    {
      assert s.rootgc[i] == s'.rootgc[i];
    }
  }

  // ---- stack slots ----

  function WithSlot(b: Body, i: nat, v: Value): Body
    requires b.Stack? && i < |b.slots|
  {
    b.(slots := b.slots[i := v])
  }

  lemma SlotSetInv(s: State, t: Id, i: nat, v: Value, hash: string -> nat)
    requires Inv(s, hash) && t in s.heap && s.heap[t].body.Stack? && i < |s.heap[t].body.slots| && AliveValue(s, v)
    ensures Inv(BodySet(s, t, WithSlot(s.heap[t].body, i, v)), hash)
  {
    var body := WithSlot(s.heap[t].body, i, v);
    var s' := BodySet(s, t, body);
    assert Proper(s.heap[t]);
    forall x, b | x in s.heap && Holds(s', x, b)
      ensures v == Ref(b) || Holds(s, x, b)
    {
      SlotHolds(s, t, i, v, x, b);
    }
    forall x, b | x in s.heap && IsBlack(s.heap[x].marks) && Holds(s', x, b)
      ensures Holds(s, x, b)
    {
      assert Proper(s.heap[x]);
    }
    BodySetBase(s, t, body, hash);
    BodySetShape(s, t, body, hash);
    BodySetPhase(s, t, body);
  }

  lemma SlotHolds(s: State, t: Id, i: nat, v: Value, x: Id, b: Id)
    requires t in s.heap && s.heap[t].body.Stack? && i < |s.heap[t].body.slots| && x in s.heap
    requires Holds(BodySet(s, t, WithSlot(s.heap[t].body, i, v)), x, b)
    ensures v == Ref(b) || Holds(s, x, b)
  {
    if x == t && v != Ref(b) && s.heap[t].body.globals != Ref(b) {
      var slots := s.heap[t].body.slots;
      var k :| 0 <= k < |slots| && slots[i := v][k] == Ref(b);
      assert slots[k] == Ref(b);
    }
  }

  // ---- the top of a stack ----

  // The slots from top to n are nil, whatever was there.
  function Refilled(slots: seq<Value>, top: nat, n: nat): (r: seq<Value>)
    requires top <= n && top <= |slots|
    ensures |r| == (if n <= |slots| then |slots| else n) && r[..top] == slots[..top]
    ensures forall i :: top <= i < n ==> r[i] == Nil
  {
    slots[..top] + seq(n - top, _ => Nil) + (if n <= |slots| then slots[n..] else [])
  }

  lemma RefilledStep(slots: seq<Value>, top: nat, n: nat)
    requires top <= n && top <= |slots|
    ensures var r := Refilled(slots, top, n);
            Refilled(slots, top, n + 1) == if n < |r| then r[n := Nil] else r + [Nil]
  {
    var r, r' := Refilled(slots, top, n), Refilled(slots, top, n + 1);
    forall i | 0 <= i < |r'|
      ensures r'[i] == (if n < |r| then r[n := Nil] else r + [Nil])[i]
    {
    }
  }

  function WithTop(b: Body, n: nat): Body
    requires b.Stack? && b.top <= |b.slots|
  {
    b.(slots := if n <= b.top then b.slots else Refilled(b.slots, b.top, n), top := n)
  }

  // No open upvalue is left behind above the top.
  predicate Below(s: State, t: Id, n: nat)
    requires t in s.heap && s.heap[t].body.Stack?
  {
    forall u :: u in s.heap[t].body.openupval ==> u in s.heap && s.heap[u].body.Open? && s.heap[u].body.slot < n
  }

  lemma TopSetInv(s: State, t: Id, n: nat, hash: string -> nat)
    requires Inv(s, hash) && t in s.heap && s.heap[t].body.Stack? && Below(s, t, n) &&
             s.heap[t].body.top <= |s.heap[t].body.slots|
    ensures Inv(BodySet(s, t, WithTop(s.heap[t].body, n)), hash)
  {
    hide ThreadsOk, RootListOk, StringsOk;
    var body := WithTop(s.heap[t].body, n);
    var s' := BodySet(s, t, body);
    assert Proper(s.heap[t]);
    forall x, b | x in s.heap && Holds(s', x, b)
      ensures Holds(s, x, b)
    {
      TopHolds(s, t, n, x, b);
    }
    TopSetThreads(s, t, n);
    TopSetLists(s, t, n, hash);
    BodySetLive(s, t, body);
    PhaseKept(s, s');
  }

  lemma TopHolds(s: State, t: Id, n: nat, x: Id, b: Id)
    requires ThreadsOk(s) && AllProper(s) && t in s.heap && s.heap[t].body.Stack? && x in s.heap
    requires s.heap[t].body.top <= |s.heap[t].body.slots| && Holds(BodySet(s, t, WithTop(s.heap[t].body, n)), x, b)
    ensures Holds(s, x, b)
  {
    if x == t && s.heap[t].body.globals != Ref(b) {
      var slots := WithTop(s.heap[t].body, n).slots;
      var k :| 0 <= k < |slots| && slots[k] == Ref(b);
      assert k < |s.heap[t].body.slots| && s.heap[t].body.slots[k] == Ref(b);
    } else if s.heap[x].body.Open? {
      OpenSlot(s, x);
    }
  }

  lemma TopSetThreads(s: State, t: Id, n: nat)
    requires ThreadsOk(s) && t in s.heap && s.heap[t].body.Stack? && Below(s, t, n) &&
             s.heap[t].body.top <= |s.heap[t].body.slots|
    ensures ThreadsOk(BodySet(s, t, WithTop(s.heap[t].body, n)))
  {
    var s' := BodySet(s, t, WithTop(s.heap[t].body, n));
    forall r | r in s'.heap && s'.heap[r].body.Stack?
      ensures OpenListOk(s', r)
    {
      assert OpenListOk(s, r);
      var ups := s.heap[r].body.openupval;
      forall i | 0 <= i < |ups|
        ensures IsOpenAt(s', ups[i], r)
      {
        assert IsOpenAt(s, ups[i], r) && ups[i] in ups;
      }
    }
  }

  lemma TopSetLists(s: State, t: Id, n: nat, hash: string -> nat)
    requires RootListOk(s) && StringsOk(s, hash) && t in s.heap && s.heap[t].body.Stack?
    requires s.heap[t].body.top <= |s.heap[t].body.slots|
    ensures var s' := BodySet(s, t, WithTop(s.heap[t].body, n));
            RootListOk(s') && StringsOk(s', hash) && FrontKept(s, s')
  {
    var s' := BodySet(s, t, WithTop(s.heap[t].body, n));
    forall i, a | 0 <= i < |s'.strt| && a in s'.strt[i]
      ensures InBucket(s', hash, a, i)
    {
      assert InBucket(s, hash, a, i);
    }
    forall i | 0 <= i < s'.sweep && i < |s'.rootgc|
      ensures InFront(s, s'.rootgc[i])
    {
      assert s.rootgc[i] == s'.rootgc[i];
    }
  }

  // ---- the global table of a thread ----

  lemma GlobalsSetInv(s: State, t: Id, v: Value, hash: string -> nat)
    requires Inv(s, hash) && t in s.heap && s.heap[t].body.Stack? && AliveValue(s, v)
    ensures Inv(BodySet(s, t, s.heap[t].body.(globals := v)), hash)
  {
    var body := s.heap[t].body.(globals := v);
    var s' := BodySet(s, t, body);
    assert Proper(s.heap[t]);
    forall x, b | x in s.heap && Holds(s', x, b)
      ensures v == Ref(b) || Holds(s, x, b)
    {
    }
    forall x, b | x in s.heap && IsBlack(s.heap[x].marks) && Holds(s', x, b)
      ensures Holds(s, x, b)
    {
      assert Proper(s.heap[x]);
    }
    BodySetBase(s, t, body, hash);
    BodySetShape(s, t, body, hash);
    BodySetPhase(s, t, body);
  }

  // ---- roots ----

  ghost predicate RootsMoved(s: State, s': State) {
    s' == s.(running := s'.running, mt := s'.mt)
  }

  lemma RootsMovedInv(s: State, s': State, hash: string -> nat)
    requires Inv(s, hash) && RootsMoved(s, s')
    requires s'.running in s.heap && s.heap[s'.running].kind == THREAD && !DeadIn(s, s'.running)
    requires forall v :: v in s'.mt ==> AliveValue(s, v)
    ensures Inv(s', hash)
  {
    SameBodiesSkeleton(s, s');
    ThreadsKept(s, s');
    ListsKept(s, s', hash);
    forall x, b | x in s'.heap && Holds(s', x, b)
      ensures Holds(s, x, b)
    {
      HoldsSame(s, s', x, b);
    }
    forall b | IsRoot(s', b)
      ensures Alive(s', b)
    {
      if Ref(b) in s'.mt {
        assert AliveValue(s, Ref(b));
      } else if b != s'.running {
        assert IsRoot(s, b) && Alive(s, b);
      }
    }
    FrontSame(s, s');
    PhaseKept(s, s');
  }

  // ---- fields and closed upvalues, with their barriers ----

  // body has nothing that o did not hold before, but v.
  ghost predicate IsStore(s: State, o: Id, body: Body, v: Value)
    requires o in s.heap
  {
    && SameFrame(s.heap[o], s.heap[o].(body := body)) && (body.Fields? || body.Closed?)
    && forall b :: Holds(BodySet(s, o, body), o, b) ==> v == Ref(b) || Holds(s, o, b)
  }

  lemma StoreHolds(s: State, o: Id, body: Body, v: Value, x: Id, b: Id)
    requires ThreadsOk(s) && AllProper(s) && o in s.heap && IsStore(s, o, body, v) && x in s.heap &&
             Holds(BodySet(s, o, body), x, b)
    ensures (x == o && v == Ref(b)) || Holds(s, x, b)
  {
    if x != o && s.heap[x].body.Open? {
      OpenSlot(s, x);
    }
  }

  lemma StoreBase(s: State, o: Id, body: Body, v: Value, hash: string -> nat)
    requires Base(s, hash) && o in s.heap && IsStore(s, o, body, v) && AliveValue(s, v)
    ensures Base(BodySet(s, o, body), hash) && SameSkeleton(s, BodySet(s, o, body))
  {
    forall x, b | x in s.heap && !DeadIn(s, x) && Holds(BodySet(s, o, body), x, b)
      ensures Alive(s, b)
    {
      StoreHolds(s, o, body, v, x, b);
    }
    assert Proper(s.heap[o]);
    BodySetShape(s, o, body, hash);
    BodySetLive(s, o, body);
  }

  // Storing needs no barrier if no mark is being propagated, the object is not black, or the value is
  // not white.
  lemma StoreInv(s: State, o: Id, body: Body, v: Value, hash: string -> nat)
    requires Inv(s, hash) && o in s.heap && IsStore(s, o, body, v) && AliveValue(s, v)
    requires s.phase == GCSpropagate && IsBlack(s.heap[o].marks) && v.Ref? ==> NonWhite(s, v.id)
    ensures Inv(BodySet(s, o, body), hash)
  {
    StoreBase(s, o, body, v, hash);
    forall x, b | x in s.heap && IsBlack(s.heap[x].marks) && Holds(BodySet(s, o, body), x, b) && s.phase == GCSpropagate
      ensures Holds(s, x, b) || NonWhite(s, b)
    {
      StoreHolds(s, o, body, v, x, b);
    }
    BodySetPhase(s, o, body);
  }

  // luaC_barrierback
  ghost function BackGray(s: State, t: Id): State
    requires t in s.heap
  {
    Recoloured(s, t, Black2Gray(s.heap[t].marks)).(grayagain := [t] + s.grayagain)
  }

  lemma BackGrayBase(s: State, t: Id, hash: string -> nat)
    requires Base(s, hash) && t in s.heap && IsBlack(s.heap[t].marks) && s.heap[t].kind == TABLE
    ensures Base(BackGray(s, t), hash) && SameBodies(s, BackGray(s, t))
  {
    var s' := BackGray(s, t);
    assert Proper(s.heap[t]);
    SameBodiesSkeleton(s, s');
    ThreadsKept(s, s');
    ListsKept(s, s', hash);
    BackGrayLive(s, t);
  }

  lemma BackGrayLive(s: State, t: Id)
    requires LiveClosed(s) && RootsOk(s) && FixedOk(s) && AllProper(s)
    requires t in s.heap && IsBlack(s.heap[t].marks) && s.heap[t].kind == TABLE
    ensures var s' := BackGray(s, t); LiveClosed(s') && RootsOk(s') && FixedOk(s') && AllProper(s')
  {
    var s' := BackGray(s, t);
    assert Proper(s.heap[t]);
    forall x, b | x in s'.heap && !DeadIn(s', x) && Holds(s', x, b)
      ensures Alive(s, b)
    {
      HoldsSame(s, s', x, b);
    }
    NothingNewLive(s, s');
  }

  lemma BackGrayPhase(s: State, t: Id, hash: string -> nat)
    requires Inv(s, hash) && t in s.heap && IsBlack(s.heap[t].marks) && s.heap[t].kind == TABLE
    ensures PhaseOk(BackGray(s, t))
  {
    hide StringsOk, RootListOk, LiveClosed, ThreadsOk;
    var s' := BackGray(s, t);
    assert Proper(s.heap[t]);
    match s.phase
    case GCSpropagate =>
      BackGrayGray(s, t);
      forall a, b | a in s'.heap && IsBlack(s'.heap[a].marks) && Holds(s', a, b)
        ensures NonWhite(s', b)
      {
        HoldsSame(s, s', a, b);
        assert NonWhite(s, b);
      }
    case GCSsweepstring => SweptRecoloured(s, s', t, s.sweepstr);
    case GCSsweep => SweptRecoloured(s, s', t, |s.strt|);
    case _ =>
  }

  lemma BackGrayGray(s: State, t: Id)
    requires GrayOk(s) && t in s.heap && IsBlack(s.heap[t].marks) && s.heap[t].kind == TABLE &&
             OneColour(s.heap[t].marks)
    requires s.heap[t].body.Fields?
    ensures GrayOk(BackGray(s, t))
  {
    var s' := BackGray(s, t);
    PartsNoDup(s.gray, s.grayagain);
    assert !InLists(s, t);
    NoDupAppend([t], s.grayagain);
    assert forall a :: a in s'.grayagain <==> a == t || a in s.grayagain;
    NoDupAppend(s.gray, s'.grayagain);
    assert forall a :: InLists(s', a) <==> a == t || InLists(s, a);
  }

  // An object that is not white is not among those that have been swept.
  lemma SweptRecoloured(s: State, s': State, t: Id, buckets: nat)
    requires Swept(s, buckets) && t in s.heap && !IsWhite(s.heap[t].marks)
    requires t in s'.heap && s'.heap == s.heap[t := s'.heap[t]]
    requires s'.heap[t].body == s.heap[t].body
    requires s'.white == s.white && s'.strt == s.strt && s'.rootgc == s.rootgc && s'.sweep == s.sweep
    ensures Swept(s', buckets)
  {
    forall i | 0 <= i < s'.sweep && i < |s'.rootgc|
      ensures SweptObject(s', s'.rootgc[i])
    {
      assert SweptObject(s, s.rootgc[i]);
    }
  }

  // luaC_barrierf while marks are propagated: s2 is the state after the white value has been marked.
  lemma ForwardMarked(s: State, o: Id, body: Body, v: Value, s2: State, hash: string -> nat)
    requires Inv(s, hash) && s.phase == GCSpropagate && o in s.heap && IsBlack(s.heap[o].marks)
    requires IsStore(s, o, body, v) && v.Ref? && Alive(s, v.id)
    requires Marked(BodySet(s, o, body), s2) && NonWhite(s2, v.id)
    ensures Inv(s2, hash)
  {
    hide ThreadsOk, RootListOk, StringsOk;
    var s1 := BodySet(s, o, body);
    StoredTricolour(s, o, body, v, hash);
    forall b | Holds(s1, o, b)
      ensures NonWhite(s2, b)
    {
      if v != Ref(b) {
        assert NonWhite(s, b) && ColourStep(s1, s2, b);
      }
    }
    assert Proper(s.heap[o]);
    TraversedTricolour(s1, s2, o);
    MarkedSpreads(s1, s2);
    SpreadsKeepsBase(s1, s2, hash);
    SpreadsKeepsMarked(s1, s2);
  }

  lemma StoredTricolour(s: State, o: Id, body: Body, v: Value, hash: string -> nat)
    requires Inv(s, hash) && s.phase == GCSpropagate && o in s.heap && IsStore(s, o, body, v) && AliveValue(s, v)
    ensures var s1 := BodySet(s, o, body);
            Base(s1, hash) && Markable(s1) && GrayOk(s1) && BlackOk(s1, {o}) && RootsMarked(s1)
  {
    hide ThreadsOk, RootListOk, StringsOk, LiveClosed;
    StoreBase(s, o, body, v, hash);
    StoredGray(s, o, body);
    StoredBlack(s, o, body, v);
    assert forall a :: a in s.heap ==> !DeadIn(s, a);
  }

  lemma StoredGray(s: State, o: Id, body: Body)
    requires GrayOk(s) && o in s.heap && SameFrame(s.heap[o], s.heap[o].(body := body))
    ensures GrayOk(BodySet(s, o, body))
  {
    var s1 := BodySet(s, o, body);
    forall a | InLists(s1, a)
      ensures a in s1.heap && IsGray(s1.heap[a].marks) && Listable(s1.heap[a].kind)
    {
      assert InLists(s, a);
    }
    assert forall a :: a in s1.heap && IsGray(s1.heap[a].marks) && Listable(s1.heap[a].kind) ==> InLists(s, a);
  }

  lemma StoredBlack(s: State, o: Id, body: Body, v: Value)
    requires BlackOk(s, {}) && ThreadsOk(s) && AllProper(s) && o in s.heap && IsStore(s, o, body, v)
    ensures BlackOk(BodySet(s, o, body), {o})
  {
    var s1 := BodySet(s, o, body);
    forall a, b | a in s1.heap && a != o && IsBlack(s1.heap[a].marks) && Holds(s1, a, b)
      ensures NonWhite(s1, b)
    {
      StoreHolds(s, o, body, v, a, b);
      assert NonWhite(s, b);
    }
  }

  // luaC_barrierf in the sweep phases: the object is made white, to avoid other barriers.
  lemma ForwardWhitened(s: State, o: Id, body: Body, v: Value, hash: string -> nat)
    requires Inv(s, hash) && (s.phase == GCSsweepstring || s.phase == GCSsweep) && o in s.heap &&
             IsBlack(s.heap[o].marks)
    requires IsStore(s, o, body, v) && AliveValue(s, v)
    ensures Inv(Whitened(BodySet(s, o, body), o), hash)
  {
    StoreInv(s, o, body, v, hash);
    var s1 := BodySet(s, o, body);
    assert Proper(s.heap[o]);
    WhitenedInv(s1, o, hash);
  }

  lemma WhitenedInv(s: State, o: Id, hash: string -> nat)
    requires Inv(s, hash) && (s.phase == GCSsweepstring || s.phase == GCSsweep) && o in s.heap && !DeadIn(s, o)
    ensures Inv(Whitened(s, o), hash)
  {
    WhitenedBase(s, o, hash);
    WhitenedSweeps(s, o);
    SweptSame(s, Whitened(s, o), if s.phase == GCSsweepstring then s.sweepstr else |s.strt|);
  }

  lemma SweptSame(s: State, s': State, buckets: nat)
    requires Swept(s, buckets) && Sweeps(s, s') && s'.strt == s.strt && s'.rootgc == s.rootgc && s'.sweep == s.sweep
    ensures Swept(s', buckets)
  {
    forall k, a | 0 <= k < |s'.strt| && k < buckets && a in s'.strt[k]
      ensures a in s'.heap && CurrentWhite(s', a)
    {
      WhiteStays(s, s', a);
    }
    FrontStays(s, s');
  }

  // ---- new objects ----

  function NewMarks(white: bool): Marks {
    Marks(!white, white, false, false)
  }

  // A new white object a, that holds nothing but what is alive; the open list of a thread may take it up.
  ghost predicate Adds(s: State, s': State, a: Id) {
    && s' == s.(heap := s'.heap, rootgc := s'.rootgc, strt := s'.strt, nuse := s'.nuse, uvhead := s'.uvhead,
      sweep := s'.sweep)
    && a !in s.heap && s'.heap.Keys == s.heap.Keys + {a}
    && s'.heap[a].marks == NewMarks(s.white) && Matches(s'.heap[a].kind, s'.heap[a].body)
    && (forall x {:trigger s'.heap[x]} :: x in s.heap ==> Leaves(s.heap[x], s'.heap[x]))
    && (forall b :: Holds(s', a, b) ==> Alive(s, b))
  }

  lemma AddedHolds(s: State, s': State, a: Id, x: Id, b: Id)
    requires ThreadsOk(s) && Adds(s, s', a) && x in s.heap
    ensures Holds(s', x, b) == Holds(s, x, b)
  {
    assert Leaves(s.heap[x], s'.heap[x]);
    if s.heap[x].body.Open? {
      var t := s.heap[x].body.thread;
      assert Leaves(s.heap[t], s'.heap[t]);
    }
  }

  lemma AddedOther(s: State, s': State, a: Id)
    requires AllProper(s) && RootsOk(s) && FixedOk(s) && LiveClosed(s) && ThreadsOk(s) && Adds(s, s', a)
    ensures AllProper(s') && RootsOk(s') && FixedOk(s') && LiveClosed(s') && CurrentWhite(s', a)
  {
    forall x | x in s.heap
      ensures Proper(s'.heap[x]) && s'.heap[x].marks == s.heap[x].marks && s'.heap[x].kind == s.heap[x].kind
    {
      assert Leaves(s.heap[x], s'.heap[x]) && Proper(s.heap[x]);
    }
    forall x, b | x in s'.heap && !DeadIn(s', x) && Holds(s', x, b)
      ensures Alive(s, b)
    {
      if x != a {
        AddedHolds(s, s', a, x, b);
      }
    }
    NothingNewLive(s, s');
  }

  lemma AddedColours(s: State, s': State, a: Id)
    requires ThreadsOk(s) && Adds(s, s', a)
    ensures ColoursKept(s, s')
  {
    forall x | x in s.heap
      ensures Leaves(s.heap[x], s'.heap[x])
    {
    }
    forall x, b | x in s.heap && Holds(s', x, b)
      ensures Holds(s, x, b)
    {
      AddedHolds(s, s', a, x, b);
    }
  }

  // ---- luaC_link ----

  function InsertAt<T>(q: seq<T>, k: nat, x: T): seq<T>
    requires k <= |q|
  {
    q[..k] + [x] + q[k..]
  }

  lemma InsertAtFacts<T>(q: seq<T>, k: nat, x: T)
    requires k <= |q| && NoDup(q) && x !in q
    ensures NoDup(InsertAt(q, k, x)) && forall y :: y in InsertAt(q, k, x) <==> y == x || y in q
  {
    var r := InsertAt(q, k, x);
    forall i | 0 <= i < |r|
      ensures r[i] == if i < k then q[i] else if i == k then x else q[i - 1]
    {
    }
    forall y | y in q
      ensures y in r
    {
      var i :| 0 <= i < |q| && q[i] == y;
      assert r[if i < k then i else i + 1] == y;
    }
  }

  // The new object is listed at position k of rootgc: at the front, or, a userdata, after the main thread.
  ghost function Linked(s: State, a: Id, kind: Kind, body: Body, k: nat): State
    requires k <= |s.rootgc|
  {
    s.(heap := s.heap[a := Obj(kind, NewMarks(s.white), body)], rootgc := InsertAt(s.rootgc, k, a),
       sweep := if s.sweep > k then s.sweep + 1 else s.sweep)
  }

  ghost predicate NewBody(s: State, kind: Kind, body: Body) {
    && Matches(kind, body)
    && match body
       case Fields(refs) => forall b :: Ref(b) in refs ==> b in s.heap && !DeadIn(s, b)
       case Stack(g, slots, _, ups) => AliveValue(s, g) && ups == [] && forall i :: 0 <= i < |slots| ==> slots[i] == Nil
       case _ => false
  }

  lemma LinkedInv(s: State, a: Id, kind: Kind, body: Body, k: nat, hash: string -> nat)
    requires Inv(s, hash) && a !in s.heap && k <= |s.rootgc| && NewBody(s, kind, body)
    ensures Inv(Linked(s, a, kind, body, k), hash) && CurrentWhite(Linked(s, a, kind, body, k), a)
  {
    hide Base, PhaseOk;
    LinkedBase(s, a, kind, body, k, hash);
    LinkedPhase(s, a, kind, body, k, hash);
  }

  lemma LinkedBase(s: State, a: Id, kind: Kind, body: Body, k: nat, hash: string -> nat)
    requires Base(s, hash) && a !in s.heap && k <= |s.rootgc| && NewBody(s, kind, body)
    ensures Base(Linked(s, a, kind, body, k), hash)
  {
    hide ThreadsOk, RootListOk, StringsOk, LiveClosed;
    var s' := Linked(s, a, kind, body, k);
    assert Adds(s, s', a);
    AddedOther(s, s', a);
    LinkedLists(s, a, kind, body, k, hash);
    LinkedThreads(s, a, kind, body, k);
  }

  lemma LinkedPhase(s: State, a: Id, kind: Kind, body: Body, k: nat, hash: string -> nat)
    requires Inv(s, hash) && a !in s.heap && k <= |s.rootgc| && NewBody(s, kind, body)
    ensures PhaseOk(Linked(s, a, kind, body, k))
  {
    hide PhaseOk, ThreadsOk, RootListOk, LiveClosed;
    var s' := Linked(s, a, kind, body, k);
    assert Adds(s, s', a);
    AddedColours(s, s', a);
    LinkedFront(s, a, kind, body, k);
    PhaseKept(s, s');
  }

  lemma LinkedLists(s: State, a: Id, kind: Kind, body: Body, k: nat, hash: string -> nat)
    requires RootListOk(s) && StringsOk(s, hash) && a !in s.heap && k <= |s.rootgc| && NewBody(s, kind, body)
    ensures var s' := Linked(s, a, kind, body, k); RootListOk(s') && StringsOk(s', hash)
  {
    var s' := Linked(s, a, kind, body, k);
    InsertAtFacts(s.rootgc, k, a);
    forall i, b | 0 <= i < |s'.strt| && b in s'.strt[i]
      ensures InBucket(s', hash, b, i)
    {
      assert InBucket(s, hash, b, i);
    }
  }

  lemma LinkedThreads(s: State, a: Id, kind: Kind, body: Body, k: nat)
    requires ThreadsOk(s) && a !in s.heap && k <= |s.rootgc| && NewBody(s, kind, body)
    ensures ThreadsOk(Linked(s, a, kind, body, k))
  {
    var s' := Linked(s, a, kind, body, k);
    forall t | t in s'.heap && s'.heap[t].body.Stack?
      ensures OpenListOk(s', t)
    {
      if t != a {
        assert OpenListOk(s, t);
        var ups := s.heap[t].body.openupval;
        forall i | 0 <= i < |ups|
          ensures IsOpenAt(s', ups[i], t) && s'.heap[ups[i]] == s.heap[ups[i]]
        {
          assert IsOpenAt(s, ups[i], t);
        }
      }
    }
  }

  lemma LinkedFront(s: State, a: Id, kind: Kind, body: Body, k: nat)
    requires RootListOk(s) && a !in s.heap && k <= |s.rootgc| && NewBody(s, kind, body)
    requires forall i, b :: 0 <= i < |s.strt| && b in s.strt[i] ==> b in s.heap
    ensures FrontKept(s, Linked(s, a, kind, body, k))
  {
    var s' := Linked(s, a, kind, body, k);
    forall i | 0 <= i < s'.sweep && i < |s'.rootgc|
      ensures InFront(s, s'.rootgc[i]) || (s'.rootgc[i] in s'.heap && s'.rootgc[i] !in s.heap)
    {
      assert s'.rootgc[i] == if i < k then s.rootgc[i] else if i == k then a else s.rootgc[i - 1];
      if i != k {
        assert s.rootgc[if i < k then i else i - 1] == s'.rootgc[i];
      }
    }
  }

  // ---- newlstr ----

  ghost function Interned(s: State, a: Id, content: string, h: nat): State
    requires h < |s.strt|
  {
    s.(heap := s.heap[a := Obj(STRING, NewMarks(s.white), Text(content))], strt := s.strt[h := [a] + s.strt[h]],
      nuse := s.nuse + 1)
  }

  lemma InternedInv(s: State, a: Id, content: string, hash: string -> nat)
    requires Inv(s, hash) && a !in s.heap
    requires forall b :: b in s.heap && s.heap[b].body.Text? ==> s.heap[b].body.content != content
    ensures Inv(Interned(s, a, content, hash(content) % |s.strt|), hash)
    ensures CurrentWhite(Interned(s, a, content, hash(content) % |s.strt|), a)
  {
    var s' := Interned(s, a, content, hash(content) % |s.strt|);
    assert Adds(s, s', a);
    AddedOther(s, s', a);
    AddedColours(s, s', a);
    InternedStrings(s, a, content, hash);
    InternedLists(s, a, content, hash);
    PhaseKept(s, s');
  }

  lemma InternedStrings(s: State, a: Id, content: string, hash: string -> nat)
    requires StringsOk(s, hash) && a !in s.heap
    requires forall b :: b in s.heap && s.heap[b].body.Text? ==> s.heap[b].body.content != content
    ensures StringsOk(Interned(s, a, content, hash(content) % |s.strt|), hash)
  {
    var h := hash(content) % |s.strt|;
    var s' := Interned(s, a, content, h);
    TotalUpdate(s.strt, h, [a] + s.strt[h]);
    forall i, b | 0 <= i < |s'.strt| && b in s'.strt[i]
      ensures InBucket(s', hash, b, i)
    {
      if b != a {
        assert b in s.strt[i] && InBucket(s, hash, b, i);
      }
    }
    assert a !in s.strt[h];
    NoDupAppend([a], s.strt[h]);
  }

  lemma InternedLists(s: State, a: Id, content: string, hash: string -> nat)
    requires RootListOk(s) && ThreadsOk(s) && StringsOk(s, hash) && a !in s.heap
    ensures var s' := Interned(s, a, content, hash(content) % |s.strt|);
            RootListOk(s') && ThreadsOk(s') && FrontKept(s, s')
  {
    var s' := Interned(s, a, content, hash(content) % |s.strt|);
    forall t | t in s'.heap && s'.heap[t].body.Stack?
      ensures OpenListOk(s', t)
    {
      assert OpenListOk(s, t);
      var ups := s.heap[t].body.openupval;
      forall i | 0 <= i < |ups|
        ensures IsOpenAt(s', ups[i], t) && s'.heap[ups[i]] == s.heap[ups[i]]
      {
        assert IsOpenAt(s, ups[i], t);
      }
    }
    forall i | 0 <= i < s'.sweep && i < |s'.rootgc|
      ensures InFront(s, s'.rootgc[i])
    {
      assert s.rootgc[i] == s'.rootgc[i];
    }
  }

  // ---- resurrection ----

  // changewhite on something dead
  lemma RevivedInv(s: State, a: Id, hash: string -> nat)
    requires Inv(s, hash) && a in s.heap && DeadIn(s, a) && forall b :: Holds(s, a, b) ==> Alive(s, b)
    ensures Recoloured(s, a, ChangeWhite(s.heap[a].marks)) == Whitened(s, a)
    ensures Inv(Whitened(s, a), hash) && CurrentWhite(Whitened(s, a), a)
  {
    var s' := Whitened(s, a);
    assert Proper(s.heap[a]);
    SameBodiesSkeleton(s, s');
    ThreadsKept(s, s');
    ListsKept(s, s', hash);
    RevivedLive(s, a);
    match s.phase
    case GCSsweepstring => SweptRevived(s, a, s.sweepstr);
    case GCSsweep => SweptRevived(s, a, |s.strt|);
    case _ =>
  }

  lemma RevivedLive(s: State, a: Id)
    requires AllProper(s) && RootsOk(s) && FixedOk(s) && LiveClosed(s)
    requires a in s.heap && DeadIn(s, a) && forall b :: Holds(s, a, b) ==> Alive(s, b)
    ensures var s' := Whitened(s, a); AllProper(s') && RootsOk(s') && FixedOk(s') && LiveClosed(s')
  {
    var s' := Whitened(s, a);
    assert Proper(s.heap[a]);
    forall x, b | x in s'.heap && !DeadIn(s', x) && Holds(s', x, b)
      ensures Alive(s, b)
    {
      HoldsSame(s, s', x, b);
    }
    NothingNewLive(s, s');
  }

  lemma SweptRevived(s: State, a: Id, buckets: nat)
    requires Swept(s, buckets) && a in s.heap
    ensures Swept(Whitened(s, a), buckets)
  {
    var s' := Whitened(s, a);
    forall i | 0 <= i < s'.sweep && i < |s'.rootgc|
      ensures SweptObject(s', s'.rootgc[i])
    {
      assert SweptObject(s, s.rootgc[i]);
    }
  }

  // ---- luaF_findupval ----

  ghost function Captured(s: State, u: Id, t: Id, slot: nat, j: nat): State
    requires t in s.heap && s.heap[t].body.Stack? && j <= |s.heap[t].body.openupval|
  {
    var b := s.heap[t].body;
    s.(heap := s.heap[t := s.heap[t].(body := b.(openupval := InsertAt(b.openupval, j, u)))][u := Obj(UPVAL,
      NewMarks(s.white), Open(t, slot))],
       uvhead := [u] + s.uvhead)
  }

  // Position j is the one that keeps the list in descending order.
  ghost predicate Fits(s: State, t: Id, slot: nat, j: nat)
    requires t in s.heap && s.heap[t].body.Stack?
  {
    var ups := s.heap[t].body.openupval;
    && j <= |ups|
    && (forall i :: 0 <= i < |ups| ==> ups[i] in s.heap && s.heap[ups[i]].body.Open?)
    && (forall i :: 0 <= i < j ==> s.heap[ups[i]].body.slot > slot)
    && (forall i :: j <= i < |ups| ==> s.heap[ups[i]].body.slot < slot)
  }

  lemma CapturedInv(s: State, u: Id, t: Id, slot: nat, j: nat, hash: string -> nat)
    requires Inv(s, hash) && u !in s.heap && t in s.heap && s.heap[t].body.Stack? && slot < s.heap[t].body.top
    requires Fits(s, t, slot, j) && !DeadIn(s, t)
    ensures Inv(Captured(s, u, t, slot, j), hash) && CurrentWhite(Captured(s, u, t, slot, j), u)
  {
    var s' := Captured(s, u, t, slot, j);
    assert Proper(s.heap[t]);
    forall b | Holds(s', u, b)
      ensures Alive(s, b)
    {
      assert s.heap[t].body.slots[slot] == Ref(b);
      assert Holds(s, t, b);
    }
    assert Adds(s, s', u);
    AddedOther(s, s', u);
    AddedColours(s, s', u);
    CapturedThreads(s, u, t, slot, j);
    CapturedLists(s, u, t, slot, j, hash);
    PhaseKept(s, s');
  }

  lemma CapturedThreads(s: State, u: Id, t: Id, slot: nat, j: nat)
    requires ThreadsOk(s) && u !in s.heap && t in s.heap && s.heap[t].body.Stack? && slot < s.heap[t].body.top &&
             Fits(s, t, slot, j)
    ensures ThreadsOk(Captured(s, u, t, slot, j))
  {
    var s' := Captured(s, u, t, slot, j);
    forall r | r in s'.heap && s'.heap[r].body.Stack?
      ensures OpenListOk(s', r)
    {
      assert OpenListOk(s, r);
      if r == t {
        CapturedList(s, u, t, slot, j);
      } else {
        var ups := s.heap[r].body.openupval;
        forall i | 0 <= i < |ups|
          ensures IsOpenAt(s', ups[i], r) && s'.heap[ups[i]] == s.heap[ups[i]]
        {
          assert IsOpenAt(s, ups[i], r);
        }
      }
    }
    assert u !in s.uvhead;
    NoDupAppend([u], s.uvhead);
    forall x | x in s'.heap && s'.heap[x].body.Open?
      ensures var r := s'.heap[x].body.thread; r in s'.heap && s'.heap[r].body.Stack? && x in s'.heap[r].body.openupval
    {
      CapturedMember(s.heap[t].body.openupval, j, u, x);
    }
  }

  lemma CapturedMember(q: seq<Id>, j: nat, u: Id, x: Id)
    requires j <= |q|
    ensures x in InsertAt(q, j, u) <==> x == u || x in q
  {
    var r := InsertAt(q, j, u);
    assert r == q[..j] + [u] + q[j..];
    assert x in q <==> x in q[..j] || x in q[j..] by {
      assert q == q[..j] + q[j..];
    }
  }

  lemma CapturedList(s: State, u: Id, t: Id, slot: nat, j: nat)
    requires u !in s.heap && t in s.heap && s.heap[t].body.Stack? && slot < s.heap[t].body.top && Fits(s, t, slot, j)
    requires OpenListOk(s, t)
    ensures OpenListOk(Captured(s, u, t, slot, j), t)
  {
    var s', ups := Captured(s, u, t, slot, j), s.heap[t].body.openupval;
    var r := InsertAt(ups, j, u);
    forall i | 0 <= i < |r|
      ensures r[i] == (if i < j then ups[i] else if i == j then u else ups[i - 1]) && IsOpenAt(s', r[i], t)
      ensures s'.heap[r[i]].body.slot == if i < j then s.heap[ups[i]].body.slot else if i == j then slot
              else s.heap[ups[i - 1]].body.slot
    {
      if i != j {
        assert IsOpenAt(s, ups[if i < j then i else i - 1], t);
      }
    }
  }

  lemma CapturedFront(s: State, u: Id, t: Id, slot: nat, j: nat)
    requires RootListOk(s) && u !in s.heap && t in s.heap && s.heap[t].body.Stack? && j <= |s.heap[t].body.openupval|
    requires forall i, b :: 0 <= i < |s.strt| && b in s.strt[i] ==> b in s.heap
    ensures FrontKept(s, Captured(s, u, t, slot, j))
  {
    var s' := Captured(s, u, t, slot, j);
    forall i | 0 <= i < s'.sweep && i < |s'.rootgc|
      ensures InFront(s, s'.rootgc[i])
    {
      assert s.rootgc[i] == s'.rootgc[i];
    }
    forall r, x | r in s'.heap && s'.heap[r].body.Stack? && x in s'.heap[r].body.openupval
      ensures (r in s.heap && s.heap[r].body.Stack? && x in s.heap[r].body.openupval) || x == u
    {
      if r == t {
        CapturedMember(s.heap[t].body.openupval, j, u, x);
      }
    }
  }

  lemma CapturedLists(s: State, u: Id, t: Id, slot: nat, j: nat, hash: string -> nat)
    requires RootListOk(s) && StringsOk(s, hash) && u !in s.heap && t in s.heap && s.heap[t].body.Stack?
    requires j <= |s.heap[t].body.openupval|
    ensures var s' := Captured(s, u, t, slot, j); RootListOk(s') && StringsOk(s', hash) && FrontKept(s, s')
  {
    hide StringsOk, FrontKept;
    StringsSame(s, Captured(s, u, t, slot, j), hash);
    StringsThere(s, hash);
    CapturedFront(s, u, t, slot, j);
  }

  lemma StringsThere(s: State, hash: string -> nat)
    requires StringsOk(s, hash)
    ensures forall i, b :: 0 <= i < |s.strt| && b in s.strt[i] ==> b in s.heap
  {
    assert forall i, b :: 0 <= i < |s.strt| && b in s.strt[i] ==> InBucket(s, hash, b, i);
  }

  // ---- luaF_close ----

  // A dead upvalue is freed.
  lemma FreedUpvalueInv(s: State, t: Id, hash: string -> nat)
    requires Inv(s, hash) && t in s.heap && s.heap[t].body.Stack? && |s.heap[t].body.openupval| > 0
    requires s.heap[t].body.openupval[0] in s.heap && DeadIn(s, s.heap[t].body.openupval[0])
    ensures Inv(FreedUpvalue(s, t, 0), hash) && Sweeps(s, FreedUpvalue(s, t, 0))
  {
    OpenUpvalue(s, t, 0, hash);
    FreedUpvalueBase(s, t, 0, hash);
    FreedUpvalueSweeps(s, t, 0);
    DeadOnlyInSweep(s, s.heap[t].body.openupval[0]);
    SweptSame(s, FreedUpvalue(s, t, 0), if s.phase == GCSsweepstring then s.sweepstr else |s.strt|);
  }

  lemma DeadOnlyInSweep(s: State, a: Id)
    requires PhaseOk(s) && a in s.heap && DeadIn(s, a)
    ensures s.phase == GCSsweepstring || s.phase == GCSsweep
  {
    if s.phase == GCSpause || s.phase == GCSfinalize {
      AllWhiteNoneDead(s);
    }
  }

  // Outside the sweep, a white upvalue is closed as it is.
  lemma ClosedWhiteInv(s: State, t: Id, hash: string -> nat)
    requires Inv(s, hash) && t in s.heap && s.heap[t].body.Stack? && |s.heap[t].body.openupval| > 0
    requires var u := s.heap[t].body.openupval[0]; u in s.heap && IsWhite(s.heap[u].marks) && !DeadIn(s, u)
    ensures HeadUpvalue(s, t) && Inv(ClosedUpvalue(s, t), hash)
  {
    hide UpvalueValue, RootsOk;
    var s', u := ClosedUpvalue(s, t), s.heap[t].body.openupval[0];
    ClosedUpvalueBase(s, t, hash);
    assert Proper(s.heap[u]);
    match s.phase
    case GCSpropagate => ClosedPropagate(s, t, hash);
    case GCSsweepstring => ClosedSwept(s, t, s.sweepstr, hash);
    case GCSsweep => ClosedSwept(s, t, |s.strt|, hash);
    case _ =>
      forall a | a in s'.heap
        ensures CurrentWhite(s', a)
      {
        assert CurrentWhite(s, a);
      }
  }

  lemma ClosedSwept(s: State, t: Id, buckets: nat, hash: string -> nat)
    requires Base(s, hash) && Swept(s, buckets) && t in s.heap && s.heap[t].body.Stack? &&
             |s.heap[t].body.openupval| > 0
    requires var u := s.heap[t].body.openupval[0]; u in s.heap && CurrentWhite(s, u)
    ensures HeadUpvalue(s, t) && Swept(ClosedUpvalue(s, t), buckets)
  {
    hide Base, Sweeps;
    FrontClosed(s, t, hash);
    var s' := ClosedUpvalue(s, t);
    forall k, a | 0 <= k < |s'.strt| && k < buckets && a in s'.strt[k]
      ensures a in s'.heap && CurrentWhite(s', a)
    {
      assert a in s.strt[k];
    }
  }

  lemma ClosedPropagate(s: State, t: Id, hash: string -> nat)
    requires Inv(s, hash) && s.phase == GCSpropagate && t in s.heap && s.heap[t].body.Stack? &&
             |s.heap[t].body.openupval| > 0
    requires HeadUpvalue(s, t) && IsWhite(s.heap[s.heap[t].body.openupval[0]].marks)
    ensures PhaseOk(ClosedUpvalue(s, t))
  {
    hide StringsOk, RootListOk, LiveClosed, ThreadsOk;
    var s', u := ClosedUpvalue(s, t), s.heap[t].body.openupval[0];
    ClosedGray(s, t);
    forall a, b | a in s'.heap && IsBlack(s'.heap[a].marks) && Holds(s', a, b)
      ensures NonWhite(s', b)
    {
      ClosedUpvalueHolds(s, t, a, b, hash);
      assert NonWhite(s, b);
    }
    forall a | a in s'.heap
      ensures !DeadIn(s', a)
    {
      assert !DeadIn(s, a);
    }
  }

  lemma ClosedGray(s: State, t: Id)
    requires GrayOk(s) && t in s.heap && s.heap[t].body.Stack? && |s.heap[t].body.openupval| > 0
    requires HeadUpvalue(s, t) && !IsGray(s.heap[s.heap[t].body.openupval[0]].marks)
    ensures GrayOk(ClosedUpvalue(s, t))
  {
    var s' := ClosedUpvalue(s, t);
    forall a | InLists(s', a)
      ensures a in s'.heap && IsGray(s'.heap[a].marks) && Listable(s'.heap[a].kind)
    {
      assert InLists(s, a);
    }
    assert forall a :: a in s'.heap && IsGray(s'.heap[a].marks) && Listable(s'.heap[a].kind) ==> InLists(s, a);
  }

  // A gray one turns black, and its value is marked if it is white (s2 is the state then).
  ghost function ClosedBlack(s: State, t: Id): State
    requires t in s.heap && s.heap[t].body.Stack? && |s.heap[t].body.openupval| > 0 && HeadUpvalue(s, t)
  {
    var u := s.heap[t].body.openupval[0];
    Recoloured(ClosedUpvalue(s, t), u, Gray2Black(s.heap[u].marks))
  }

  lemma ClosedBlackBase(s: State, t: Id, hash: string -> nat)
    requires Inv(s, hash) && s.phase == GCSpropagate && t in s.heap && s.heap[t].body.Stack? &&
             |s.heap[t].body.openupval| > 0
    requires var u := s.heap[t].body.openupval[0]; u in s.heap && IsGray(s.heap[u].marks)
    ensures HeadUpvalue(s, t) && Base(ClosedBlack(s, t), hash) && Markable(ClosedBlack(s, t))
  {
    hide ThreadsOk, RootListOk, StringsOk, LiveClosed;
    ClosedUpvalueBase(s, t, hash);
    var c, u := ClosedUpvalue(s, t), s.heap[t].body.openupval[0];
    assert forall a :: a in s.heap ==> !DeadIn(s, a);
    ClosedMarkable(c, hash);
    assert Proper(c.heap[u]);
    RecolouredMarkable(c, u, Gray2Black(s.heap[u].marks));
    ClosedBlackLists(s, t, hash);
  }

  lemma ClosedMarkable(c: State, hash: string -> nat)
    requires Base(c, hash) && forall a :: a in c.heap ==> !DeadIn(c, a)
    ensures Markable(c)
  {
  }

  lemma ClosedBlackTricolour(s: State, t: Id, hash: string -> nat)
    requires Inv(s, hash) && s.phase == GCSpropagate && t in s.heap && s.heap[t].body.Stack? &&
             |s.heap[t].body.openupval| > 0
    requires var u := s.heap[t].body.openupval[0]; u in s.heap && IsGray(s.heap[u].marks)
    ensures HeadUpvalue(s, t)
    ensures var s1 := ClosedBlack(s, t);
            GrayOk(s1) && RootsMarked(s1) && BlackOk(s1, {s.heap[t].body.openupval[0]})
  {
    hide StringsOk, RootListOk, LiveClosed;
    ClosedUpvalueBase(s, t, hash);
    ClosedBlackGray(s, t);
    ClosedBlackEdges(s, t, hash);
  }

  lemma ClosedBlackLists(s: State, t: Id, hash: string -> nat)
    requires t in s.heap && s.heap[t].body.Stack? && |s.heap[t].body.openupval| > 0 && HeadUpvalue(s, t)
    requires RootListOk(ClosedUpvalue(s, t)) && StringsOk(ClosedUpvalue(s, t), hash)
    ensures RootListOk(ClosedBlack(s, t)) && StringsOk(ClosedBlack(s, t), hash)
  {
    SameBodiesSkeleton(ClosedUpvalue(s, t), ClosedBlack(s, t));
    ListsKept(ClosedUpvalue(s, t), ClosedBlack(s, t), hash);
  }

  lemma ClosedBlackGray(s: State, t: Id)
    requires GrayOk(s) && t in s.heap && s.heap[t].body.Stack? && |s.heap[t].body.openupval| > 0 && HeadUpvalue(s, t)
    requires IsGray(s.heap[s.heap[t].body.openupval[0]].marks)
    ensures GrayOk(ClosedBlack(s, t))
  {
    var s' := ClosedBlack(s, t);
    forall a | InLists(s', a)
      ensures a in s'.heap && IsGray(s'.heap[a].marks) && Listable(s'.heap[a].kind)
    {
      assert InLists(s, a);
    }
    assert forall a :: a in s'.heap && IsGray(s'.heap[a].marks) && Listable(s'.heap[a].kind) ==> InLists(s, a);
  }

  lemma ClosedBlackEdges(s: State, t: Id, hash: string -> nat)
    requires Base(s, hash) && BlackOk(s, {}) && t in s.heap && s.heap[t].body.Stack? &&
             |s.heap[t].body.openupval| > 0 && HeadUpvalue(s, t)
    requires IsGray(s.heap[s.heap[t].body.openupval[0]].marks)
    ensures BlackOk(ClosedBlack(s, t), {s.heap[t].body.openupval[0]})
  {
    var s', u := ClosedBlack(s, t), s.heap[t].body.openupval[0];
    forall a, b | a in s'.heap && a != u && IsBlack(s'.heap[a].marks) && Holds(s', a, b)
      ensures NonWhite(s', b)
    {
      HoldsSame(ClosedUpvalue(s, t), s', a, b);
      ClosedUpvalueHolds(s, t, a, b, hash);
      assert NonWhite(s, b);
    }
  }

  lemma ClosedBlackInv(s: State, t: Id, s2: State, hash: string -> nat)
    requires Inv(s, hash) && s.phase == GCSpropagate && t in s.heap && s.heap[t].body.Stack? &&
             |s.heap[t].body.openupval| > 0
    requires HeadUpvalue(s, t) && IsGray(s.heap[s.heap[t].body.openupval[0]].marks)
    requires Marked(ClosedBlack(s, t), s2)
    requires var v := UpvalueValue(s, s.heap[t].body.openupval[0]); v.Ref? ==> NonWhite(s2, v.id)
    ensures Inv(s2, hash)
  {
    ClosedBlackBase(s, t, hash);
    ClosedBlackTricolour(s, t, hash);
    var s1, u := ClosedBlack(s, t), s.heap[t].body.openupval[0];
    assert Proper(s.heap[u]);
    TraversedTricolour(s1, s2, u);
    MarkedSpreads(s1, s2);
    SpreadsKeepsBase(s1, s2, hash);
    SpreadsKeepsMarked(s1, s2);
  }

  // A gray one, in the sweep, is made white.
  lemma ClosedGrayInSweep(s: State, t: Id, hash: string -> nat)
    requires Inv(s, hash) && (s.phase == GCSsweepstring || s.phase == GCSsweep)
    requires t in s.heap && s.heap[t].body.Stack? && |s.heap[t].body.openupval| > 0
    requires var u := s.heap[t].body.openupval[0]; u in s.heap && IsGray(s.heap[u].marks)
    ensures HeadUpvalue(s, t) && Inv(Whitened(ClosedUpvalue(s, t), s.heap[t].body.openupval[0]), hash)
  {
    var u := s.heap[t].body.openupval[0];
    OpenUpvalue(s, t, 0, hash);
    assert Proper(s.heap[u]);
    WhitenedInv(s, u, hash);
    var w := Whitened(s, u);
    WhitenedBase(s, u, hash);
    ClosedWhiteInv(w, t, hash);
    ClosedUpvalueShape(s, t, hash);
    WhitenedThenClosed(s, t);
  }

  lemma WhitenedThenClosed(s: State, t: Id)
    requires t in s.heap && s.heap[t].body.Stack? && |s.heap[t].body.openupval| > 0 && HeadUpvalue(s, t)
    ensures HeadUpvalue(Whitened(s, s.heap[t].body.openupval[0]), t)
    ensures ClosedUpvalue(Whitened(s, s.heap[t].body.openupval[0]), t) == Whitened(ClosedUpvalue(s, t),
            s.heap[t].body.openupval[0])
  {
    var u := s.heap[t].body.openupval[0];
    var c1, c2 := ClosedUpvalue(Whitened(s, u), t), Whitened(ClosedUpvalue(s, t), u);
    assert UpvalueValue(Whitened(s, u), u) == UpvalueValue(s, u);
    assert c1.heap == c2.heap;
  }

  // ---- what the program may rely on ----

  // Nothing that can be reached is freed.
  ghost predicate NothingLost(s: State, s': State) {
    forall a :: Reachable(s, a) ==> a in s'.heap
  }

  ghost predicate KeptAlive(s: State, s': State) {
    forall a :: Alive(s, a) ==> Alive(s', a)
  }

  lemma AliveIsKept(s: State, s': State)
    requires LiveClosed(s) && KeptAlive(s, s')
    ensures NothingLost(s, s')
  {
    forall a | Reachable(s, a)
      ensures a in s'.heap
    {
      ReachableAlive(s, a);
    }
  }

  // Upvalues keep the value that is seen through them, open or closed.
  ghost predicate ValuesKept(s: State, s': State) {
    forall u {:trigger ValueKept(s, s', u)} {:trigger UpvalueValue(s', u)} ::
      u in s'.heap && s'.heap[u].kind == UPVAL ==> ValueKept(s, s', u)
  }

  ghost predicate ValueKept(s: State, s': State, u: Id)
    requires u in s'.heap && s'.heap[u].kind == UPVAL
  {
    u in s.heap && s.heap[u].kind == UPVAL && UpvalueValue(s', u) == UpvalueValue(s, u)
  }

  lemma ValuesKeptTrans(s0: State, s1: State, s2: State)
    requires ValuesKept(s0, s1) && ValuesKept(s1, s2)
    ensures ValuesKept(s0, s2)
  {
    forall u | u in s2.heap && s2.heap[u].kind == UPVAL
      ensures u in s0.heap && s0.heap[u].kind == UPVAL && UpvalueValue(s2, u) == UpvalueValue(s0, u)
    {
      assert ValueKept(s1, s2, u) && ValueKept(s0, s1, u);
    }
  }

  lemma ValuesKeptSame(s: State, s': State)
    requires SameBodies(s, s')
    ensures ValuesKept(s, s')
  {
    forall u | u in s'.heap && s'.heap[u].kind == UPVAL
      ensures u in s.heap && s.heap[u].kind == UPVAL && UpvalueValue(s', u) == UpvalueValue(s, u)
    {
      assert s'.heap[u].body == s.heap[u].body;
    }
  }

  lemma ValuesKeptClosed(s: State, t: Id, hash: string -> nat)
    requires Base(s, hash) && t in s.heap && s.heap[t].body.Stack? && |s.heap[t].body.openupval| > 0 &&
             HeadUpvalue(s, t)
    ensures ValuesKept(s, ClosedUpvalue(s, t))
  {
    hide StringsOk, RootListOk, LiveClosed;
    var s', u := ClosedUpvalue(s, t), s.heap[t].body.openupval[0];
    forall x | x in s'.heap && s'.heap[x].kind == UPVAL
      ensures x in s.heap && s.heap[x].kind == UPVAL && UpvalueValue(s', x) == UpvalueValue(s, x)
    {
      assert Proper(s.heap[x]);
      if x != u && s.heap[x].body.Open? {
        OpenSlot(s, x);
      }
    }
  }

  lemma ValuesKeptSwept(s: State, s': State, hash: string -> nat)
    requires Sweeps(s, s') && Base(s', hash)
    ensures ValuesKept(s, s')
  {
    forall u | u in s'.heap && s'.heap[u].kind == UPVAL
      ensures u in s.heap && s.heap[u].kind == UPVAL && UpvalueValue(s', u) == UpvalueValue(s, u)
    {
      assert SweepStep(s, s', u) && Proper(s'.heap[u]);
      if s'.heap[u].body.Open? {
        SweepValue(s, s', u, hash);
      }
    }
  }

  // ---- one round of luaF_close ----

  predicate SameRoots(s: State, s': State) {
    s'.main == s.main && s'.running == s.running && s'.registry == s.registry && s'.mt == s.mt
  }

  // What becomes of an object when the upvalues gone leave the open list of t: they have their values to
  // themselves, and nothing else changes.
  predicate ClosedAt(s: State, s': State, t: Id, gone: seq<Id>, a: Id)
    requires a in s'.heap
  {
    && a in s.heap && s'.heap[a].kind == s.heap[a].kind
    && if a in gone then s.heap[a].kind == UPVAL && s'.heap[a].body == Closed(UpvalueValue(s, a))
       else a != t ==> s'.heap[a].body == s.heap[a].body
  }

  // The first k open upvalues of t have been closed, or freed when they were dead.
  ghost predicate Closes(s: State, s': State, t: Id, k: nat) {
    && t in s.heap && t in s'.heap && s.heap[t].body.Stack? && k <= |s.heap[t].body.openupval|
    && s'.heap[t].body == s.heap[t].body.(openupval := s.heap[t].body.openupval[k..])
    && SameRoots(s, s') && ValuesKept(s, s') && KeptAlive(s, s')
    && (forall a {:trigger s'.heap[a]} :: a in s'.heap ==> ClosedAt(s, s', t, s.heap[t].body.openupval[..k], a))
    && (forall a :: a in s.heap && a !in s'.heap ==> a in s.heap[t].body.openupval[..k])
  }

  lemma ClosedClosesOne(s: State, t: Id, hash: string -> nat)
    requires Base(s, hash) && t in s.heap && s.heap[t].body.Stack? && |s.heap[t].body.openupval| > 0
    ensures HeadUpvalue(s, t) && Closes(s, ClosedUpvalue(s, t), t, 1)
  {
    hide ValuesKept, Closes;
    ClosedUpvalueShape(s, t, hash);
    ValuesKeptClosed(s, t, hash);
    ClosedCloses(s, t);
  }

  lemma ClosedCloses(s: State, t: Id)
    requires t in s.heap && s.heap[t].body.Stack? && |s.heap[t].body.openupval| > 0 && HeadUpvalue(s, t)
    requires ValuesKept(s, ClosedUpvalue(s, t))
    ensures Closes(s, ClosedUpvalue(s, t), t, 1)
  {
    hide ValuesKept;
    var ups := s.heap[t].body.openupval;
    assert RemoveAt(ups, 0) == ups[1..] && ups[..1] == [ups[0]];
  }

  // Colours may change after that.
  lemma ClosesThenColours(s: State, s1: State, s2: State, t: Id, k: nat)
    requires Closes(s, s1, t, k) && SameBodies(s1, s2) && KeptAlive(s1, s2) && SameRoots(s1, s2)
    ensures Closes(s, s2, t, k)
  {
    ValuesKeptSame(s1, s2);
    ValuesKeptTrans(s, s1, s2);
    hide ValuesKept;
    assert s2.heap[t].body == s1.heap[t].body;
    forall a | a in s2.heap
      ensures ClosedAt(s, s2, t, s.heap[t].body.openupval[..k], a)
    {
      assert ClosedAt(s, s1, t, s.heap[t].body.openupval[..k], a);
    }
  }

  lemma FreedClosesOne(s: State, t: Id, hash: string -> nat)
    requires Inv(s, hash) && t in s.heap && s.heap[t].body.Stack? && |s.heap[t].body.openupval| > 0
    requires s.heap[t].body.openupval[0] in s.heap && DeadIn(s, s.heap[t].body.openupval[0])
    ensures Closes(s, FreedUpvalue(s, t, 0), t, 1)
  {
    hide ValuesKept, Closes, Sweeps;
    OpenUpvalue(s, t, 0, hash);
    FreedUpvalueInv(s, t, hash);
    ValuesKeptSwept(s, FreedUpvalue(s, t, 0), hash);
    FreedCloses(s, t);
  }

  lemma FreedCloses(s: State, t: Id)
    requires t in s.heap && s.heap[t].body.Stack? && |s.heap[t].body.openupval| > 0
    requires s.heap[t].body.openupval[0] in s.heap && DeadIn(s, s.heap[t].body.openupval[0]) &&
             s.heap[t].body.openupval[0] != t
    requires ValuesKept(s, FreedUpvalue(s, t, 0))
    ensures Closes(s, FreedUpvalue(s, t, 0), t, 1)
  {
    hide ValuesKept;
    var ups := s.heap[t].body.openupval;
    assert RemoveAt(ups, 0) == ups[1..] && ups[..1] == [ups[0]];
  }

  lemma GrayOnlyWhen(s: State, u: Id)
    requires PhaseOk(s) && u in s.heap && IsGray(s.heap[u].marks)
    ensures s.phase == GCSpropagate || s.phase == GCSsweepstring || s.phase == GCSsweep
  {
  }

  // ---- luaF_close ----

  // The first k open upvalues of t, all at or above level, have gone.
  ghost predicate ClosesSome(s: State, s': State, t: Id, level: nat, k: nat) {
    && Closes(s, s', t, k)
    && (forall i :: 0 <= i < k ==> OpenFrom(s, s.heap[t].body.openupval[i], level))
  }

  ghost predicate OpenFrom(s: State, u: Id, level: nat) {
    u in s.heap && s.heap[u].body.Open? && s.heap[u].body.slot >= level
  }

  // Exactly those at or above level have gone.
  ghost predicate ClosesFrom(s: State, s': State, t: Id, level: nat) {
    exists k: nat :: ClosesSome(s, s', t, level, k) &&
      forall i :: k <= i < |s.heap[t].body.openupval| ==> !OpenFrom(s, s.heap[t].body.openupval[i], level)
  }

  lemma ClosesNone(s: State, t: Id, level: nat, hash: string -> nat)
    requires Base(s, hash) && t in s.heap && s.heap[t].body.Stack?
    ensures ClosesSome(s, s, t, level, 0) && TopIsOpen(s, t)
  {
    var ups := s.heap[t].body.openupval;
    assert ups[0..] == ups;
    TopOpen(s, t);
    ValuesKeptSame(s, s);
  }

  predicate TopIsOpen(s: State, t: Id)
    requires t in s.heap && s.heap[t].body.Stack?
  {
    s.heap[t].body.openupval != [] ==>
      s.heap[t].body.openupval[0] in s.heap && s.heap[s.heap[t].body.openupval[0]].body.Open?
  }

  lemma TopOpen(s: State, t: Id)
    requires ThreadsOk(s) && t in s.heap && s.heap[t].body.Stack?
    ensures TopIsOpen(s, t)
  {
    assert OpenListOk(s, t);
    if s.heap[t].body.openupval != [] {
      assert IsOpenAt(s, s.heap[t].body.openupval[0], t);
    }
  }

  lemma ClosesMore(s: State, s1: State, s2: State, t: Id, level: nat, k: nat)
    requires ThreadsOk(s) && ClosesSome(s, s1, t, level, k) && Closes(s1, s2, t, 1) && ThreadsOk(s1)
    requires s1.heap[t].body.openupval[0] in s1.heap && OpenFrom(s1, s1.heap[t].body.openupval[0], level)
    ensures ClosesSome(s, s2, t, level, k + 1)
  {
    var ups := s.heap[t].body.openupval;
    var u := ups[k];
    assert s1.heap[t].body.openupval == ups[k..] && ups[k..][0] == u && ups[k..][1..] == ups[k + 1..];
    assert ups[k..][..1] == [u] && ups[..k + 1] == ups[..k] + [u];
    OpenListNoDup(s, t);
    assert u !in ups[..k];
    ValuesKeptTrans(s, s1, s2);
    assert u != t && OpenFrom(s, u, level) by {
      assert OpenListOk(s, t) && IsOpenAt(s, ups[k], t) && ClosedAt(s, s1, t, ups[..k], u);
    }
    forall a | a in s2.heap
      ensures ClosedAt(s, s2, t, ups[..k + 1], a)
    {
      ClosedMore(s, s1, s2, t, k, a);
    }
  }

  lemma ClosedMore(s: State, s1: State, s2: State, t: Id, k: nat, a: Id)
    requires Closes(s, s1, t, k) && Closes(s1, s2, t, 1) && a in s2.heap
    requires k < |s.heap[t].body.openupval| && s.heap[t].body.openupval[k] !in s.heap[t].body.openupval[..k]
    ensures ClosedAt(s, s2, t, s.heap[t].body.openupval[..k + 1], a)
  {
    hide KeptAlive, ValuesKept, UpvalueValue;
    var ups := s.heap[t].body.openupval;
    assert s1.heap[t].body.openupval[..1] == [ups[k]] && ups[..k + 1] == ups[..k] + [ups[k]];
    assert ClosedAt(s1, s2, t, [ups[k]], a) && ClosedAt(s, s1, t, ups[..k], a);
    if a == ups[k] {
      assert s1.heap[a].kind == UPVAL;
      ValueKeptAt(s, s1, a);
    }
  }

  lemma ValueKeptAt(s: State, s': State, u: Id)
    requires ValuesKept(s, s') && u in s'.heap && s'.heap[u].kind == UPVAL
    ensures u in s.heap && s.heap[u].kind == UPVAL && UpvalueValue(s', u) == UpvalueValue(s, u)
  {
    assert ValueKept(s, s', u);
  }

  lemma ClosesAll(s: State, s': State, t: Id, level: nat, k: nat)
    requires ThreadsOk(s) && ThreadsOk(s') && ClosesSome(s, s', t, level, k)
    requires s'.heap[t].body.openupval == [] ||
      (s'.heap[t].body.openupval[0] in s'.heap && s'.heap[s'.heap[t].body.openupval[0]].body.Open?
       && s'.heap[s'.heap[t].body.openupval[0]].body.slot < level)
    ensures Below(s', t, level) && ClosesFrom(s, s', t, level)
  {
    var ups := s.heap[t].body.openupval;
    var rest := s'.heap[t].body.openupval;
    assert OpenListOk(s, t) && OpenListOk(s', t);
    assert rest == ups[k..];
    forall u | u in rest
      ensures u in s'.heap && s'.heap[u].body.Open? && s'.heap[u].body.slot < level
    {
      var i :| 0 <= i < |rest| && rest[i] == u;
      assert IsOpenAt(s', rest[i], t);
    }
    forall i | k <= i < |ups|
      ensures !OpenFrom(s, ups[i], level)
    {
      assert rest[i - k] == ups[i] && ups[i] in rest;
      assert s'.heap[ups[i]].body == s.heap[ups[i]].body;
    }
  }

  lemma AliveIn(s: State, u: Id, v: Value)
    requires Markable(s) && u in s.heap && s.heap[u].body == Closed(v)
    ensures v.Ref? ==> v.id in s.heap
  {
    if v.Ref? {
      assert Holds(s, u, v.id) && !DeadIn(s, u) && Alive(s, v.id);
    }
  }

  lemma WhitenedClosesOne(s: State, c: State, t: Id, u: Id)
    requires Closes(s, c, t, 1) && u in c.heap
    ensures Closes(s, Whitened(c, u), t, 1)
  {
    ClosesThenColours(s, c, Whitened(c, u), t, 1);
  }

  lemma MarkedClosesOne(s: State, s': State, t: Id)
    requires t in s.heap && s.heap[t].body.Stack? && |s.heap[t].body.openupval| > 0 && HeadUpvalue(s, t)
    requires IsGray(s.heap[s.heap[t].body.openupval[0]].marks) && AllProper(ClosedBlack(s, t))
    requires Closes(s, ClosedUpvalue(s, t), t, 1) && Marked(ClosedBlack(s, t), s')
    ensures Closes(s, s', t, 1)
  {
    var c := ClosedBlack(s, t);
    MarkedKeepsProper(c, s');
    forall a | Alive(ClosedUpvalue(s, t), a)
      ensures Alive(s', a)
    {
      assert Alive(c, a) && ColourStep(c, s', a);
    }
    ClosesThenColours(s, ClosedUpvalue(s, t), s', t, 1);
  }

  lemma ClosesFromKeeps(s: State, s': State, t: Id, level: nat)
    requires ClosesFrom(s, s', t, level)
    ensures KeptAlive(s, s') && ValuesKept(s, s')
  {
  }

  lemma LinkedKeeps(s: State, a: Id, kind: Kind, body: Body, k: nat)
    requires a !in s.heap && k <= |s.rootgc|
    ensures KeptAlive(s, Linked(s, a, kind, body, k))
  {
  }

  lemma BodySetKeeps(s: State, o: Id, body: Body)
    requires o in s.heap
    ensures KeptAlive(s, BodySet(s, o, body))
  {
  }

  lemma KeptTrans(s0: State, s1: State, s2: State)
    requires KeptAlive(s0, s1) && KeptAlive(s1, s2)
    ensures KeptAlive(s0, s2)
  {
  }

  // Objects stay, and hold what they held; new ones may have come.
  ghost predicate BodiesKept(s: State, s': State) {
    forall b {:trigger s'.heap[b]} {:trigger s.heap[b]} :: b in s.heap ==>
      b in s'.heap && s'.heap[b].body == s.heap[b].body && s'.heap[b].kind == s.heap[b].kind
  }
}
