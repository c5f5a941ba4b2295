// What a step of the collector keeps, how it makes progress, and what a whole collection leaves.
module Collection {
  import opened Objects
  import opened Marking
  import opened Propagation
  import opened Invariants
  import opened Sweeping

  // ---- what the program sees ----

  datatype Seen =
    | SeenText(content: string)
    | SeenFields(refs: seq<Value>)
    | SeenUpvalue(value: Value)
    | SeenStack(globals: Value, used: seq<Value>)

  // What the program finds in an object, whether its upvalues are open or closed and whatever is left in the
  // slots that are not in use
  function Look(s: State, a: Id): Seen
    requires a in s.heap
  {
    match s.heap[a].body
    case Text(content) => SeenText(content)
    case Fields(refs) => SeenFields(refs)
    case Stack(g, slots, top, _) => SeenStack(g, if top <= |slots| then slots[..top] else slots)
    case _ => SeenUpvalue(if s.heap[a].kind == UPVAL then UpvalueValue(s, a) else Nil)
  }

  // An open upvalue goes on sharing its slot as long as its thread can be reached.
  ghost predicate SameView(s: State, s': State, a: Id) {
    && a in s.heap && a in s'.heap && s'.heap[a].kind == s.heap[a].kind
    && (forall b :: Points(s', a, b) == Points(s, a, b))
    && Look(s', a) == Look(s, a)
    && (s.heap[a].body.Open? && Reachable(s, s.heap[a].body.thread) ==> s'.heap[a].body == s.heap[a].body)
  }

  // What can be reached is still there, the same as before, and nothing else can be reached.
  ghost predicate Preserved(s: State, s': State) {
    && s'.main == s.main && s'.running == s.running && s'.registry == s.registry && s'.mt == s.mt
    && (forall a :: Reachable(s, a) <==> Reachable(s', a))
    && (forall a :: Reachable(s, a) ==> SameView(s, s', a))
    && (forall a :: a in s.heap && s.heap[a].marks.fixed ==> a in s'.heap)
    && (forall a :: a in s'.heap ==> a in s.heap && s'.heap[a].marks.fixed == s.heap[a].marks.fixed)
  }

  lemma PreservedSelf(s: State)
    requires LiveClosed(s)
    ensures Preserved(s, s)
  {
    forall a | Reachable(s, a)
      ensures SameView(s, s, a)
    {
      ReachableAlive(s, a);
    }
  }

  lemma PreservedTrans(s0: State, s1: State, s2: State)
    requires Preserved(s0, s1) && Preserved(s1, s2)
    ensures Preserved(s0, s2)
  {
    forall a | Reachable(s0, a)
      ensures SameView(s0, s2, a)
    {
      assert SameView(s0, s1, a) && SameView(s1, s2, a);
    }
  }

  lemma SpreadsPreserved(s: State, s': State)
    requires Spreads(s, s') && Markable(s)
    ensures Preserved(s, s')
  {
    forall a
      ensures Reachable(s, a) <==> Reachable(s', a)
    {
      SpreadReach(s, s', a);
    }
    forall a | a in s'.heap
      ensures a in s.heap && s'.heap[a].marks.fixed == s.heap[a].marks.fixed
    {
      assert a in s.heap && SpreadStep(s, s', a);
    }
    forall a | Reachable(s, a)
      ensures SameView(s, s', a)
    {
      ReachableAlive(s, a);
      SpreadView(s, s', a);
    }
  }

  lemma SpreadReach(s: State, s': State, a: Id)
    requires Spreads(s, s') && Markable(s)
    ensures Reachable(s, a) <==> Reachable(s', a)
  {
    if Reachable(s, a) {
      var r :| IsRoot(s, r) && ReachableFrom(s, r, a);
      ReachableSpreads(s, s', r, a);
      assert IsRoot(s', r);
    }
    if Reachable(s', a) {
      var r :| IsRoot(s', r) && ReachableFrom(s', r, a);
      ReachableSpreads(s, s', r, a);
      assert IsRoot(s, r);
    }
  }

  lemma SpreadView(s: State, s': State, a: Id)
    requires Spreads(s, s') && Markable(s) && a in s.heap
    ensures SameView(s, s', a)
  {
    assert SpreadStep(s, s', a);
    forall b
      ensures Points(s', a, b) == Points(s, a, b)
    {
      SpreadHolds(s, s', a, b);
    }
  }

  lemma SweepsPreserved(s: State, s': State, hash: string -> nat)
    requires Sweeps(s, s') && Base(s, hash) && Base(s', hash)
    ensures Preserved(s, s')
  {
    forall a
      ensures Reachable(s, a) <==> Reachable(s', a)
    {
      ReachableSwept(s, s', a, hash);
    }
    forall a | a in s'.heap
      ensures a in s.heap && s'.heap[a].marks.fixed == s.heap[a].marks.fixed
    {
      assert SweepStep(s, s', a);
    }
    forall a | Reachable(s, a)
      ensures SameView(s, s', a)
    {
      ReachableAlive(s, a);
      SweepView(s, s', a, hash);
    }
  }

  lemma SweepLook(s: State, s': State, a: Id, hash: string -> nat)
    requires Sweeps(s, s') && Base(s, hash) && Base(s', hash) && a in s'.heap
    ensures a in s.heap && s'.heap[a].kind == s.heap[a].kind && Look(s', a) == Look(s, a)
    ensures s.heap[a].body.Open? && Reachable(s, s.heap[a].body.thread) ==> s'.heap[a].body == s.heap[a].body
  {
    hide Reachable, Points, StringsOk, RootListOk;
    assert SweepStep(s, s', a) && Proper(s.heap[a]) && Proper(s'.heap[a]);
    if s.heap[a].body.Open? {
      if Reachable(s, s.heap[a].body.thread) {
        ReachableAlive(s, s.heap[a].body.thread);
      }
      if s'.heap[a].body.Open? {
        SweepValue(s, s', a, hash);
      }
    }
  }

  lemma SweepView(s: State, s': State, a: Id, hash: string -> nat)
    requires Sweeps(s, s') && Base(s, hash) && Base(s', hash) && Alive(s, a)
    ensures SameView(s, s', a)
  {
    hide Base, Look, SweepStep;
    assert a in s'.heap;
    SweepLook(s, s', a, hash);
    forall b
      ensures Points(s', a, b) == Points(s, a, b)
    {
      SweepPoints(s, s', a, b, hash);
    }
  }

  // Colours, lists and the position of the collector aside, nothing has changed.
  lemma SamePreserved(s: State, s': State)
    requires SameBodies(s, s') && LiveClosed(s) && s'.main == s.main && s'.running == s.running
    requires s'.registry == s.registry && s'.mt == s.mt
    requires forall a :: a in s.heap ==> s'.heap[a].marks.fixed == s.heap[a].marks.fixed
    ensures Preserved(s, s')
  {
    forall a
      ensures Reachable(s, a) <==> Reachable(s', a)
    {
      if Reachable(s, a) {
        ReachableEverywhere(s, s', a);
      }
      if Reachable(s', a) {
        ReachableEverywhere(s', s, a);
      }
    }
    forall a | Reachable(s, a)
      ensures SameView(s, s', a)
    {
      ReachableAlive(s, a);
      forall b
        ensures Points(s', a, b) == Points(s, a, b)
      {
        HoldsSame(s, s', a, b);
      }
    }
  }

  // ---- progress ----

  function Rank(p: Phase): nat {
    match p
    case GCSpropagate => 4
    case GCSsweepstring => 3
    case GCSsweep => 2
    case GCSfinalize => 1
    case GCSpause => 0
  }

  function Next(p: Phase): Phase {
    match p
    case GCSpause => GCSpropagate
    case GCSpropagate => GCSsweepstring
    case GCSsweepstring => GCSsweep
    case GCSsweep => GCSfinalize
    case GCSfinalize => GCSpause
  }

  ghost function Outer(s: State): nat {
    match s.phase
    case GCSpropagate => |Whites(s)|
    case GCSsweepstring => if s.sweepstr <= |s.strt| then |s.strt| - s.sweepstr else 0
    case GCSsweep => |s.uvhead|
    case _ => 0
  }

  ghost function Inner(s: State): nat {
    match s.phase
    case GCSpropagate => |s.gray|
    case GCSsweep => if s.sweep <= |s.rootgc| then |s.rootgc| - s.sweep else 0
    case _ => 0
  }

  // Each step of a collection brings its end nearer.
  ghost predicate Nearer(s: State, s': State) {
    || s'.phase == Next(s.phase)
    || (s'.phase == s.phase && (Outer(s') < Outer(s) || (Outer(s') == Outer(s) && Inner(s') < Inner(s))))
  }

  // ---- precision ----

  // Alive objects that cannot be reached are fixed ones.
  ghost predicate Exact(s: State) {
    forall a :: a in s.heap && !DeadIn(s, a) ==> Reachable(s, a) || s.heap[a].marks.fixed
  }

  // Nothing has been retained since the collection began.
  ghost predicate Tight(s: State) {
    if s.phase == GCSpropagate then Grounded(s) else Exact(s)
  }

  lemma FlippedExact(m: State)
    requires LiveClosed(m) && NoneDead(m) && Grounded(m)
    ensures Exact(Flipped(m))
  {
    var s := Flipped(m);
    forall a | a in s.heap && !DeadIn(s, a)
      ensures Reachable(s, a)
    {
      FlippedDead(m, a);
      assert Reachable(m, a);
      ReachableEverywhere(m, s, a);
    }
  }

  lemma SweptExact(s: State, s': State, hash: string -> nat)
    requires Sweeps(s, s') && Base(s, hash) && Base(s', hash) && Exact(s)
    ensures Exact(s')
  {
    forall a | a in s'.heap && !DeadIn(s', a)
      ensures Reachable(s', a) || s'.heap[a].marks.fixed
    {
      assert SweepStep(s, s', a);
      if !DeadIn(s, a) && !s.heap[a].marks.fixed {
        assert Reachable(s, a);
        ReachableSwept(s, s', a, hash);
      }
    }
  }

  lemma FinishedAtomic(s: State, s': State, hash: string -> nat)
    requires Inv(s, hash) && s.phase == GCSpropagate && Finishes(s, s')
    ensures Preserved(s, s') && s'.phase == GCSsweepstring && (Grounded(s) ==> Exact(s'))
  {
    InvTricolour(s, hash);
    var m :| Spreads(s, m) && NoneDead(m) && MarkedClosed(m) && (Grounded(s) ==> Grounded(m)) && s' == Flipped(m);
    SpreadsPreserved(s, m);
    LiveSpread(s, m);
    SamePreserved(m, s');
    PreservedTrans(s, m, s');
    if Grounded(s) {
      FlippedExact(m);
    }
  }

  lemma LiveSpread(s: State, m: State)
    requires Spreads(s, m) && Markable(s) && NoneDead(m)
    ensures LiveClosed(m)
  {
    forall a, b | a in m.heap && Holds(m, a, b)
      ensures Alive(m, b)
    {
      SpreadHolds(s, m, a, b);
      assert !DeadIn(s, a) && Alive(s, b);
    }
    forall b | IsRoot(m, b)
      ensures Alive(m, b)
    {
      assert IsRoot(s, b) && Alive(s, b);
    }
  }

  // ---- what a full collection leaves ----

  // Exactly what can be reached, and what is fixed
  ghost predicate OnlySurvivors(s: State, s': State) {
    forall a :: a in s'.heap <==> Reachable(s, a) || (a in s.heap && s.heap[a].marks.fixed)
  }

  lemma Survivors(s: State, s': State)
    requires Preserved(s, s') && AllWhite(s') && Exact(s')
    ensures OnlySurvivors(s, s')
  {
    forall a
      ensures a in s'.heap <==> Reachable(s, a) || (a in s.heap && s.heap[a].marks.fixed)
    {
      if a in s'.heap {
        assert CurrentWhite(s', a);
        assert Reachable(s', a) || s'.heap[a].marks.fixed;
      }
      if Reachable(s, a) {
        assert SameView(s, s', a);
      }
    }
  }

  // ---- the steps ----

  // What every step of the collector does
  ghost predicate Advances(s: State, s': State) {
    && Preserved(s, s')
    && (s.phase != GCSpause ==> Nearer(s, s'))
    && (s.phase != GCSpause && Tight(s) ==> Tight(s'))
    && (s.phase == GCSpause ==> s'.phase == GCSpropagate && Grounded(s'))
  }

  lemma StartAdvances(s: State, s': State, hash: string -> nat)
    requires Inv(s, hash) && AllWhite(s) && Spreads(Unmarked(s), s') && Grounded(s') && s'.phase == GCSpropagate
    requires s.phase == GCSpause
    ensures Advances(s, s')
  {
    StartPreserved(s, s', hash);
  }

  lemma StartPreserved(s: State, s': State, hash: string -> nat)
    requires Base(s, hash) && AllWhite(s) && Spreads(Unmarked(s), s')
    ensures Preserved(s, s')
  {
    UnmarkedTricolour(s, hash);
    SamePreserved(s, Unmarked(s));
    SpreadsPreserved(Unmarked(s), s');
    PreservedTrans(s, Unmarked(s), s');
  }

  lemma PropagateAdvances(s: State, s': State)
    requires Tricolour(s) && s.phase == GCSpropagate && Spreads(s, s') && (Grounded(s) ==> Grounded(s'))
    requires |Whites(s')| < |Whites(s)| || (|Whites(s')| == |Whites(s)| && |s'.gray| < |s.gray|)
    ensures Advances(s, s')
  {
    SpreadsPreserved(s, s');
  }

  lemma SweepAdvances(s: State, s': State, hash: string -> nat)
    requires Base(s, hash) && Base(s', hash) && Sweeps(s, s') && Nearer(s, s')
    requires s.phase != GCSpause && s.phase != GCSpropagate && s'.phase != GCSpropagate
    ensures Advances(s, s')
  {
    SweepsPreserved(s, s', hash);
    if Exact(s) {
      SweptExact(s, s', hash);
    }
  }

  // luaC_fullgc abandons the marks it finds and sweeps them away.
  ghost function Abandoned(s: State): State {
    s.(sweepstr := 0, sweep := 0, gray := [], grayagain := [], phase := GCSsweepstring)
  }

  lemma AbandonedInv(s: State, hash: string -> nat)
    requires Inv(s, hash) && (s.phase == GCSpause || s.phase == GCSpropagate)
    ensures Inv(Abandoned(s), hash) && Preserved(s, Abandoned(s))
  {
    SameHeapStrings(s, Abandoned(s), hash);
    SameHeapBase(s, Abandoned(s), hash);
    SamePreserved(s, Abandoned(s));
  }
}
