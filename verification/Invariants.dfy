// The invariant of the collector, phase by phase.
module Invariants {
  import opened Objects
  import opened Marking
  import opened Propagation

  // What holds in every phase
  ghost predicate Base(s: State, hash: string -> nat) {
    && AllProper(s) && RootListOk(s) && ThreadsOk(s) && StringsOk(s, hash) && RootsOk(s) && FixedOk(s) && LiveClosed(s)
  }

  predicate CurrentWhite(s: State, a: Id)
    requires a in s.heap
  {
    var m := s.heap[a].marks;
    HasWhite(m, s.white) && !HasWhite(m, !s.white) && !IsBlack(m)
  }

  ghost predicate AllWhite(s: State) {
    forall a :: a in s.heap ==> CurrentWhite(s, a)
  }

  // The open upvalues of a thread are swept together with it.
  ghost predicate SweptObject(s: State, a: Id) {
    && a in s.heap && CurrentWhite(s, a)
    && (s.heap[a].body.Stack? ==> forall u :: u in s.heap[a].body.openupval ==> u in s.heap && CurrentWhite(s, u))
  }

  // What has been swept is white again: whole buckets of strings, then the front of rootgc.
  ghost predicate Swept(s: State, buckets: nat) {
    && (forall i, a {:trigger a in s.strt[i]} :: 0 <= i < |s.strt| && i < buckets && a in s.strt[i] ==>
      a in s.heap && CurrentWhite(s, a))
    && (forall i :: 0 <= i < s.sweep && i < |s.rootgc| ==> SweptObject(s, s.rootgc[i]))
  }

  ghost predicate RootsMarked(s: State) {
    NonWhite(s, s.main) && (s.registry.Ref? ==> NonWhite(s, s.registry.id))
  }

  ghost predicate PhaseOk(s: State) {
    match s.phase
    case GCSpause => AllWhite(s)
    case GCSpropagate => NoneDead(s) && GrayOk(s) && BlackOk(s, {}) && RootsMarked(s)
    case GCSsweepstring => Swept(s, s.sweepstr) && s.sweep == 0 && s.sweepstr < |s.strt|
    case GCSsweep => Swept(s, |s.strt|)
    case GCSfinalize => AllWhite(s)
  }

  ghost predicate Inv(s: State, hash: string -> nat) {
    Base(s, hash) && PhaseOk(s)
  }

  lemma InvLive(s: State, hash: string -> nat)
    requires Inv(s, hash)
    ensures LiveClosed(s)
  {
  }

  lemma SweepBound(s: State, hash: string -> nat)
    requires Base(s, hash)
    ensures s.sweep <= |s.rootgc|
  {
  }

  // Between collections everything is white.
  lemma RestWhite(s: State, hash: string -> nat)
    requires Inv(s, hash) && (s.phase == GCSpause || s.phase == GCSfinalize)
    ensures Base(s, hash) && AllWhite(s)
  {
  }

  lemma AllWhiteNoneDead(s: State)
    requires AllWhite(s)
    ensures NoneDead(s)
  {
    forall a | a in s.heap
      ensures !DeadIn(s, a)
    {
      assert CurrentWhite(s, a);
    }
  }

  // ---- only the collector's own position changes ----

  ghost predicate SameHeap(s: State, s': State) {
    && s'.heap == s.heap && s'.white == s.white && s'.rootgc == s.rootgc && s'.uvhead == s.uvhead && s'.nuse == s.nuse
    && s'.main == s.main && s'.running == s.running && s'.registry == s.registry && s'.mt == s.mt
  }

  lemma SameHeapLive(s: State, s': State)
    requires SameHeap(s, s') && LiveClosed(s)
    ensures LiveClosed(s')
  {
    forall a, b | a in s'.heap && !DeadIn(s', a) && Holds(s', a, b)
      ensures Alive(s', b)
    {
      assert Holds(s, a, b) && !DeadIn(s, a) && Alive(s, b);
    }
    forall b | IsRoot(s', b)
      ensures Alive(s', b)
    {
      assert IsRoot(s, b) && Alive(s, b);
    }
  }

  lemma SameHeapThreads(s: State, s': State)
    requires SameHeap(s, s') && ThreadsOk(s)
    ensures ThreadsOk(s')
  {
    forall a | a in s.heap
      ensures SameFrame(s.heap[a], s'.heap[a])
    {
    }
    ThreadsKept(s, s');
  }

  lemma SameHeapStrings(s: State, s': State, hash: string -> nat)
    requires SameHeap(s, s') && s'.strt == s.strt && StringsOk(s, hash)
    ensures StringsOk(s', hash)
  {
    forall i, a | 0 <= i < |s'.strt| && a in s'.strt[i]
      ensures InBucket(s', hash, a, i)
    {
      assert InBucket(s, hash, a, i);
    }
  }

  lemma SameHeapBase(s: State, s': State, hash: string -> nat)
    requires SameHeap(s, s') && Base(s, hash) && s'.sweep <= |s.rootgc| && StringsOk(s', hash)
    ensures Base(s', hash)
  {
    SameHeapLive(s, s');
    SameHeapThreads(s, s');
  }

  lemma InvTricolour(s: State, hash: string -> nat)
    requires Inv(s, hash) && s.phase == GCSpropagate
    ensures Tricolour(s)
  {
  }

  lemma SpreadsKeepsBase(s: State, s': State, hash: string -> nat)
    requires Spreads(s, s') && Markable(s) && Markable(s') && Base(s, hash)
    ensures Base(s', hash)
  {
    SpreadsSkeleton(s, s');
    ListsKept(s, s', hash);
  }

  lemma MarkedTricolour(s: State, s': State)
    requires Tricolour(s) && Marked(s, s')
    ensures Tricolour(s') && Spreads(s, s')
  {
    MarkedKeepsMarkable(s, s');
    MarkedKeepsColours(s, s', {});
    MarkedSpreads(s, s');
  }

  lemma SpreadsKeepsMarked(s: State, s': State)
    requires Spreads(s, s') && RootsMarked(s)
    ensures RootsMarked(s')
  {
    assert SpreadStep(s, s', s.main);
    if s.registry.Ref? {
      assert SpreadStep(s, s', s.registry.id);
    }
  }

  lemma GroundedRefs(s: State, s': State, refs: seq<Value>)
    requires Marked(s, s') && Markable(s) && FromRefs(s, s', refs) && Grounded(s)
    requires forall b :: Ref(b) in refs ==> Reachable(s, b)
    ensures Grounded(s')
  {
    MarkedSpreads(s, s');
    forall a | a in s'.heap && !IsWhite(s'.heap[a].marks)
      ensures Reachable(s', a)
    {
      if Newly(s, s', a) {
        assert FromSome(s, refs, a);
        var b :| Ref(b) in refs && ReachableFrom(s, b, a);
        var r :| IsRoot(s, r) && ReachableFrom(s, r, b);
        ReachableTrans(s, r, b, a);
      }
      assert Reachable(s, a);
      var q :| IsRoot(s, q) && ReachableFrom(s, q, a);
      ReachableSpreads(s, s', q, a);
      assert IsRoot(s', q);
    }
  }

  // ---- markroot ----

  ghost function Unmarked(s: State): State {
    s.(gray := [], grayagain := [], phase := GCSpropagate)
  }

  lemma UnmarkedBase(s: State, hash: string -> nat)
    requires Base(s, hash)
    ensures Base(Unmarked(s), hash)
  {
    SameHeapStrings(s, Unmarked(s), hash);
    SameHeapBase(s, Unmarked(s), hash);
  }

  lemma UnmarkedTricolour(s: State, hash: string -> nat)
    requires AllWhite(s) && Base(s, hash)
    ensures Tricolour(Unmarked(s)) && Grounded(Unmarked(s))
  {
    UnmarkedBase(s, hash);
    WhiteTricolour(Unmarked(s), hash);
  }

  lemma WhiteTricolour(s: State, hash: string -> nat)
    requires Base(s, hash) && s.gray == [] && s.grayagain == [] && AllWhite(s)
    ensures Tricolour(s) && Grounded(s)
  {
    hide ThreadsOk, RootListOk, StringsOk;
    forall a | a in s.heap
      ensures IsWhite(s.heap[a].marks) && !IsBlack(s.heap[a].marks)
    {
      assert CurrentWhite(s, a);
    }
    AllWhiteNoneDead(s);
  }

  lemma RootReachable(s: State, b: Id)
    requires IsRoot(s, b)
    ensures Reachable(s, b)
  {
    ReachableSelf(s, b);
  }

  // Reachability depends on the bodies and the roots only.
  lemma ReachableEverywhere(s: State, s': State, a: Id)
    requires SameBodies(s, s') && Reachable(s, a) && forall b :: IsRoot(s, b) ==> IsRoot(s', b)
    ensures Reachable(s', a)
  {
    var r :| IsRoot(s, r) && ReachableFrom(s, r, a);
    ReachableSame(s, s', r, a);
  }

  // ---- atomic ----

  ghost predicate UpvalsDoneIn(s: State, ups: seq<Id>) {
    forall u :: u in ups && u in s.heap && s.heap[u].body.Open? && !IsWhite(s.heap[u].marks) ==> ValueMarked(s, u)
  }

  lemma SpreadsKeepsUpvalsIn(s: State, s': State, ups: seq<Id>)
    requires Spreads(s, s') && Markable(s) && UpvalsDoneIn(s, ups)
    ensures UpvalsDoneIn(s', ups)
  {
    forall u | u in ups && u in s'.heap && s'.heap[u].body.Open? && !IsWhite(s'.heap[u].marks)
      ensures ValueMarked(s', u)
    {
      assert SpreadStep(s, s', u);
      if !Newly(s, s', u) {
        forall b | Holds(s', u, b)
          ensures NonWhite(s', b)
        {
          SpreadHolds(s, s', u, b);
          assert ValueMarked(s, u) && NonWhite(s, b) && SpreadStep(s, s', b);
        }
      }
    }
  }

  lemma RemarkedMore(s: State, s': State, ups: seq<Id>, i: nat)
    requires Spreads(s, s') && Markable(s) && i < |ups| && UpvalsDoneIn(s, ups[..i]) && UpvalsDoneIn(s', [ups[i]])
    ensures UpvalsDoneIn(s', ups[..i + 1])
  {
    SpreadsKeepsUpvalsIn(s, s', ups[..i]);
    assert ups[..i + 1] == ups[..i] + [ups[i]];
  }

  // The end of the mark phase: what is marked holds nothing unmarked.
  ghost predicate MarkedClosed(s: State) {
    forall a, b {:trigger Holds(s, a, b)} :: a in s.heap && !IsWhite(s.heap[a].marks) && Holds(s, a, b) ==>
      NonWhite(s, b)
  }

  lemma AllDone(s: State)
    requires Tricolour(s) && s.gray == [] && AgainDone(s) && UpvalsDoneIn(s, s.uvhead)
    ensures MarkedClosed(s)
  {
    forall a, b | a in s.heap && !IsWhite(s.heap[a].marks) && Holds(s, a, b)
      ensures NonWhite(s, b)
    {
      assert Proper(s.heap[a]);
      if !IsBlack(s.heap[a].marks) {
        if Listable(s.heap[a].kind) {
          assert InLists(s, a);
        } else if s.heap[a].kind == UPVAL {
          assert ValueMarked(s, a);
        }
      }
    }
  }

  ghost predicate AllRootsMarked(s: State) {
    forall b :: IsRoot(s, b) ==> NonWhite(s, b)
  }

  // otherwhite: what is white now becomes dead.
  ghost function Flipped(s: State): State {
    s.(white := !s.white, sweepstr := 0, sweep := 0, phase := GCSsweepstring)
  }

  // atomic
  ghost predicate Finishes(s: State, s': State) {
    exists m :: Spreads(s, m) && NoneDead(m) && MarkedClosed(m) && (Grounded(s) ==> Grounded(m)) && s' == Flipped(m)
  }

  lemma FlippedDead(s: State, a: Id)
    requires NoneDead(s) && a in s.heap
    ensures DeadIn(Flipped(s), a) == IsWhite(s.heap[a].marks)
  {
    assert !DeadIn(s, a);
  }

  lemma FlippedInv(s: State, hash: string -> nat)
    requires Base(s, hash) && NoneDead(s) && MarkedClosed(s) && AllRootsMarked(s)
    ensures Inv(Flipped(s), hash)
  {
    var s' := Flipped(s);
    SameBodiesSkeleton(s, s');
    ThreadsKept(s, s');
    ListsKept(s, s', hash);
    forall a, b | a in s'.heap && !DeadIn(s', a) && Holds(s', a, b)
      ensures Alive(s', b)
    {
      HoldsSame(s, s', a, b);
      FlippedDead(s, a);
      FlippedDead(s, b);
    }
    forall b | IsRoot(s', b)
      ensures Alive(s', b)
    {
      assert IsRoot(s, b);
      FlippedDead(s, b);
    }
  }

  lemma GrayUpvalue(s: State, u: Id, v: Value)
    requires Tricolour(s) && u in s.heap && s.heap[u].body.Open? && IsGray(s.heap[u].marks) && v == UpvalueValue(s, u)
    ensures v.Ref? ==> v.id in s.heap
    ensures Grounded(s) ==> forall b :: Ref(b) in [v] ==> Reachable(s, b)
  {
    assert Proper(s.heap[u]) && !DeadIn(s, u);
    if v.Ref? {
      UpvalueHolds(s, u, v.id);
      assert Alive(s, v.id);
      if Grounded(s) {
        assert Reachable(s, u);
        var r :| IsRoot(s, r) && ReachableFrom(s, r, u);
        ReachableStep(s, r, u, v.id);
      }
    }
  }

  lemma RemarkedOne(s: State, s': State, u: Id, v: Value)
    requires Tricolour(s) && Spreads(s, s') && u in s.heap && s.heap[u].body.Open? && v == UpvalueValue(s, u)
    requires v.Ref? ==> NonWhite(s', v.id)
    ensures u in s'.heap && s'.heap[u].body.Open? && ValueMarked(s', u)
  {
    assert SpreadStep(s, s', u) && Proper(s.heap[u]);
    forall b | Holds(s', u, b)
      ensures NonWhite(s', b)
    {
      SpreadHolds(s, s', u, b);
      UpvalueHolds(s, u, b);
    }
  }

  // g->gray = g->grayagain
  ghost function Again(s: State): State {
    s.(gray := s.grayagain, grayagain := [])
  }

  lemma AgainAgain(s: State)
    requires Tricolour(s) && s.gray == []
    ensures Tricolour(Again(s)) && AgainDone(Again(s))
    ensures Grounded(s) ==> Grounded(Again(s))
    ensures UpvalsDoneIn(s, s.uvhead) ==> UpvalsDoneIn(Again(s), s.uvhead)
  {
    hide Grounded, UpvalsDoneIn, ThreadsOk, RootListOk, LiveClosed;
    var s' := Again(s);
    assert s.gray + s.grayagain == s'.gray + s'.grayagain;
    assert forall a :: InLists(s', a) <==> InLists(s, a);
    MarkableLists(s, s');
    AgainEdges(s);
    if Grounded(s) {
      AgainGrounded(s);
    }
    if UpvalsDoneIn(s, s.uvhead) {
      AgainUpvals(s);
    }
  }

  lemma AgainEdges(s: State)
    ensures var s' := Again(s); forall a, b :: a in s'.heap && Holds(s', a, b) ==> Holds(s, a, b)
    ensures forall b :: NonWhite(s, b) ==> NonWhite(Again(s), b)
  {
    forall a, b | a in s.heap && Holds(Again(s), a, b)
      ensures Holds(s, a, b)
    {
      HoldsSame(s, Again(s), a, b);
    }
  }

  lemma AgainGrounded(s: State)
    requires Grounded(s)
    ensures Grounded(Again(s))
  {
    var s' := Again(s);
    forall a | a in s'.heap && !IsWhite(s'.heap[a].marks)
      ensures Reachable(s', a)
    {
      assert Reachable(s, a);
      ReachableEverywhere(s, s', a);
    }
  }

  lemma AgainUpvals(s: State)
    requires UpvalsDoneIn(s, s.uvhead)
    ensures UpvalsDoneIn(Again(s), s.uvhead)
  {
    var s' := Again(s);
    forall u | u in s.uvhead && u in s'.heap && s'.heap[u].body.Open? && !IsWhite(s'.heap[u].marks)
      ensures ValueMarked(s', u)
    {
      assert ValueMarked(s, u);
      AgainEdges(s);
    }
  }

  lemma AgainSpreads(s: State, s1: State, s2: State)
    requires Spreads(s, s1) && Spreads(Again(s1), s2) && Markable(s) && Markable(s1) && Tricolour(s1) && s1.gray == []
    ensures Spreads(s, s2)
  {
    hide Markable;
    AgainAgain(s1);
    var t := Again(s1);
    forall a | a in s.heap
      ensures SpreadStep(s, t, a)
    {
      assert SpreadStep(s, s1, a);
      if Newly(s, s1, a) && s.heap[a].body.Open? {
        forall b | Holds(t, a, b)
          ensures NonWhite(t, b)
        {
          HoldsSame(s1, t, a, b);
        }
      }
    }
    SpreadsTrans(s, t, s2);
  }

  lemma RestSpreads(s: State, s1: State, s2: State, s3: State, s4: State, ups: seq<Id>, refs: seq<Value>)
    requires Markable(s) && Markable(s1) && Markable(s2) && Markable(s3)
    requires Spreads(s, s1) && Spreads(s1, s2) && Spreads(s2, s3) && Spreads(s3, s4)
    requires UpvalsDoneIn(s1, ups) && forall b :: Ref(b) in refs ==> NonWhite(s3, b)
    ensures Spreads(s, s4) && UpvalsDoneIn(s4, ups) && forall b :: Ref(b) in refs ==> NonWhite(s4, b)
  {
    SpreadsTrans(s, s1, s2);
    SpreadsTrans(s, s2, s3);
    SpreadsTrans(s, s3, s4);
    SpreadsTrans(s1, s2, s3);
    SpreadsTrans(s1, s3, s4);
    SpreadsKeepsUpvalsIn(s1, s4, ups);
    forall b | Ref(b) in refs
      ensures NonWhite(s4, b)
    {
      assert NonWhite(s3, b) && SpreadStep(s3, s4, b);
    }
  }
}
