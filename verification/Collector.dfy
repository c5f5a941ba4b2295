// The incremental collector (lgc.c), over the global state of the interpreter.
module Collector {
  import opened Objects
  import opened Marking
  import opened Propagation
  import opened Invariants
  import opened Sweeping
  import opened StringTable
  import opened Mutation
  import opened Collection

  const MINSTRTABSIZE := 32
  const GCSWEEPMAX := 40

  class GlobalState {
    var heap: map<Id, Obj>
    var rootgc: seq<Id>            // all collectable objects but strings and open upvalues
    var strt: seq<seq<Id>>         // the buckets of the string table
    var nuse: nat                  // number of strings in it
    var uvhead: seq<Id>            // all open upvalues
    var gray: seq<Id>
    var grayagain: seq<Id>
    var white: bool
    var phase: Phase
    var sweepstr: nat
    var sweep: nat
    const main: Id
    var running: Id
    var registry: Value
    var mt: seq<Value>
    const hash: string -> nat

    // lua_newstate: the main thread, its table of globals, the registry, and an empty string table
    constructor (hash: string -> nat)
      ensures Inv(S(), hash) && this.hash == hash && phase == GCSpause
    {
      this.hash := hash;
      var m := Marks(true, false, false, false);
      heap := map[0 := Obj(THREAD, m.(fixed := true), Stack(Ref(1), seq(45, _ => Nil), 1, [])),
                  1 := Obj(TABLE, m, Fields([])), 2 := Obj(TABLE, m, Fields([]))];
      rootgc := [2, 1, 0];
      strt, nuse := EmptyBuckets(MINSTRTABSIZE), 0;
      uvhead, gray, grayagain := [], [], [];
      white, phase, sweepstr, sweep := false, GCSpause, 0, 0;
      main, running, registry, mt := 0, 0, Ref(2), [];
      new;
      TotalEmpty(MINSTRTABSIZE);
      NewStateInv(S(), hash);
    }

    ghost function S(): State
      reads this
    {
      State(heap, rootgc, strt, nuse, uvhead, gray, grayagain, white, phase, sweepstr, sweep, main, running,
        registry, mt)
    }

    // ---- marking ----

    method SetMarks(o: Id, m: Marks)
      requires o in heap
      modifies `heap
      ensures S() == Recoloured(old(S()), o, m)
    {
      heap := heap[o := heap[o].(marks := m)];
    }

    method MarkValue(v: Value)
      requires Markable(S()) && (v.Ref? ==> v.id in heap)
      modifies `heap, `gray
      ensures Marked(old(S()), S()) && (v.Ref? ==> NonWhite(S(), v.id))
      ensures FromRefs(old(S()), S(), [v])
      decreases |Whites(S())|, 1
    {
      ghost var s := S();
      if v.Ref? && IsWhite(heap[v.id].marks) {
        ReallyMark(v.id);
        forall a | a in s.heap && Newly(s, S(), a)
          ensures FromSome(s, [v], a)
        {
          assert Ref(v.id) in [v];
        }
      } else {
        MarkedSelf(S());
      }
    }

    method MarkRefs(refs: seq<Value>)
      requires Markable(S()) && forall b :: Ref(b) in refs ==> b in heap
      modifies `heap, `gray
      ensures Marked(old(S()), S()) && forall b :: Ref(b) in refs ==> NonWhite(S(), b)
      ensures FromRefs(old(S()), S(), refs)
      decreases |Whites(S())|, 2
    {
      ghost var s := S();
      MarkedSelf(s);
      var i := 0;
      while i < |refs|
        invariant 0 <= i <= |refs| && Marked(s, S()) && Markable(S())
        invariant forall b :: Ref(b) in refs[..i] ==> NonWhite(S(), b)
        invariant FromRefs(s, S(), refs)
      {
        ghost var s1 := S();
        FewerWhites(s, s1);
        assert refs[i].Ref? ==> Ref(refs[i].id) in refs;
        MarkValue(refs[i]);
        MarkedStep(s, s1, S(), refs, i);
        i := i + 1;
      }
    }

    method ReallyMark(o: Id)
      requires Markable(S()) && o in heap && IsWhite(heap[o].marks)
      modifies `heap, `gray
      ensures Marked(old(S()), S()) && NonWhite(S(), o)
      ensures NewlyFrom(old(S()), S(), o)
      decreases |Whites(S())|, 0
    {
      hide Marked, ReachableFrom;
      ghost var s, m := S(), White2Gray(heap[o].marks);
      WhiteGone(s, o, m);
      SetMarks(o, White2Gray(heap[o].marks));
      match heap[o].kind
      case STRING =>
        MarkedAlone(s, m, o);
        ReachableSelf(s, o);
      case USERDATA =>
        MarkUserdata(o, s);
      case UPVAL =>
        MarkUpvalue(o, s);
      case _ =>
        gray := [o] + gray;
        MarkedAlone(s, m, o);
        ReachableSelf(s, o);
    }

    // Userdata are never gray.
    method MarkUserdata(o: Id, ghost s: State)
      requires Markable(s) && o in s.heap && IsWhite(s.heap[o].marks) && s.heap[o].kind == USERDATA
      requires S() == Recoloured(s, o, White2Gray(s.heap[o].marks))
      modifies `heap, `gray
      ensures Marked(s, S()) && NonWhite(S(), o) && NewlyFrom(s, S(), o)
      decreases |Whites(S())|, 3
    {
      ghost var m := Gray2Black(heap[o].marks);
      SetMarks(o, Gray2Black(heap[o].marks));
      assert S() == Recoloured(s, o, m);
      assert Whites(S()) == Whites(old(S()));
      RecolouredMarkable(s, o, m);
      var refs := heap[o].body.refs;
      assert forall b :: Ref(b) in refs ==> Holds(s, o, b) && Alive(s, b);
      MarkRefs(refs);
      UserdataMarked(s, m, S(), o, refs);
    }

    // Open upvalues are never black.
    method MarkUpvalue(o: Id, ghost s: State)
      requires Markable(s) && o in s.heap && IsWhite(s.heap[o].marks) && s.heap[o].kind == UPVAL
      requires S() == Recoloured(s, o, White2Gray(s.heap[o].marks))
      modifies `heap, `gray
      ensures Marked(s, S()) && NonWhite(S(), o) && NewlyFrom(s, S(), o)
      decreases |Whites(S())|, 3
    {
      ghost var m := heap[o].marks;
      RecolouredMarkable(s, o, m);
      var v := ValueOf(o);
      if v.Ref? {
        UpvalueHolds(s, o, v.id);
      }
      MarkValue(v);
      ghost var s2 := S();
      assert ColourStep(Recoloured(s, o, m), s2, o);
      if heap[o].body.Closed? {
        SetMarks(o, Gray2Black(heap[o].marks));
      }
      UpvalueMarked(s, m, s2, S(), o, v);
    }

    method ValueOf(u: Id) returns (v: Value)
      requires u in heap && heap[u].kind == UPVAL && AllProper(S()) && ThreadsOk(S())
      ensures v == UpvalueValue(S(), u)
    {
      if heap[u].body.Closed? {
        return heap[u].body.value;
      }
      var t := heap[u].body.thread;
      OpenSlot(S(), u);
      return heap[t].body.slots[heap[u].body.slot];
    }

    // ---- propagation ----

    // traversestack: slots that are not in use are set to nil.
    method TraverseStack(t: Id)
      requires Markable(S()) && t in heap && heap[t].kind == THREAD && !IsWhite(heap[t].marks)
      modifies `heap, `gray
      ensures t in heap && heap[t].kind == THREAD
      ensures exists s2 :: TraversedBy(old(S()), s2, S(), t)
    {
      ghost var s := S();
      var body := heap[t].body;
      assert Proper(s.heap[t]);
      forall b | Ref(b) in Contents(body)
        ensures b in heap
      {
        ContentsPoint(s, t, b);
        PointsHolds(s, t, b);
        assert !DeadIn(s, t) && Alive(s, b);
      }
      MarkRefs([body.globals] + body.slots[..body.top]);
      ghost var s2 := S();
      assert ColourStep(s, s2, t);
      heap := heap[t := heap[t].(body := Cleared(heap[t].body))];
      assert TraversedBy(s, s2, S(), t);
    }

    // propagatemark: the first gray object is traversed.
    method PropagateMark()
      requires Tricolour(S()) && gray != []
      modifies `heap, `gray, `grayagain
      ensures Tricolour(S()) && Spreads(old(S()), S())
      ensures |Whites(S())| < |Whites(old(S()))| || (|Whites(S())| == |Whites(old(S()))| && |gray| < |old(gray)|)
      ensures AgainDone(old(S())) ==> AgainDone(S())
      ensures Grounded(old(S())) ==> Grounded(S())
    {
      hide AgainDone, Grounded, Spreads, ThreadsOk, RootListOk;
      ghost var s := S();
      var o := gray[0];
      PoppedTricolour(s);
      assert Proper(s.heap[o]);
      if heap[o].kind == THREAD {
        gray, grayagain := gray[1..], [o] + grayagain;
        TraverseStack(o);
        ghost var s2 :| TraversedBy(Popped(s), s2, S(), o);
        Progress(s, Popped(s), s2);
        ClearedWhites(s2, o);
        Propagated(s, s2, S(), o);
      } else {
        SetMarks(o, Gray2Black(heap[o].marks));
        gray := gray[1..];
        ghost var s1 := S();
        var refs := heap[o].body.refs;
        forall b | Ref(b) in refs
          ensures b in heap
        {
          assert Holds(s, o, b) && !DeadIn(s, o) && Alive(s, b);
        }
        MarkRefs(refs);
        Progress(s, s1, S());
        Propagated(s, S(), S(), o);
      }
    }

    method PropagateAll()
      requires Tricolour(S())
      modifies `heap, `gray, `grayagain
      ensures Tricolour(S()) && Spreads(old(S()), S()) && gray == []
      ensures AgainDone(old(S())) ==> AgainDone(S())
      ensures Grounded(old(S())) ==> Grounded(S())
    {
      ghost var s := S();
      SpreadsSelf(s);
      while gray != []
        invariant Tricolour(S()) && Spreads(s, S())
        invariant AgainDone(s) ==> AgainDone(S())
        invariant Grounded(s) ==> Grounded(S())
        decreases |Whites(S())|, |gray|
      {
        ghost var s1 := S();
        PropagateMark();
        SpreadsTrans(s, s1, S());
      }
    }

    // ---- the ends of the mark phase ----

    // Root values are marked.
    method MarkRootValues(refs: seq<Value>)
      requires Tricolour(S()) && forall b :: Ref(b) in refs ==> IsRoot(S(), b) || (main in heap && Points(S(), main, b))
      modifies `heap, `gray
      ensures Tricolour(S()) && Spreads(old(S()), S()) && forall b :: Ref(b) in refs ==> NonWhite(S(), b)
      ensures Grounded(old(S())) ==> Grounded(S())
    {
      ghost var s := S();
      forall b | Ref(b) in refs
        ensures b in heap && Reachable(s, b)
      {
        if IsRoot(s, b) {
          assert Alive(s, b);
          RootReachable(s, b);
        } else {
          PointsHolds(s, main, b);
          assert !DeadIn(s, main) && Alive(s, b);
          ReachableSelf(s, main);
          ReachableStep(s, main, main, b);
          assert IsRoot(s, main);
        }
      }
      MarkRefs(refs);
      MarkedTricolour(s, S());
      if Grounded(s) {
        GroundedRefs(s, S(), refs);
      }
    }

    // The main thread, its global table, the registry and the metatables of the basic types
    method MarkRootSet()
      requires Tricolour(S())
      modifies `heap, `gray
      ensures Tricolour(S()) && Spreads(old(S()), S()) && RootsMarked(S())
      ensures Grounded(old(S())) ==> Grounded(S())
    {
      assert Proper(heap[main]);
      var refs := [Ref(main), heap[main].body.globals, registry] + mt;
      MarkRootValues(refs);
      assert refs[0] in refs && refs[2] in refs;
    }

    // markroot
    method MarkRoot()
      requires Base(S(), hash) && AllWhite(S())
      modifies `heap, `gray, `grayagain, `phase
      ensures Inv(S(), hash) && phase == GCSpropagate && Grounded(S())
      ensures Spreads(Unmarked(old(S())), S())
    {
      hide ThreadsOk, RootListOk, StringsOk;
      UnmarkedTricolour(S(), hash);
      UnmarkedBase(S(), hash);
      gray, grayagain, phase := [], [], GCSpropagate;
      MarkRootSet();
      SpreadsKeepsBase(Unmarked(old(S())), S(), hash);
    }

    method RemarkUpval(u: Id)
      requires Tricolour(S()) && u in heap && heap[u].body.Open?
      modifies `heap, `gray
      ensures Tricolour(S()) && Spreads(old(S()), S()) && UpvalsDoneIn(S(), [u])
      ensures Grounded(old(S())) ==> Grounded(S())
    {
      hide ValueMarked, Grounded;
      ghost var s := S();
      assert Proper(heap[u]);
      SpreadsSelf(s);
      if IsGray(heap[u].marks) {
        var v := ValueOf(u);
        GrayUpvalue(s, u, v);
        MarkValue(v);
        MarkedTricolour(s, S());
        if Grounded(s) {
          GroundedRefs(s, S(), [v]);
        }
        RemarkedOne(s, S(), u, v);
      }
    }

    // remarkupvals: the values of marked open upvalues, whose threads may be dead
    method RemarkUpvals()
      requires Tricolour(S())
      modifies `heap, `gray
      ensures Tricolour(S()) && Spreads(old(S()), S()) && UpvalsDoneIn(S(), uvhead)
      ensures Grounded(old(S())) ==> Grounded(S())
    {
      ghost var s := S();
      var ups := uvhead;
      SpreadsSelf(s);
      var i := 0;
      while i < |ups|
        invariant 0 <= i <= |ups|
        invariant Tricolour(S()) && Spreads(s, S()) && UpvalsDoneIn(S(), ups[..i])
        invariant Grounded(s) ==> Grounded(S())
      {
        ghost var s1 := S();
        assert ups[i] in uvhead;
        RemarkUpval(ups[i]);
        SpreadsTrans(s, s1, S());
        RemarkedMore(s1, S(), ups, i);
        i := i + 1;
      }
      assert ups[..i] == ups;
    }

    // What the write barriers and remarkupvals have caught, and the roots that have no barrier
    method MarkRest()
      requires Tricolour(S())
      modifies `heap, `gray, `grayagain
      ensures Tricolour(S()) && Spreads(old(S()), S()) && UpvalsDoneIn(S(), uvhead) && gray == []
      ensures forall b :: Ref(b) in [Ref(running)] + mt ==> NonWhite(S(), b)
      ensures Grounded(old(S())) ==> Grounded(S())
    {
      hide Spreads, Grounded, UpvalsDoneIn, Marked, AgainDone;
      ghost var s, ups := S(), uvhead;
      RemarkUpvals();
      ghost var s1 := S();
      PropagateAll();
      ghost var s2 := S();
      MarkRootValues([Ref(running)] + mt);
      ghost var s3 := S();
      PropagateAll();
      RestSpreads(s, s1, s2, s3, S(), ups, [Ref(running)] + mt);
    }

    // Threads, and tables that a barrier has turned gray, once more
    method VisitAgain()
      requires Tricolour(S()) && gray == [] && UpvalsDoneIn(S(), uvhead)
      modifies `heap, `gray, `grayagain
      ensures Tricolour(S()) && Spreads(old(S()), S()) && MarkedClosed(S())
      ensures Grounded(old(S())) ==> Grounded(S())
    {
      ghost var s, ups := S(), uvhead;
      AgainAgain(s);
      gray, grayagain := grayagain, [];
      ghost var s1 := S();
      PropagateAll();
      SpreadsSelf(s);
      AgainSpreads(s, s, S());
      SpreadsKeepsUpvalsIn(s1, S(), ups);
      AllDone(S());
    }

    // The mark phase comes to an end without interruption: nothing white can be reached any more.
    method FinishMarking()
      requires Tricolour(S()) && RootsMarked(S())
      modifies `heap, `gray, `grayagain
      ensures Tricolour(S()) && Spreads(old(S()), S()) && MarkedClosed(S()) && AllRootsMarked(S())
      ensures Grounded(old(S())) ==> Grounded(S())
    {
      ghost var s := S();
      MarkRest();
      ghost var s1 := S();
      VisitAgain();
      SpreadsTrans(s, s1, S());
      SpreadsKeepsMarked(s, S());
      forall b | IsRoot(S(), b)
        ensures NonWhite(S(), b)
      {
        if b == running || Ref(b) in mt {
          assert ([Ref(running)] + mt)[0] == Ref(running);
          assert Ref(b) in [Ref(running)] + mt && NonWhite(s1, b);
          assert SpreadStep(s1, S(), b);
        }
      }
    }

    method Flip()
      requires Base(S(), hash) && NoneDead(S()) && MarkedClosed(S()) && AllRootsMarked(S())
      modifies `white, `phase, `sweepstr, `sweep
      ensures S() == Flipped(old(S())) && Inv(S(), hash)
    {
      hide Base, Inv, NoneDead, MarkedClosed, AllRootsMarked;
      FlippedInv(S(), hash);
      white := !white;
      sweepstr, sweep, phase := 0, 0, GCSsweepstring;
    }

    method Atomic()
      requires Inv(S(), hash) && phase == GCSpropagate && gray == []
      modifies `heap, `gray, `grayagain, `white, `phase, `sweepstr, `sweep
      ensures Inv(S(), hash) && Finishes(old(S()), S())
    {
      ghost var s := S();
      InvTricolour(s, hash);
      FinishMarking();
      ghost var s' := S();
      SpreadsKeepsBase(s, s', hash);
      Flip();
      assert Spreads(s, s');
    }

    // ---- sweeping ----

    // One open upvalue of t: freed, or white again and passed.
    method SweepUpval(t: Id, j: nat) returns (next: nat)
      requires Base(S(), hash) && t in heap && heap[t].body.Stack? && j < |heap[t].body.openupval|
      modifies `heap, `uvhead
      ensures Base(S(), hash) && Sweeps(old(S()), S()) && SameThread(old(S()), S(), t)
      ensures
        || (next == j + 1 && heap[t].body == old(heap)[t].body && uvhead == old(uvhead) &&
          heap[t].body.openupval[j] in heap
            && CurrentWhite(S(), heap[t].body.openupval[j]))
        || (next == j && heap[t].body.openupval == RemoveAt(old(heap)[t].body.openupval, j) && |uvhead| < |old(uvhead)|)
    {
      hide Base, Sweeps;
      ghost var s := S();
      var u := heap[t].body.openupval[j];
      OpenUpvalue(s, t, j, hash);
      if IsDead(heap[u].marks, white) {
        FreedUpvalueBase(s, t, j, hash);
        FreedUpvalueSweeps(s, t, j);
        WithoutLength(uvhead, u);
        FreeUpvalue(t, j);
        return j;
      } else {
        WhitenedBase(s, u, hash);
        WhitenedSweeps(s, u);
        SetMarks(u, MakeWhite(heap[u].marks, white));
        return j + 1;
      }
    }

    // sweepwholelist on the open upvalues of a thread
    method SweepUpvals(t: Id)
      requires Base(S(), hash) && t in heap && heap[t].body.Stack?
      modifies `heap, `uvhead
      ensures Base(S(), hash) && Sweeps(old(S()), S()) && SameThread(old(S()), S(), t)
      ensures forall u :: u in heap[t].body.openupval ==> u in heap && CurrentWhite(S(), u)
      ensures |uvhead| <= |old(uvhead)|
    {
      hide Base, Sweeps;
      ghost var s := S();
      SweepsSelf(s);
      var j := 0;
      while j < |heap[t].body.openupval|
        invariant SameThread(s, S(), t) && Base(S(), hash) && Sweeps(s, S()) && 0 <= j <= |heap[t].body.openupval|
        invariant WhiteUpvals(S(), t, j)
        invariant |uvhead| <= |s.uvhead|
        decreases |heap[t].body.openupval| - j
      {
        ghost var s1, j1 := S(), j;
        j := SweepUpval(t, j);
        SweepsTrans(s, s1, S(), hash);
        WhiteUpvalsStay(s1, S(), t, j1, j);
      }
    }

    // luaF_freeupval
    method FreeUpvalue(t: Id, j: nat)
      requires t in heap && heap[t].body.Stack? && j < |heap[t].body.openupval| && heap[t].body.openupval[j] != t
      modifies `heap, `uvhead
      ensures S() == FreedUpvalue(old(S()), t, j)
    {
      var ups := heap[t].body.openupval;
      uvhead := Without(uvhead, ups[j]);
      heap := heap[t := heap[t].(body := heap[t].body.(openupval := RemoveAt(ups, j)))];
      heap := heap - {ups[j]};
    }

    // The body of the loop of luaF_close, up to the colour of the closed upvalue
    method CloseHead(t: Id)
      requires Base(S(), hash) && t in heap && heap[t].body.Stack? && |heap[t].body.openupval| > 0
      modifies `heap, `uvhead, `rootgc, `sweep
      ensures HeadUpvalue(old(S()), t) && S() == ClosedUpvalue(old(S()), t)
      ensures |uvhead| < |old(uvhead)|
    {
      OpenUpvalue(S(), t, 0, hash);
      ClosedUpvalueShape(S(), t, hash);
      var u := heap[t].body.openupval[0];
      var v := ValueOf(u);
      WithoutLength(uvhead, u);
      MoveUpvalue(t, u, v);
    }

    method MoveUpvalue(t: Id, u: Id, v: Value)
      requires t in heap && heap[t].body.Stack? && |heap[t].body.openupval| > 0 && HeadUpvalue(S(), t)
      requires u == heap[t].body.openupval[0] && v == UpvalueValue(S(), u)
      modifies `heap, `uvhead, `rootgc, `sweep
      ensures S() == ClosedUpvalue(old(S()), t)
    {
      uvhead := Without(uvhead, u);
      heap := heap[t := heap[t].(body := heap[t].body.(openupval := RemoveAt(heap[t].body.openupval, 0)))];
      heap := heap[u := heap[u].(body := Closed(v))];
      rootgc := [u] + rootgc;
      sweep := if sweep == 0 then 0 else sweep + 1;
    }

    // luaE_freethread closes the upvalues that the sweep has left; they are white, so that
    // luaC_linkupval has no colour to settle.
    method CloseDying(t: Id)
      requires Base(S(), hash) && FrontSwept(S()) && t in heap && heap[t].body.Stack?
      requires DeadIn(S(), t) && forall u :: u in heap[t].body.openupval ==> u in heap && CurrentWhite(S(), u)
      modifies `heap, `uvhead, `rootgc, `sweep
      ensures Base(S(), hash) && FrontSwept(S()) && Sweeps(old(S()), S()) && SameThread(old(S()), S(), t)
      ensures heap[t].body.openupval == []
      ensures |uvhead| < |old(uvhead)| || S() == old(S())
      decreases |heap[t].body.openupval|
    {
      ghost var s := S();
      SweepsSelf(s);
      if heap[t].body.openupval != [] {
        FrontClosed(s, t, hash);
        CloseHead(t);
        ghost var s1 := S();
        ClosedRest(s, s1, t);
        CloseDying(t);
        SweepsTrans(s, s1, S(), hash);
      }
    }

    // One object of rootgc
    method SweepOne()
      requires Base(S(), hash) && FrontSwept(S()) && sweep < |rootgc|
      modifies `heap, `uvhead, `rootgc, `sweep
      ensures Base(S(), hash) && FrontSwept(S()) && Sweeps(old(S()), S())
      ensures |uvhead| < |old(uvhead)| || (|uvhead| == |old(uvhead)| && |rootgc| - sweep < |old(rootgc)| - old(sweep))
    {
      ghost var s := S();
      var curr := rootgc[sweep];
      assert curr in rootgc && Proper(heap[curr]);
      SweepsSelf(s);
      if heap[curr].kind == THREAD {
        SweepUpvals(curr);
        FrontStays(s, S());
      }
      ghost var s1 := S();
      SweepCurrent(curr);
      SweepsTrans(s, s1, S(), hash);
    }

    method PassCurrent()
      requires sweep < |rootgc| && rootgc[sweep] in heap
      modifies `heap, `sweep
      ensures S() == Passed(old(S()))
    {
      SetMarks(rootgc[sweep], MakeWhite(heap[rootgc[sweep]].marks, white));
      sweep := sweep + 1;
    }

    method SweepCurrent(curr: Id)
      requires Base(S(), hash) && FrontSwept(S()) && sweep < |rootgc| && curr == rootgc[sweep] && curr in heap
      requires heap[curr].body.Stack? ==> forall u :: u in heap[curr].body.openupval ==>
               u in heap && CurrentWhite(S(), u)
      modifies `heap, `uvhead, `rootgc, `sweep
      ensures Base(S(), hash) && FrontSwept(S()) && Sweeps(old(S()), S())
      ensures |uvhead| < |old(uvhead)| || (uvhead == old(uvhead) && |rootgc| - sweep < |old(rootgc)| - old(sweep))
    {
      if !IsDead(heap[curr].marks, white) || heap[curr].marks.fixed {
        PassedBase(S(), hash);
        PassedSweeps(S());
        FrontGrows(S());
        PassCurrent();
      } else {
        assert curr in rootgc;
        FreeObject(curr);
      }
    }

    // freeobj, and its removal from rootgc
    method FreeObject(a: Id)
      requires Base(S(), hash) && FrontSwept(S()) && a in heap && InRootList(heap[a]) && DeadIn(S(), a) &&
               !heap[a].marks.fixed
      requires heap[a].body.Stack? ==> forall u :: u in heap[a].body.openupval ==> u in heap && CurrentWhite(S(), u)
      modifies `heap, `uvhead, `rootgc, `sweep
      ensures Base(S(), hash) && FrontSwept(S()) && Sweeps(old(S()), S())
      ensures |uvhead| < |old(uvhead)| ||
              (uvhead == old(uvhead) && |rootgc| == |old(rootgc)| - 1 && sweep == old(sweep))
    {
      ghost var s := S();
      SweepsSelf(s);
      if heap[a].body.Stack? {
        CloseDying(a);
      }
      ghost var s1 := S();
      FrontFreed(s1, a, hash);
      RemoveRoot(a);
      SweepsTrans(s, s1, S(), hash);
    }

    method RemoveRoot(a: Id)
      modifies `heap, `rootgc
      ensures S() == FreedObject(old(S()), a)
    {
      heap := heap - {a};
      rootgc := Without(rootgc, a);
    }

    method SweepList(count: nat)
      requires Base(S(), hash) && FrontSwept(S())
      modifies `heap, `uvhead, `rootgc, `sweep
      ensures Base(S(), hash) && FrontSwept(S()) && Sweeps(old(S()), S())
      ensures count > 0 && old(sweep) < |old(rootgc)| ==>
        |uvhead| < |old(uvhead)| || (|uvhead| == |old(uvhead)| && |rootgc| - sweep < |old(rootgc)| - old(sweep))
      ensures old(sweep) >= |old(rootgc)| ==> S() == old(S())
    {
      ghost var s := S();
      SweepsSelf(s);
      var n := count;
      while sweep < |rootgc| && n > 0
        invariant Base(S(), hash) && FrontSwept(S()) && Sweeps(s, S())
        invariant |uvhead| <= |s.uvhead| && (|uvhead| == |s.uvhead| ==> |rootgc| - sweep <= |s.rootgc| - s.sweep)
        invariant n == count || |uvhead| < |s.uvhead| || |rootgc| - sweep < |s.rootgc| - s.sweep
        invariant s.sweep >= |s.rootgc| ==> S() == s
        decreases n
      {
        ghost var s1 := S();
        SweepOne();
        SweepsTrans(s, s1, S(), hash);
        n := n - 1;
      }
    }

    // freeobj on a string
    method FreeString(i: nat, j: nat)
      requires i < |strt| && j < |strt[i]| && nuse > 0
      modifies `heap, `strt, `nuse
      ensures S() == FreedString(old(S()), i, j)
    {
      heap := heap - {strt[i][j]};
      strt := strt[i := RemoveAt(strt[i], j)];
      nuse := nuse - 1;
    }

    method SweepString(i: nat, j: nat) returns (next: nat)
      requires Base(S(), hash) && i < |strt| && j < |strt[i]|
      modifies `heap, `strt, `nuse
      ensures Base(S(), hash) && Sweeps(old(S()), S()) && StringStep(old(S()), S(), i, j, next)
    {
      var a := strt[i][j];
      StringHere(S(), i, j, hash);
      hide Base, Sweeps, StringStep;
      if !IsDead(heap[a].marks, white) || heap[a].marks.fixed {
        StringPassed(S(), i, j, hash);
        SetMarks(a, MakeWhite(heap[a].marks, white));
        return j + 1;
      } else {
        StringFreed(S(), i, j, hash);
        FreeString(i, j);
        return j;
      }
    }

    // sweepwholelist on a bucket of the string table
    method SweepBucket(i: nat)
      requires Base(S(), hash) && i < |strt| && Swept(S(), i)
      modifies `heap, `strt, `nuse
      ensures Base(S(), hash) && Sweeps(old(S()), S()) && Swept(S(), i + 1) && |strt| == |old(strt)|
    {
      hide Base, Sweeps;
      ghost var s := S();
      SweepsSelf(s);
      var j := 0;
      while j < |strt[i]|
        invariant |strt| == |s.strt| && 0 <= j <= |strt[i]|
        invariant Base(S(), hash) && Sweeps(s, S()) && Swept(S(), i) && BucketWhite(S(), i, j)
        decreases |strt[i]| - j
      {
        ghost var s1, j1 := S(), j;
        j := SweepString(i, j);
        SweepsTrans(s, s1, S(), hash);
        BucketWhiteStays(s1, S(), i, j1, j);
        BucketsStay(s1, S(), i);
      }
      BucketDone(S(), i);
    }

    // ---- the string table ----

    // luaS_resize: every string is chained anew.  Buckets that are being swept are left alone.
    method Resize(newsize: nat)
      requires Base(S(), hash) && newsize > 0
      modifies `strt
      ensures phase == GCSsweepstring ==> strt == old(strt)
      ensures phase != GCSsweepstring ==> |strt| == newsize
      ensures Base(S(), hash) && S() == old(S()).(strt := strt)
      ensures old(Inv(S(), hash)) ==> Inv(S(), hash)
    {
      if phase == GCSsweepstring {
        return;
      }
      ghost var s := S();
      var newhash := Rehash(newsize);
      RehashEnd(s, hash, newhash);
      ResizedBase(s, newhash, hash);
      if Inv(s, hash) {
        ResizedPhase(s, newhash, hash);
      }
      strt := newhash;
    }

    method Rehash(newsize: nat) returns (newhash: seq<seq<Id>>)
      requires StringsOk(S(), hash) && newsize > 0
      ensures Rehashed(S(), hash, newhash, |strt|, 0) && |newhash| == newsize
    {
      newhash := EmptyBuckets(newsize);
      RehashStart(S(), hash, newsize);
      var i := 0;
      while i < |strt|
        invariant 0 <= i <= |strt| && |newhash| == newsize && Rehashed(S(), hash, newhash, i, 0)
      {
        newhash := RehashBucket(newhash, i);
        i := i + 1;
      }
    }

    // The strings of one old bucket move to their new ones.
    method RehashBucket(buckets: seq<seq<Id>>, i: nat) returns (newhash: seq<seq<Id>>)
      requires StringsOk(S(), hash) && i < |strt| && Rehashed(S(), hash, buckets, i, 0)
      ensures Rehashed(S(), hash, newhash, i + 1, 0) && |newhash| == |buckets|
    {
      newhash := buckets;
      var j := 0;
      while j < |strt[i]|
        invariant 0 <= j <= |strt[i]| && |newhash| == |buckets| && Rehashed(S(), hash, newhash, i, j)
      {
        RehashStep(S(), hash, newhash, i, j);
        var p := strt[i][j];
        var h := hash(heap[p].body.content) % |newhash|;
        newhash := newhash[h := [p] + newhash[h]];
        j := j + 1;
      }
      RehashNext(S(), hash, newhash, i);
    }

    // checkSizes
    method CheckSizes()
      requires Base(S(), hash)
      modifies `strt
      ensures Base(S(), hash) && S() == old(S()).(strt := strt)
      ensures phase == GCSsweepstring ==> strt == old(strt)
      ensures phase != GCSsweepstring ==>
                |strt| == if 4 * (nuse + 1) <= |old(strt)| && |old(strt)| > 64 then |old(strt)| / 2 else |old(strt)|
    {
      if nuse < |strt| / 4 && |strt| > MINSTRTABSIZE * 2 {
        Resize(|strt| / 2);
      }
    }

    // ---- singlestep ----

    method StepPropagate()
      requires Inv(S(), hash) && phase == GCSpropagate
      modifies `heap, `gray, `grayagain, `white, `phase, `sweepstr, `sweep
      ensures Inv(S(), hash) && Advances(old(S()), S())
    {
      ghost var s := S();
      InvTricolour(s, hash);
      if gray != [] {
        PropagateMark();
        PropagateAdvances(s, S());
        SpreadsKeepsBase(s, S(), hash);
        SpreadsKeepsMarked(s, S());
      } else {
        Atomic();
        FinishedAtomic(s, S(), hash);
      }
    }

    method StepSweepString()
      requires Inv(S(), hash) && phase == GCSsweepstring
      modifies `heap, `strt, `nuse, `sweepstr, `phase
      ensures Inv(S(), hash) && Advances(old(S()), S())
    {
      hide Base, Sweeps, Advances;
      ghost var s := S();
      SweepBucket(sweepstr);
      ghost var s1 := S();
      sweepstr := sweepstr + 1;
      if sweepstr >= |strt| {
        phase := GCSsweep;
      }
      Repositioned(s1, S(), hash);
      SweepsTrans(s, s1, S(), hash);
      SweptMoved(s1, S(), s1.sweepstr + 1);
      SweepAdvances(s, S(), hash);
    }

    method StepSweep()
      requires Inv(S(), hash) && phase == GCSsweep
      modifies `heap, `uvhead, `rootgc, `sweep, `strt, `phase
      ensures Inv(S(), hash) && Advances(old(S()), S())
    {
      hide Base, Sweeps, Advances;
      ghost var s := S();
      SweepBound(s, hash);
      SweepSome();
      ghost var s1 := S();
      if sweep == |rootgc| {
        AllSwept(s1, hash);
        CheckSizes();
        ghost var s2 := S();
        phase := GCSfinalize;
        SameHeapStrings(s2, S(), hash);
        SameHeapBase(s2, S(), hash);
        EndOfSweep(s, s1, S(), hash);
      }
      SweepAdvances(s, S(), hash);
    }

    method SweepSome()
      requires Base(S(), hash) && Swept(S(), |strt|)
      modifies `heap, `uvhead, `rootgc, `sweep
      ensures Base(S(), hash) && Swept(S(), |strt|) && Sweeps(old(S()), S())
      ensures old(sweep) < |old(rootgc)| ==>
        |uvhead| < |old(uvhead)| || (|uvhead| == |old(uvhead)| && |rootgc| - sweep < |old(rootgc)| - old(sweep))
      ensures old(sweep) >= |old(rootgc)| ==> S() == old(S())
    {
      ghost var s := S();
      SweepList(GCSWEEPMAX);
      BucketsSwept(s, S());
    }

    method StepFinalize()
      requires Inv(S(), hash) && phase == GCSfinalize
      modifies `phase
      ensures Inv(S(), hash) && Advances(old(S()), S())
    {
      ghost var s := S();
      phase := GCSpause;
      Repositioned(s, S(), hash);
      SweepAdvances(s, S(), hash);
    }

    method SingleStep()
      requires Inv(S(), hash)
      modifies this
      ensures Inv(S(), hash) && Advances(old(S()), S())
    {
      match phase
      case GCSpause =>
        MarkRoot();
        StartAdvances(old(S()), S(), hash);
      case GCSpropagate => StepPropagate();
      case GCSsweepstring => StepSweepString();
      case GCSsweep => StepSweep();
      case GCSfinalize => StepFinalize();
    }

    // ---- luaC_fullgc ----

    // The sweep that is under way comes to its end: everything is white then.
    method FinishSweep()
      requires Inv(S(), hash) && phase != GCSpause && phase != GCSpropagate
      modifies this
      ensures Inv(S(), hash) && Preserved(old(S()), S()) && phase == GCSfinalize
    {
      ghost var s := S();
      PreservedSelf(s);
      while phase != GCSfinalize
        invariant Inv(S(), hash) && Preserved(s, S()) && phase != GCSpause && phase != GCSpropagate
        decreases Rank(phase), Outer(S()), Inner(S())
      {
        ghost var s1 := S();
        SingleStep();
        PreservedTrans(s, s1, S());
      }
    }

    // A step of a collection that has retained nothing
    method Onward(ghost s: State)
      requires Inv(S(), hash) && Preserved(s, S()) && Tight(S()) && phase != GCSpause
      modifies this
      ensures Inv(S(), hash) && Preserved(s, S()) && Tight(S()) && Nearer(old(S()), S())
    {
      ghost var s1 := S();
      SingleStep();
      PreservedTrans(s, s1, S());
    }

    // A collection in one go retains nothing that cannot be reached when it starts.
    method WholeCycle()
      requires Inv(S(), hash) && phase == GCSpropagate && Grounded(S())
      modifies this
      ensures Inv(S(), hash) && Preserved(old(S()), S()) && phase == GCSpause && Exact(S())
    {
      ghost var s := S();
      PreservedSelf(s);
      while phase != GCSpause
        invariant Inv(S(), hash) && Preserved(s, S()) && Tight(S())
        decreases Rank(phase), Outer(S()), Inner(S())
      {
        Onward(s);
      }
    }

    method AbandonMarks()
      modifies `sweepstr, `sweep, `gray, `grayagain, `phase
      ensures S() == Abandoned(old(S()))
    {
      sweepstr, sweep := 0, 0;
      gray, grayagain := [], [];
      phase := GCSsweepstring;
    }

    // Whatever the phase it finds, a full collection terminates and leaves, all of them white, the objects
    // that can be reached and the fixed ones.
    method FullGC()
      requires Inv(S(), hash)
      modifies this
      ensures Inv(S(), hash) && Preserved(old(S()), S()) && phase == GCSpause
      ensures AllWhite(S()) && OnlySurvivors(old(S()), S())
    {
      hide Inv, Base, Preserved, AllWhite, Exact, OnlySurvivors, Spreads, Grounded;
      ghost var s := S();
      InvLive(s, hash);
      PreservedSelf(s);
      if phase == GCSpause || phase == GCSpropagate {
        AbandonedInv(s, hash);
        AbandonMarks();
      }
      ghost var s1 := S();
      FinishSweep();
      ghost var s2 := S();
      RestWhite(s2, hash);
      PreservedTrans(s, s1, s2);
      MarkRoot();
      ghost var s3 := S();
      StartPreserved(s2, s3, hash);
      PreservedTrans(s, s2, s3);
      WholeCycle();
      PreservedTrans(s, s3, S());
      RestWhite(S(), hash);
      Survivors(s, S());
    }

    // ---- upvalues (lfunc.c) ----

    // The body of the loop of luaF_close, with luaC_linkupval
    method CloseUpval(t: Id)
      requires Inv(S(), hash) && t in heap && heap[t].body.Stack? && |heap[t].body.openupval| > 0
      modifies `heap, `uvhead, `rootgc, `sweep, `gray
      ensures Inv(S(), hash) && Closes(old(S()), S(), t, 1)
    {
      ghost var s := S();
      var u := heap[t].body.openupval[0];
      OpenUpvalue(s, t, 0, hash);
      assert Proper(heap[u]);
      if IsDead(heap[u].marks, white) {
        FreedUpvalueInv(s, t, hash);
        FreedClosesOne(s, t, hash);
        FreeUpvalue(t, 0);
      } else if !IsGray(heap[u].marks) {
        ClosedWhiteInv(s, t, hash);
        ClosedClosesOne(s, t, hash);
        CloseHead(t);
      } else {
        CloseGray(t, u);
      }
    }

    method CloseGray(t: Id, u: Id)
      requires Inv(S(), hash) && t in heap && heap[t].body.Stack? && |heap[t].body.openupval| > 0
      requires u == heap[t].body.openupval[0] && u in heap && IsGray(heap[u].marks)
      modifies `heap, `uvhead, `rootgc, `sweep, `gray
      ensures Inv(S(), hash) && Closes(old(S()), S(), t, 1)
    {
      ghost var s := S();
      GrayOnlyWhen(s, u);
      if phase == GCSpropagate {
        CloseAndMark(t, u);
      } else {
        ClosedClosesOne(s, t, hash);
        ClosedGrayInSweep(s, t, hash);
        CloseHead(t);
        WhitenedClosesOne(s, S(), t, u);
        SetMarks(u, MakeWhite(heap[u].marks, white));
      }
    }

    // The upvalue turns black as it is closed, so that its value must be marked.
    method CloseAndMark(t: Id, u: Id)
      requires Inv(S(), hash) && phase == GCSpropagate && t in heap && heap[t].body.Stack? &&
               |heap[t].body.openupval| > 0
      requires u == heap[t].body.openupval[0] && u in heap && IsGray(heap[u].marks)
      modifies `heap, `uvhead, `rootgc, `sweep, `gray
      ensures Inv(S(), hash) && Closes(old(S()), S(), t, 1)
    {
      ghost var s := S();
      ClosedBlackBase(s, t, hash);
      ClosedClosesOne(s, t, hash);
      CloseHead(t);
      SetMarks(u, Gray2Black(heap[u].marks));
      var v := heap[u].body.value;
      AliveIn(S(), u, v);
      MarkValue(v);
      ClosedBlackInv(s, t, S(), hash);
      MarkedClosesOne(s, S(), t);
    }

    // luaF_close: exactly the open upvalues at or above level are closed, or freed if they are dead.
    method Close(t: Id, level: nat)
      requires Inv(S(), hash) && t in heap && heap[t].body.Stack?
      modifies `heap, `uvhead, `rootgc, `sweep, `gray
      ensures Inv(S(), hash) && t in heap && heap[t].body.Stack? && Below(S(), t, level)
      ensures ClosesFrom(old(S()), S(), t, level)
    {
      ghost var s := S();
      ghost var k := 0;
      ClosesNone(s, t, level, hash);
      while heap[t].body.openupval != [] && heap[heap[t].body.openupval[0]].body.slot >= level
        invariant Inv(S(), hash) && ClosesSome(s, S(), t, level, k) && TopIsOpen(S(), t)
        decreases |heap[t].body.openupval|
      {
        ghost var s1 := S();
        CloseUpval(t);
        ClosesMore(s, s1, S(), t, level, k);
        TopOpen(S(), t);
        k := k + 1;
      }
      ClosesAll(s, S(), t, level, k);
    }
  }
}
