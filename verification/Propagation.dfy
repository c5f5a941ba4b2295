// The propagation of marks: the invariant it keeps, and what it has achieved at the end.
module Propagation {
  import opened Objects
  import opened Marking

  // Everything that holds while marks are being propagated
  ghost predicate Tricolour(s: State) {
    Markable(s) && GrayOk(s) && BlackOk(s, {})
  }

  // traversestack sets the slots that are not in use to nil.
  function Cleared(b: Body): Body
    requires b.Stack? && b.top <= |b.slots|
  {
    b.(slots := b.slots[..b.top] + seq(|b.slots| - b.top, _ => Nil))
  }

  ghost predicate SpreadStep(s: State, s': State, a: Id)
    requires a in s.heap && a in s'.heap
  {
    var o, o' := s.heap[a], s'.heap[a];
    && o'.kind == o.kind && o'.marks.fixed == o.marks.fixed
    && (o'.body == o.body || (o.body.Stack? && o.body.top <= |o.body.slots| && o'.body == Cleared(o.body)))
    && (!IsWhite(o.marks) ==> !IsWhite(o'.marks))
    && (IsWhite(o'.marks) ==> o'.marks == o.marks)
    && (Newly(s, s', a) ==> !DeadIn(s, a))
    && (Newly(s, s', a) && o.body.Open? ==> ValueMarked(s', a))
  }

  ghost predicate ValueMarked(s: State, u: Id)
    requires u in s.heap && s.heap[u].body.Open?
  {
    forall b :: Holds(s, u, b) ==> NonWhite(s, b)
  }

  // s' comes from s by marking and traversing.
  ghost predicate Spreads(s: State, s': State) {
    && s' == s.(heap := s'.heap, gray := s'.gray, grayagain := s'.grayagain)
    && s'.heap.Keys == s.heap.Keys
    && forall a {:trigger s'.heap[a]} :: a in s.heap ==> SpreadStep(s, s', a)
  }

  lemma SpreadsSelf(s: State)
    ensures Spreads(s, s)
  {
  }

  lemma SpreadHolds(s: State, s': State, a: Id, b: Id)
    requires Spreads(s, s') && Markable(s) && a in s.heap
    ensures Points(s', a, b) == Points(s, a, b)
    ensures Holds(s', a, b) ==> Holds(s, a, b)
    ensures s.heap[a].body.Open? ==> Holds(s', a, b) == Holds(s, a, b)
  {
    assert SpreadStep(s, s', a);
    if s.heap[a].body.Open? {
      OpenSlot(s, a);
      var t := s.heap[a].body.thread;
      assert SpreadStep(s, s', t);
    } else if s.heap[a].body.Stack? && Ref(b) in s'.heap[a].body.slots {
      var i :| 0 <= i < |s'.heap[a].body.slots| && s'.heap[a].body.slots[i] == Ref(b);
      assert s.heap[a].body.slots[i] == Ref(b);
    }
    if s.heap[a].body.Stack? {
      assert Proper(s.heap[a]);
      assert s'.heap[a].body.slots[..s.heap[a].body.top] == s.heap[a].body.slots[..s.heap[a].body.top];
    }
  }

  lemma SpreadsTrans(s0: State, s1: State, s2: State)
    requires Spreads(s0, s1) && Spreads(s1, s2) && Markable(s0) && Markable(s1)
    ensures Spreads(s0, s2)
  {
    hide Markable;
    forall a | a in s0.heap
      ensures SpreadStep(s0, s2, a)
    {
      assert SpreadStep(s0, s1, a) && SpreadStep(s1, s2, a);
      if Newly(s0, s1, a) && s0.heap[a].body.Open? {
        forall b | Holds(s2, a, b)
          ensures NonWhite(s2, b)
        {
          SpreadHolds(s1, s2, a, b);
          assert NonWhite(s1, b) && SpreadStep(s1, s2, b);
        }
      }
    }
  }

  lemma MarkedSpreads(s: State, s': State)
    requires Marked(s, s') && Markable(s)
    ensures Spreads(s, s')
  {
    MarkedKeepsProper(s, s');
    forall a | a in s.heap
      ensures SpreadStep(s, s', a)
    {
      assert ColourStep(s, s', a);
      if Newly(s, s', a) && s.heap[a].body.Open? {
        assert Proper(s.heap[a]);
        forall b | Holds(s', a, b)
          ensures NonWhite(s', b)
        {
          HoldsSame(s, s', a, b);
        }
      }
    }
  }

  lemma SpreadsSkeleton(s: State, s': State)
    requires Spreads(s, s')
    ensures SameSkeleton(s, s')
  {
    forall a | a in s.heap
      ensures SameFrame(s.heap[a], s'.heap[a])
    {
      assert SpreadStep(s, s', a);
    }
  }

  lemma ReachableSpreads(s: State, s': State, a: Id, b: Id)
    requires Spreads(s, s') && Markable(s)
    ensures ReachableFrom(s', a, b) == ReachableFrom(s, a, b)
  {
    if ReachableFrom(s, a, b) {
      var p :| IsChain(s, p) && p[0] == a && p[|p| - 1] == b;
      forall i | 0 <= i < |p| - 1
        ensures p[i] in s'.heap && Points(s', p[i], p[i + 1])
      {
        SpreadHolds(s, s', p[i], p[i + 1]);
      }
      assert IsChain(s', p);
    }
    if ReachableFrom(s', a, b) {
      var p :| IsChain(s', p) && p[0] == a && p[|p| - 1] == b;
      forall i | 0 <= i < |p| - 1
        ensures p[i] in s.heap && Points(s, p[i], p[i + 1])
      {
        assert p[i] in s'.heap;
        SpreadHolds(s, s', p[i], p[i + 1]);
      }
      assert IsChain(s, p);
    }
  }

  // ---- one step of propagation ----

  // o leaves the gray list: for good, or, a thread, to be visited again in the atomic phase.
  ghost function Popped(s: State): State
    requires |s.gray| > 0 && s.gray[0] in s.heap
  {
    var o := s.gray[0];
    if s.heap[o].kind == THREAD then s.(gray := s.gray[1..], grayagain := [o] + s.grayagain)
    else Recoloured(s, o, Gray2Black(s.heap[o].marks)).(gray := s.gray[1..])
  }

  lemma PoppedTricolour(s: State)
    requires Tricolour(s) && |s.gray| > 0
    ensures InLists(s, s.gray[0]) && s.gray[0] in s.heap
    ensures var s1 := Popped(s);
            Markable(s1) && GrayOk(s1) && BlackOk(s1, {s.gray[0]}) && SameBodies(s, s1) && Whites(s1) == Whites(s)
  {
    hide ThreadsOk, RootListOk, LiveClosed;
    var o := s.gray[0];
    assert InLists(s, o);
    assert Proper(s.heap[o]);
    var s1 := Popped(s);
    PoppedGray(s);
    if s.heap[o].kind != THREAD {
      RecolouredMarkable(s, o, Gray2Black(s.heap[o].marks));
      MarkableLists(Recoloured(s, o, Gray2Black(s.heap[o].marks)), s1);
    } else {
      MarkableLists(s, s1);
    }
    forall a, b | a in s1.heap && a != o && IsBlack(s1.heap[a].marks) && Holds(s1, a, b)
      ensures NonWhite(s1, b)
    {
      HoldsSame(s, s1, a, b);
      assert NonWhite(s, b);
    }
  }

  lemma MarkableLists(s: State, s': State)
    requires Markable(s) && s' == s.(gray := s'.gray, grayagain := s'.grayagain)
    ensures Markable(s')
  {
    SameBodiesSkeleton(s, s');
    ThreadsKept(s, s');
    forall a, b | a in s'.heap && Holds(s', a, b)
      ensures Alive(s', b)
    {
      HoldsSame(s, s', a, b);
      assert !DeadIn(s, a) && Alive(s, b);
    }
    forall b | IsRoot(s', b)
      ensures Alive(s', b)
    {
      assert IsRoot(s, b) && Alive(s, b);
    }
  }

  lemma PoppedGray(s: State)
    requires GrayOk(s) && AllProper(s) && |s.gray| > 0
    ensures InLists(s, s.gray[0]) && GrayOk(Popped(s))
  {
    var o, rest := s.gray[0], s.gray[1..];
    assert InLists(s, o);
    var s1 := Popped(s);
    assert s.gray == [o] + rest;
    var all := s.gray + s.grayagain;
    assert o !in rest && o !in s.grayagain by {
      assert all[0] == o;
      forall i | 0 <= i < |rest|
        ensures rest[i] != o
      {
        assert all[i + 1] == rest[i];
      }
      forall i | 0 <= i < |s.grayagain|
        ensures s.grayagain[i] != o
      {
        assert all[|s.gray| + i] == s.grayagain[i];
      }
    }
    assert forall a :: a in s.gray <==> a == o || a in rest;
    PartsNoDup(s.gray, s.grayagain);
    assert NoDup(rest);
    if s.heap[o].kind == THREAD {
      NoDupAppend([o], s.grayagain);
      assert forall a :: a in [o] + s.grayagain <==> a == o || a in s.grayagain;
      NoDupAppend(rest, [o] + s.grayagain);
    } else {
      NoDupAppend(rest, s.grayagain);
    }
  }

  lemma PartsNoDup<T>(p: seq<T>, q: seq<T>)
    requires NoDup(p + q)
    ensures NoDup(p) && NoDup(q) && forall x :: x in p ==> x !in q
  {
    forall i, j | 0 <= i < j < |p|
      ensures p[i] != p[j]
    {
      assert (p + q)[i] == p[i] && (p + q)[j] == p[j];
    }
    forall i, j | 0 <= i < j < |q|
      ensures q[i] != q[j]
    {
      assert (p + q)[|p| + i] == q[i] && (p + q)[|p| + j] == q[j];
    }
    forall i, j | 0 <= i < |p| && 0 <= j < |q|
      ensures p[i] != q[j]
    {
      assert (p + q)[i] == p[i] && (p + q)[|p| + j] == q[j];
    }
  }

  // All that o holds has been marked: it may be black.
  lemma TraversedTricolour(s1: State, s2: State, o: Id)
    requires Markable(s1) && GrayOk(s1) && BlackOk(s1, {o}) && Marked(s1, s2) && o in s1.heap
    requires IsBlack(s1.heap[o].marks) ==> forall b :: Holds(s1, o, b) ==> NonWhite(s2, b)
    requires !IsWhite(s1.heap[o].marks)
    ensures Tricolour(s2)
  {
    MarkedKeepsMarkable(s1, s2);
    MarkedKeepsColours(s1, s2, {o});
    assert ColourStep(s1, s2, o);
    forall a, b | a in s2.heap && IsBlack(s2.heap[a].marks) && Holds(s2, a, b)
      ensures NonWhite(s2, b)
    {
      HoldsSame(s1, s2, a, b);
    }
  }

  // Either something new has been marked or the gray list has become shorter.
  lemma Progress(s: State, s1: State, s2: State)
    requires |s.gray| > 0 && s.gray[0] in s.heap && s1 == Popped(s) && Whites(s1) == Whites(s) && Marked(s1, s2)
    ensures |Whites(s2)| < |Whites(s)| || (|Whites(s2)| == |Whites(s)| && |s2.gray| < |s.gray|)
  {
    FewerWhites(s1, s2);
    var added := s2.gray[..|s2.gray| - |s1.gray|];
    if added != [] {
      var a := added[0];
      assert a in added && Newly(s1, s2, a);
      assert a in Whites(s1) && a !in Whites(s2);
      SubsetSize(Whites(s2), Whites(s1) - {a});
    }
  }

  // ---- the slots of a thread ----

  ghost function ClearedAt(s: State, t: Id): State
    requires t in s.heap && s.heap[t].body.Stack? && s.heap[t].body.top <= |s.heap[t].body.slots|
  {
    s.(heap := s.heap[t := s.heap[t].(body := Cleared(s.heap[t].body))])
  }

  lemma ClearedSpreads(s: State, t: Id)
    requires t in s.heap && s.heap[t].body.Stack? && s.heap[t].body.top <= |s.heap[t].body.slots|
    ensures Spreads(s, ClearedAt(s, t))
  {
  }

  lemma ClearedTricolour(s: State, t: Id)
    requires Tricolour(s) && t in s.heap && s.heap[t].body.Stack? && s.heap[t].body.top <= |s.heap[t].body.slots|
    ensures Tricolour(ClearedAt(s, t))
  {
    hide ThreadsOk, RootListOk;
    var s' := ClearedAt(s, t);
    ClearedSpreads(s, t);
    SpreadsSkeleton(s, s');
    ThreadsKept(s, s');
    forall a | a in s'.heap
      ensures Proper(s'.heap[a]) && s'.heap[a].marks == s.heap[a].marks && s'.heap[a].kind == s.heap[a].kind
    {
      assert Proper(s.heap[a]);
    }
    forall a, b | a in s'.heap && Holds(s', a, b)
      ensures Alive(s', b) && (IsBlack(s'.heap[a].marks) ==> NonWhite(s', b))
    {
      SpreadHolds(s, s', a, b);
      assert !DeadIn(s, a) && Alive(s, b);
    }
    forall b | IsRoot(s', b)
      ensures Alive(s', b)
    {
      assert IsRoot(s, b) && Alive(s, b);
    }
  }

  // ---- what has been achieved ----

  // The threads visited last have nothing but marked values in their slots.
  ghost predicate AgainDone(s: State) {
    forall t, b {:trigger Holds(s, t, b)} :: t in s.grayagain && t in s.heap && Holds(s, t, b) ==> NonWhite(s, b)
  }

  lemma SpreadsKeepsAgain(s: State, s': State, t: Id)
    requires Spreads(s, s') && Markable(s) && AgainDone(s)
    requires forall a :: a in s'.grayagain ==> a in s.grayagain || a == t
    requires t in s'.heap && t in s'.grayagain ==> forall b :: Holds(s', t, b) ==> NonWhite(s', b)
    ensures AgainDone(s')
  {
    forall a, b | a in s'.grayagain && a in s'.heap && Holds(s', a, b)
      ensures NonWhite(s', b)
    {
      if a != t {
        SpreadHolds(s, s', a, b);
        assert NonWhite(s, b) && SpreadStep(s, s', b);
      }
    }
  }

  // Only what can be reached has been marked.
  ghost predicate Grounded(s: State) {
    forall a :: a in s.heap && !IsWhite(s.heap[a].marks) ==> Reachable(s, a)
  }

  lemma GroundedFrom(s: State, s': State, o: Id)
    requires Spreads(s, s') && Markable(s) && Grounded(s) && Reachable(s, o)
    requires forall a :: a in s.heap && Newly(s, s', a) ==> ReachableFrom(s, o, a)
    ensures Grounded(s')
  {
    var r :| IsRoot(s, r) && ReachableFrom(s, r, o);
    forall a | a in s'.heap && !IsWhite(s'.heap[a].marks)
      ensures Reachable(s', a)
    {
      if Newly(s, s', a) {
        ReachableTrans(s, r, o, a);
      }
      assert Reachable(s, a);
      var q :| IsRoot(s, q) && ReachableFrom(s, q, a);
      ReachableSpreads(s, s', q, a);
      assert IsRoot(s', q);
    }
  }

  // The values that traversing o marks
  function Contents(b: Body): seq<Value> {
    match b
    case Fields(refs) => refs
    case Stack(g, slots, top, _) => [g] + (if top <= |slots| then slots[..top] else [])
    case _ => []
  }

  lemma ContentsPoint(s: State, o: Id, b: Id)
    requires o in s.heap && Proper(s.heap[o]) && Listable(s.heap[o].kind)
    ensures Ref(b) in Contents(s.heap[o].body) <==> Points(s, o, b)
  {
    var body := s.heap[o].body;
    if body.Stack? {
      assert forall v :: v in [body.globals] + body.slots[..body.top] <==>
        v == body.globals || v in body.slots[..body.top];
    }
  }

  // A thread, once traversed and cleared, holds marked values only.
  lemma TraversedThread(s1: State, s2: State, o: Id)
    requires Markable(s1) && Marked(s1, s2) && o in s1.heap && s1.heap[o].body.Stack? && !IsWhite(s1.heap[o].marks)
    requires forall b :: Ref(b) in Contents(s1.heap[o].body) ==> NonWhite(s2, b)
    ensures s2.heap[o] == s1.heap[o] && s2.heap[o].body.top <= |s2.heap[o].body.slots|
    ensures forall b :: Holds(ClearedAt(s2, o), o, b) ==> NonWhite(ClearedAt(s2, o), b)
  {
    assert ColourStep(s1, s2, o) && Proper(s1.heap[o]);
    var s3, body := ClearedAt(s2, o), s1.heap[o].body;
    forall b | Holds(s3, o, b)
      ensures NonWhite(s3, b)
    {
      if Ref(b) in s3.heap[o].body.slots {
        var i :| 0 <= i < |s3.heap[o].body.slots| && s3.heap[o].body.slots[i] == Ref(b);
        assert i < body.top && body.slots[i] == Ref(b) && body.slots[i] in body.slots[..body.top];
        assert Ref(b) in Contents(body);
      } else {
        assert Contents(body)[0] == body.globals;
      }
    }
  }

  // traversestack: s2 is the state after marking, before clearing.
  ghost predicate TraversedBy(s: State, s2: State, s3: State, t: Id) {
    && t in s.heap && s.heap[t].body.Stack? && Marked(s, s2) && FromRefs(s, s2, Contents(s.heap[t].body))
    && (forall b :: Ref(b) in Contents(s.heap[t].body) ==> NonWhite(s2, b))
    && t in s2.heap && s2.heap[t].body.Stack? && s2.heap[t].body.top <= |s2.heap[t].body.slots|
    && s3 == ClearedAt(s2, t)
  }

  lemma ClearedWhites(s: State, t: Id)
    requires t in s.heap && s.heap[t].body.Stack? && s.heap[t].body.top <= |s.heap[t].body.slots|
    ensures Whites(ClearedAt(s, t)) == Whites(s) && ClearedAt(s, t).gray == s.gray
  {
  }

  // propagatemark, seen from before it: o has been traversed.
  ghost predicate Visit(s: State, s2: State, s3: State, o: Id) {
    && Tricolour(s) && |s.gray| > 0 && o == s.gray[0] && o in s.heap
    && Marked(Popped(s), s2) && FromRefs(Popped(s), s2, Contents(s.heap[o].body))
    && (forall b :: Ref(b) in Contents(s.heap[o].body) ==> NonWhite(s2, b))
    && o in s2.heap
    && (s.heap[o].kind == THREAD ==> s2.heap[o].body.Stack? && s2.heap[o].body.top <= |s2.heap[o].body.slots|)
    && s3 == if s.heap[o].kind == THREAD then ClearedAt(s2, o) else s2
  }

  lemma Propagated(s: State, s2: State, s3: State, o: Id)
    requires Visit(s, s2, s3, o)
    ensures Tricolour(s3) && Spreads(s, s3)
    ensures AgainDone(s) ==> AgainDone(s3)
    ensures Grounded(s) ==> Grounded(s3)
  {
    PropagatedSpreads(s, s2, s3, o);
    if AgainDone(s) {
      PropagatedAgain(s, s2, s3, o);
    }
    if Grounded(s) {
      PropagatedGrounded(s, s2, s3, o);
    }
  }

  lemma PropagatedSpreads(s: State, s2: State, s3: State, o: Id)
    requires Visit(s, s2, s3, o)
    ensures Tricolour(s3) && Spreads(s, s3)
  {
    PoppedTricolour(s);
    assert Proper(s.heap[o]);
    PropagatedTricolour(s, Popped(s), s2, o);
    PoppedSpreads(s);
    MarkedSpreads(Popped(s), s2);
    SpreadsTrans(s, Popped(s), s2);
    if s.heap[o].kind == THREAD {
      ClearedTricolour(s2, o);
      ClearedSpreads(s2, o);
      SpreadsTrans(s, s2, s3);
    }
  }

  lemma PropagatedAgain(s: State, s2: State, s3: State, o: Id)
    requires Visit(s, s2, s3, o) && Spreads(s, s3) && AgainDone(s)
    ensures AgainDone(s3)
  {
    PoppedTricolour(s);
    assert Proper(s.heap[o]);
    if s.heap[o].kind == THREAD {
      TraversedThread(Popped(s), s2, o);
    }
    assert forall a :: a in s3.grayagain ==> a in s.grayagain || a == o;
    SpreadsKeepsAgain(s, s3, o);
  }

  lemma PropagatedGrounded(s: State, s2: State, s3: State, o: Id)
    requires Visit(s, s2, s3, o) && Spreads(s, s3) && Grounded(s)
    ensures Grounded(s3)
  {
    PropagatedFrom(s, Popped(s), s2, o);
    assert InLists(s, o);
    forall a | a in s.heap && Newly(s, s3, a)
      ensures ReachableFrom(s, o, a)
    {
      assert Newly(Popped(s), s2, a);
    }
    GroundedFrom(s, s3, o);
  }

  lemma PropagatedTricolour(s: State, s1: State, s2: State, o: Id)
    requires Tricolour(s) && |s.gray| > 0 && o == s.gray[0] && o in s.heap && s1 == Popped(s) && Proper(s.heap[o])
    requires Marked(s1, s2)
    requires forall b :: Ref(b) in Contents(s.heap[o].body) ==> NonWhite(s2, b)
    ensures Tricolour(s2)
  {
    PoppedTricolour(s);
    forall b | IsBlack(s1.heap[o].marks) && Holds(s1, o, b)
      ensures NonWhite(s2, b)
    {
      assert InLists(s, o);
      assert Ref(b) in Contents(s.heap[o].body);
    }
    TraversedTricolour(s1, s2, o);
  }

  lemma PoppedSpreads(s: State)
    requires Tricolour(s) && |s.gray| > 0 && s.gray[0] in s.heap
    ensures Spreads(s, Popped(s))
  {
    var s1 := Popped(s);
    assert InLists(s, s.gray[0]);
    forall a | a in s.heap
      ensures SpreadStep(s, s1, a)
    {
    }
  }

  lemma PropagatedFrom(s: State, s1: State, s2: State, o: Id)
    requires Tricolour(s) && |s.gray| > 0 && o == s.gray[0] && o in s.heap && s1 == Popped(s)
    requires Marked(s1, s2) && FromRefs(s1, s2, Contents(s.heap[o].body))
    ensures forall a :: a in s.heap && Newly(s1, s2, a) ==> ReachableFrom(s, o, a)
  {
    PoppedTricolour(s);
    assert Proper(s.heap[o]) && InLists(s, o);
    ReachableSelf(s, o);
    forall a | a in s.heap && Newly(s1, s2, a)
      ensures ReachableFrom(s, o, a)
    {
      assert FromSome(s1, Contents(s.heap[o].body), a);
      var b :| Ref(b) in Contents(s.heap[o].body) && ReachableFrom(s1, b, a);
      ReachableSame(s1, s, b, a);
      ContentsPoint(s, o, b);
      ReachableStep(s, o, o, b);
      ReachableTrans(s, o, b, a);
    }
  }
}
