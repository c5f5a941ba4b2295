// The mark phase: what marking does to the state, and the tricolour invariant.
module Marking {
  import opened Objects

  ghost predicate NonWhite(s: State, b: Id) {
    b in s.heap && !IsWhite(s.heap[b].marks)
  }

  ghost predicate Newly(s: State, s': State, a: Id)
    requires a in s.heap && a in s'.heap
  {
    IsWhite(s.heap[a].marks) && !IsWhite(s'.heap[a].marks)
  }

  // What becomes of one object: nothing, or it has been marked.
  ghost predicate ColourStep(s: State, s': State, a: Id)
    requires a in s.heap && a in s'.heap
  {
    || s'.heap[a] == s.heap[a]
    || (var o, o' := s.heap[a], s'.heap[a];
        && Newly(s, s', a) && !DeadIn(s, a)
        && o' == o.(marks := o'.marks) && o'.marks.fixed == o.marks.fixed
        && IsBlack(o'.marks) == (o.kind == USERDATA || o.body.Closed?))
  }

  // Objects that have just been marked and will not be traversed have had their contents marked too.
  predicate MarkedAtOnce(o: Obj) {
    o.kind == USERDATA || o.kind == UPVAL
  }

  ghost predicate GrayGrows(s: State, s': State)
    requires s'.heap.Keys == s.heap.Keys
  {
    && |s.gray| <= |s'.gray|
    && var added := s'.gray[..|s'.gray| - |s.gray|];
       && s'.gray == added + s.gray && NoDup(added)
       && (forall a :: a in added ==> a in s.heap && Newly(s, s', a) && Listable(s.heap[a].kind))
       && (forall a :: a in s.heap && Newly(s, s', a) && Listable(s.heap[a].kind) ==> a in added)
  }

  // s' comes from s by marking.
  ghost predicate Marked(s: State, s': State) {
    && s' == s.(heap := s'.heap, gray := s'.gray)
    && s'.heap.Keys == s.heap.Keys
    && (forall a {:trigger s'.heap[a]} :: a in s.heap ==> ColourStep(s, s', a))
    && (forall a, b {:trigger Holds(s, a, b)} ::
          a in s.heap && Newly(s, s', a) && MarkedAtOnce(s.heap[a]) && Holds(s, a, b) ==> NonWhite(s', b))
    && GrayGrows(s, s')
  }

  lemma MarkedSelf(s: State)
    ensures Marked(s, s)
  {
    assert s.gray[..0] + s.gray == s.gray;
  }

  // Marks aside, nothing has changed.
  ghost predicate SameBodies(s: State, s': State) {
    && s'.heap.Keys == s.heap.Keys
    && forall a {:trigger s'.heap[a]} :: a in s.heap ==>
      s'.heap[a].body == s.heap[a].body && s'.heap[a].kind == s.heap[a].kind
  }

  lemma SameBodiesSkeleton(s: State, s': State)
    requires SameBodies(s, s')
    ensures SameSkeleton(s, s')
  {
  }

  lemma HoldsSame(s: State, s': State, a: Id, b: Id)
    requires SameBodies(s, s') && a in s.heap
    ensures Holds(s', a, b) == Holds(s, a, b) && Points(s', a, b) == Points(s, a, b)
  {
  }

  lemma MarkedTrans(s0: State, s1: State, s2: State)
    requires Marked(s0, s1) && Marked(s1, s2)
    ensures Marked(s0, s2)
  {
    forall a | a in s0.heap
      ensures ColourStep(s0, s2, a)
    {
      assert ColourStep(s0, s1, a) && ColourStep(s1, s2, a);
    }
    forall a, b | a in s0.heap && Newly(s0, s2, a) && MarkedAtOnce(s0.heap[a]) && Holds(s0, a, b)
      ensures NonWhite(s2, b)
    {
      assert ColourStep(s0, s1, a) && ColourStep(s1, s2, a);
      HoldsSame(s0, s1, a, b);
      if Newly(s0, s1, a) {
        assert NonWhite(s1, b) && ColourStep(s1, s2, b);
      }
    }
    MarkedTransGray(s0, s1, s2);
  }

  lemma AddedTrans(g0: seq<Id>, g1: seq<Id>, g2: seq<Id>)
    requires |g0| <= |g1| <= |g2|
    requires g1 == g1[..|g1| - |g0|] + g0 && g2 == g2[..|g2| - |g1|] + g1
    ensures g2[..|g2| - |g0|] == g2[..|g2| - |g1|] + g1[..|g1| - |g0|]
    ensures g2 == g2[..|g2| - |g0|] + g0
  {
    var a1, a2 := g1[..|g1| - |g0|], g2[..|g2| - |g1|];
    assert g2 == (a2 + a1) + g0;
  }

  lemma MarkedTransGray(s0: State, s1: State, s2: State)
    requires Marked(s0, s1) && Marked(s1, s2)
    ensures GrayGrows(s0, s2)
  {
    var a1, a2 := s1.gray[..|s1.gray| - |s0.gray|], s2.gray[..|s2.gray| - |s1.gray|];
    AddedTrans(s0.gray, s1.gray, s2.gray);
    forall a | a in s0.heap
      ensures Newly(s0, s2, a) <==> Newly(s0, s1, a) || Newly(s1, s2, a)
    {
      assert ColourStep(s0, s1, a) && ColourStep(s1, s2, a);
    }
    NoDupAppend(a2, a1);
  }

  // ---- the tricolour invariant ----

  predicate InLists(s: State, a: Id) {
    a in s.gray || a in s.grayagain
  }

  // The gray lists hold the gray objects that are still to be traversed, each once.
  ghost predicate GrayOk(s: State) {
    && NoDup(s.gray + s.grayagain)
    && (forall a :: InLists(s, a) ==> a in s.heap && IsGray(s.heap[a].marks) && Listable(s.heap[a].kind))
    && (forall a :: a in s.heap && IsGray(s.heap[a].marks) && Listable(s.heap[a].kind) ==> InLists(s, a))
    && (forall a :: a in s.heap && IsGray(s.heap[a].marks) ==> s.heap[a].kind != USERDATA && !s.heap[a].body.Closed?)
  }

  // No black object refers to a white one.
  ghost predicate BlackOk(s: State, except: set<Id>) {
    forall a, b {:trigger Holds(s, a, b)} ::
      a in s.heap && a !in except && IsBlack(s.heap[a].marks) && Holds(s, a, b) ==> NonWhite(s, b)
  }

  ghost predicate NoneDead(s: State) {
    forall a :: a in s.heap ==> !DeadIn(s, a)
  }

  lemma MarkedKeepsColours(s: State, s': State, except: set<Id>)
    requires Marked(s, s') && AllProper(s) && BlackOk(s, except) && GrayOk(s)
    ensures AllProper(s') && BlackOk(s', except) && GrayOk(s') && SameBodies(s, s')
  {
    forall a | a in s.heap
      ensures ColourStep(s, s', a)
    {
    }
    forall a, b | a in s'.heap && a !in except && IsBlack(s'.heap[a].marks) && Holds(s', a, b)
      ensures NonWhite(s', b)
    {
      HoldsSame(s, s', a, b);
      if s'.heap[a] == s.heap[a] {
        assert NonWhite(s, b) && ColourStep(s, s', b);
      }
    }
    MarkedKeepsGray(s, s');
  }

  lemma MarkedKeepsGray(s: State, s': State)
    requires Marked(s, s') && AllProper(s) && GrayOk(s)
    ensures GrayOk(s')
  {
    var added := s'.gray[..|s'.gray| - |s.gray|];
    assert s'.gray + s'.grayagain == added + (s.gray + s.grayagain);
    forall a | a in s.heap
      ensures ColourStep(s, s', a)
    {
    }
    assert forall a :: a in s'.gray <==> a in added || a in s.gray;
    assert forall a :: a in s.gray + s.grayagain ==> InLists(s, a);
    NoDupAppend(added, s.gray + s.grayagain);
  }

  lemma MarkedKeepsProper(s: State, s': State)
    requires Marked(s, s') && AllProper(s)
    ensures AllProper(s') && SameBodies(s, s')
  {
    forall a | a in s.heap
      ensures Proper(s'.heap[a])
    {
      assert ColourStep(s, s', a);
    }
  }

  // The same kinds, the same upvalues open, the same strings: what fields and slots hold is left open.
  ghost predicate SameSkeleton(s: State, s': State) {
    && s'.heap.Keys == s.heap.Keys
    && forall a {:trigger s'.heap[a]} :: a in s.heap ==> SameFrame(s.heap[a], s'.heap[a])
  }

  predicate SameFrame(o: Obj, o': Obj) {
    && o'.kind == o.kind
    && match o.body
       case Text(_) => o'.body == o.body
       case Open(_, _) => o'.body == o.body
       case Closed(_) => o'.body.Closed?
       case Fields(_) => o'.body.Fields?
       case Stack(_, slots, top, ups) =>
         o'.body.Stack? && |o'.body.slots| == |slots| && o'.body.top == top && o'.body.openupval == ups
  }

  lemma ThreadsKept(s: State, s': State)
    requires SameSkeleton(s, s') && s'.uvhead == s.uvhead && ThreadsOk(s)
    ensures ThreadsOk(s')
  {
    forall t | t in s'.heap && s'.heap[t].body.Stack?
      ensures OpenListOk(s', t)
    {
      assert SameFrame(s.heap[t], s'.heap[t]) && OpenListOk(s, t);
      var ups := s.heap[t].body.openupval;
      forall i | 0 <= i < |ups|
        ensures IsOpenAt(s', ups[i], t) && s'.heap[ups[i]].body == s.heap[ups[i]].body
      {
        assert IsOpenAt(s, ups[i], t) && SameFrame(s.heap[ups[i]], s'.heap[ups[i]]);
      }
    }
    forall u | u in s'.heap && s'.heap[u].body.Open?
      ensures s'.heap[u].body == s.heap[u].body
      ensures var t := s'.heap[u].body.thread; t in s'.heap && s'.heap[t].body.Stack? && u in s'.heap[t].body.openupval
    {
      assert SameFrame(s.heap[u], s'.heap[u]);
      var t := s.heap[u].body.thread;
      assert SameFrame(s.heap[t], s'.heap[t]);
    }
    forall u | u in s.heap
      ensures s'.heap[u].body.Open? == s.heap[u].body.Open?
    {
      assert SameFrame(s.heap[u], s'.heap[u]);
    }
  }

  lemma StringsSame(s: State, s': State, hash: string -> nat)
    requires StringsOk(s, hash) && s'.strt == s.strt && s'.nuse == s.nuse
    requires forall a {:trigger s'.heap[a]} :: a in s'.heap && s'.heap[a].body.Text? ==>
             a in s.heap && s'.heap[a].body == s.heap[a].body
    requires forall a {:trigger s.heap[a]} :: a in s.heap && s.heap[a].body.Text? ==>
             a in s'.heap && s'.heap[a].body == s.heap[a].body
    ensures StringsOk(s', hash)
  {
    forall i, a | 0 <= i < |s'.strt| && a in s'.strt[i]
      ensures InBucket(s', hash, a, i)
    {
      assert InBucket(s, hash, a, i);
    }
  }

  lemma RootListKept(s: State, s': State)
    requires SameSkeleton(s, s') && s'.rootgc == s.rootgc && s'.sweep <= |s.rootgc| && RootListOk(s)
    ensures RootListOk(s')
  {
    forall a | a in s.heap
      ensures InRootList(s'.heap[a]) == InRootList(s.heap[a])
    {
    }
  }

  lemma ListsKept(s: State, s': State, hash: string -> nat)
    requires SameSkeleton(s, s') && s'.rootgc == s.rootgc && s'.strt == s.strt && s'.nuse == s.nuse
    requires s'.sweep <= |s.rootgc|
    requires RootListOk(s) && StringsOk(s, hash)
    ensures RootListOk(s') && StringsOk(s', hash)
  {
    RootListKept(s, s');
    hide RootListOk, StringsOk;
    StringsSame(s, s', hash);
  }

  lemma MarkedKeepsLive(s: State, s': State)
    requires Marked(s, s') && LiveClosed(s) && RootsOk(s) && FixedOk(s)
    ensures LiveClosed(s') && RootsOk(s') && FixedOk(s')
    ensures NoneDead(s) ==> NoneDead(s')
  {
    forall a | a in s.heap
      ensures ColourStep(s, s', a) && DeadIn(s', a) == DeadIn(s, a)
    {
    }
    forall a, b | a in s'.heap && !DeadIn(s', a) && Holds(s', a, b)
      ensures Alive(s', b)
    {
      HoldsSame(s, s', a, b);
      assert Alive(s, b);
    }
    forall b | IsRoot(s', b)
      ensures Alive(s', b)
    {
      assert IsRoot(s, b) && Alive(s, b);
    }
  }

  // ---- reallymarkobject ----

  // Marking goes on while nothing is dead, so that all there is to mark is there.
  ghost predicate Markable(s: State) {
    AllProper(s) && NoneDead(s) && LiveClosed(s) && RootsOk(s) && FixedOk(s) && ThreadsOk(s)
  }

  lemma MarkedKeepsMarkable(s: State, s': State)
    requires Marked(s, s') && Markable(s)
    ensures Markable(s')
  {
    MarkedKeepsProper(s, s');
    MarkedKeepsLive(s, s');
    SameBodiesSkeleton(s, s');
    ThreadsKept(s, s');
  }

  // The value an upvalue shares with a slot, or keeps itself
  function UpvalueValue(s: State, u: Id): Value
    requires u in s.heap && s.heap[u].kind == UPVAL
  {
    match s.heap[u].body
    case Closed(v) => v
    case Open(t, i) =>
      if t in s.heap && s.heap[t].body.Stack? && i < |s.heap[t].body.slots| then s.heap[t].body.slots[i] else Nil
    case _ => Nil
  }

  lemma OpenSlot(s: State, u: Id)
    requires ThreadsOk(s) && AllProper(s) && u in s.heap && s.heap[u].body.Open?
    ensures var t := s.heap[u].body.thread;
            t in s.heap && s.heap[t].body.Stack? && s.heap[u].body.slot < s.heap[t].body.top <= |s.heap[t].body.slots|
  {
    var t := s.heap[u].body.thread;
    assert OpenListOk(s, t) && Proper(s.heap[t]);
    var i :| 0 <= i < |s.heap[t].body.openupval| && s.heap[t].body.openupval[i] == u;
    assert IsOpenAt(s, u, t);
  }

  lemma UpvalueHolds(s: State, u: Id, b: Id)
    requires u in s.heap && Proper(s.heap[u]) && s.heap[u].kind == UPVAL
    ensures Holds(s, u, b) <==> UpvalueValue(s, u) == Ref(b)
    ensures Points(s, u, b) <==> UpvalueValue(s, u) == Ref(b)
  {
  }

  ghost function Whites(s: State): set<Id> {
    set a | a in s.heap && IsWhite(s.heap[a].marks)
  }

  ghost function Recoloured(s: State, o: Id, m: Marks): State
    requires o in s.heap
  {
    s.(heap := s.heap[o := s.heap[o].(marks := m)])
  }

  lemma FewerWhites(s: State, s': State)
    requires Marked(s, s')
    ensures Whites(s') <= Whites(s) && |Whites(s')| <= |Whites(s)|
  {
    forall a | a in s.heap
      ensures ColourStep(s, s', a)
    {
    }
    SubsetSize(Whites(s'), Whites(s));
  }

  lemma {:induction false} SubsetSize<T>(a: set<T>, b: set<T>)
    requires a <= b
    ensures |a| <= |b|
    decreases a
  {
    if a != {} {
      var x :| x in a;
      SubsetSize(a - {x}, b - {x});
    }
  }

  lemma RecolouredMarkable(s: State, o: Id, m: Marks)
    requires Markable(s) && o in s.heap && !IsWhite(m) && m.fixed == s.heap[o].marks.fixed
    requires Proper(s.heap[o].(marks := m))
    ensures Markable(Recoloured(s, o, m)) && SameBodies(s, Recoloured(s, o, m))
  {
    var s' := Recoloured(s, o, m);
    SameBodiesSkeleton(s, s');
    ThreadsKept(s, s');
    forall a, b | a in s'.heap && Holds(s', a, b)
      ensures Alive(s', b)
    {
      HoldsSame(s, s', a, b);
      assert !DeadIn(s, a) && Alive(s, b);
    }
    forall b | IsRoot(s', b)
      ensures Alive(s', b)
    {
      assert IsRoot(s, b) && Alive(s, b);
    }
  }

  lemma WhiteGone(s: State, o: Id, m: Marks)
    requires o in s.heap && IsWhite(s.heap[o].marks) && !IsWhite(m)
    ensures |Whites(Recoloured(s, o, m))| < |Whites(s)|
  {
    var s' := Recoloured(s, o, m);
    assert Whites(s') == Whites(s) - {o};
  }

  // o is marked first and gets its final colour after what it holds has been marked.
  lemma Enclosed(s: State, m1: Marks, s2: State, m3: Marks, o: Id)
    requires o in s.heap && IsWhite(s.heap[o].marks) && !DeadIn(s, o) && !Listable(s.heap[o].kind)
    requires !IsWhite(m1) && Marked(Recoloured(s, o, m1), s2)
    requires !IsWhite(m3) && m3.fixed == s.heap[o].marks.fixed
    requires IsBlack(m3) == (s.heap[o].kind == USERDATA || s.heap[o].body.Closed?)
    requires MarkedAtOnce(s.heap[o]) ==> forall b :: Holds(s, o, b) ==> NonWhite(s2, b)
    ensures Marked(s, Recoloured(s2, o, m3))
  {
    var s1, s3 := Recoloured(s, o, m1), Recoloured(s2, o, m3);
    assert ColourStep(s1, s2, o);
    forall a | a in s.heap
      ensures ColourStep(s, s3, a)
      ensures a != o ==> Newly(s, s3, a) == Newly(s1, s2, a)
    {
      assert ColourStep(s1, s2, a);
    }
    forall a, b | a in s.heap && Newly(s, s3, a) && MarkedAtOnce(s.heap[a]) && Holds(s, a, b)
      ensures NonWhite(s3, b)
    {
      if a != o {
        assert Holds(s1, a, b);
      }
    }
  }

  // A string, or an object that is left for propagatemark
  lemma MarkedAlone(s: State, m: Marks, o: Id)
    requires o in s.heap && IsWhite(s.heap[o].marks) && !DeadIn(s, o) && m == White2Gray(s.heap[o].marks) &&
             OneColour(s.heap[o].marks)
    requires Listable(s.heap[o].kind) || s.heap[o].kind == STRING
    requires Matches(s.heap[o].kind, s.heap[o].body)
    ensures Marked(s, Recoloured(s, o, m).(gray := if Listable(s.heap[o].kind) then [o] + s.gray else s.gray))
  {
    var s' := Recoloured(s, o, m).(gray := if Listable(s.heap[o].kind) then [o] + s.gray else s.gray);
    var added := s'.gray[..|s'.gray| - |s.gray|];
    assert added == if Listable(s.heap[o].kind) then [o] else [];
    assert s'.gray == added + s.gray;
    forall a | a in s.heap
      ensures ColourStep(s, s', a) && (Newly(s, s', a) ==> a == o)
    {
    }
  }

  // ---- where marking gets to ----

  // Whatever has been marked can be reached from o.
  ghost predicate NewlyFrom(s: State, s': State, o: Id)
    requires s'.heap.Keys == s.heap.Keys
  {
    forall a :: a in s.heap && Newly(s, s', a) ==> ReachableFrom(s, o, a)
  }

  ghost predicate FromRefs(s: State, s': State, refs: seq<Value>)
    requires s'.heap.Keys == s.heap.Keys
  {
    forall a :: a in s.heap && Newly(s, s', a) ==> FromSome(s, refs, a)
  }

  ghost predicate FromSome(s: State, refs: seq<Value>, a: Id) {
    exists b :: Ref(b) in refs && ReachableFrom(s, b, a)
  }

  lemma ReachableSame(s: State, s': State, a: Id, b: Id)
    requires SameBodies(s, s') && ReachableFrom(s, a, b)
    ensures ReachableFrom(s', a, b)
  {
    var p :| IsChain(s, p) && p[0] == a && p[|p| - 1] == b;
    forall i | 0 <= i < |p| - 1
      ensures p[i] in s'.heap && Points(s', p[i], p[i + 1])
    {
      HoldsSame(s, s', p[i], p[i + 1]);
    }
    assert IsChain(s', p);
  }

  // A userdata: black at once, then what it holds is marked.
  lemma UserdataMarked(s: State, m: Marks, s2: State, o: Id, refs: seq<Value>)
    requires o in s.heap && IsWhite(s.heap[o].marks) && !DeadIn(s, o) && s.heap[o].kind == USERDATA
    requires m == Gray2Black(White2Gray(s.heap[o].marks)) && s.heap[o].body == Fields(refs)
    requires Marked(Recoloured(s, o, m), s2) && FromRefs(Recoloured(s, o, m), s2, refs)
    requires forall b :: Ref(b) in refs ==> NonWhite(s2, b)
    ensures Marked(s, s2) && NonWhite(s2, o) && NewlyFrom(s, s2, o)
  {
    assert ColourStep(Recoloured(s, o, m), s2, o);
    assert s2 == Recoloured(s2, o, m);
    Enclosed(s, m, s2, m, o);
    EnclosedFrom(s, m, s2, m, o, refs);
  }

  // An upvalue: its value is marked, then it turns black if it is closed.
  lemma UpvalueMarked(s: State, m: Marks, s2: State, s3: State, o: Id, v: Value)
    requires o in s.heap && IsWhite(s.heap[o].marks) && !DeadIn(s, o) && s.heap[o].kind == UPVAL && Proper(s.heap[o])
    requires m == White2Gray(s.heap[o].marks) && v == UpvalueValue(s, o)
    requires Marked(Recoloured(s, o, m), s2) && FromRefs(Recoloured(s, o, m), s2, [v])
    requires v.Ref? ==> NonWhite(s2, v.id)
    requires s3 == if s.heap[o].body.Closed? then Recoloured(s2, o, Gray2Black(m)) else s2
    ensures Marked(s, s3) && NonWhite(s3, o) && NewlyFrom(s, s3, o)
  {
    assert ColourStep(Recoloured(s, o, m), s2, o);
    var m3 := if s.heap[o].body.Closed? then Gray2Black(m) else m;
    assert s3 == Recoloured(s2, o, m3);
    forall b | Holds(s, o, b)
      ensures NonWhite(s2, b)
    {
      UpvalueHolds(s, o, b);
    }
    forall b | Ref(b) in [v]
      ensures Points(s, o, b)
    {
      UpvalueHolds(s, o, b);
    }
    Enclosed(s, m, s2, m3, o);
    EnclosedFrom(s, m, s2, m3, o, [v]);
  }

  lemma EnclosedFrom(s: State, m1: Marks, s2: State, m3: Marks, o: Id, refs: seq<Value>)
    requires o in s.heap && !IsWhite(m1) && !IsWhite(m3) && Marked(Recoloured(s, o, m1), s2)
    requires FromRefs(Recoloured(s, o, m1), s2, refs) && forall b :: Ref(b) in refs ==> Points(s, o, b)
    ensures NewlyFrom(s, Recoloured(s2, o, m3), o)
  {
    var s1 := Recoloured(s, o, m1);
    forall a | a in s.heap && Newly(s, Recoloured(s2, o, m3), a)
      ensures ReachableFrom(s, o, a)
    {
      ReachableSelf(s, o);
      if a != o {
        assert Newly(s1, s2, a);
        var b :| Ref(b) in refs && ReachableFrom(s1, b, a);
        ReachableSame(s1, s, b, a);
        ReachableStep(s, o, o, b);
        ReachableTrans(s, o, b, a);
      }
    }
  }

  // One more of the values has been marked.
  lemma MarkedStep(s: State, s1: State, s2: State, refs: seq<Value>, i: nat)
    requires Marked(s, s1) && Marked(s1, s2) && Markable(s) && i < |refs|
    requires forall b :: Ref(b) in refs[..i] ==> NonWhite(s1, b)
    requires refs[i].Ref? ==> NonWhite(s2, refs[i].id)
    requires FromRefs(s, s1, refs) && FromRefs(s1, s2, [refs[i]])
    ensures Marked(s, s2) && Markable(s2) && FromRefs(s, s2, refs)
    ensures forall b :: Ref(b) in refs[..i + 1] ==> NonWhite(s2, b)
  {
    MarkedTrans(s, s1, s2);
    MarkedKeepsMarkable(s, s2);
    MarkedKeepsProper(s, s1);
    forall b | Ref(b) in refs[..i + 1]
      ensures NonWhite(s2, b)
    {
      if Ref(b) in refs[..i] {
        assert NonWhite(s1, b) && ColourStep(s1, s2, b);
      }
    }
    forall a | a in s.heap && Newly(s, s2, a)
      ensures FromSome(s, refs, a)
    {
      assert ColourStep(s, s1, a) && ColourStep(s1, s2, a);
      if Newly(s1, s2, a) {
        var b :| Ref(b) in [refs[i]] && ReachableFrom(s1, b, a);
        ReachableSame(s1, s, b, a);
        assert Ref(b) in refs;
      }
    }
  }
}
