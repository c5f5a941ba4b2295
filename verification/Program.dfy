// Whole runs: the operations of a program, on operands in the stack of the running thread, and steps of
// the collector, in any order.
module Program {
  import opened Objects
  import opened Marking
  import opened Invariants
  import opened Mutation
  import opened StringTable
  import opened Collection
  import opened Collector
  import opened Interpreter
  import opened Semantics

  // The value of a slot in use
  method Read(g: GlobalState, i: nat) returns (v: Value)
    requires Inv(g.S(), g.hash)
    ensures AliveValue(g.S(), v) && v == SlotValue(g.S(), i)
  {
    RunningStack(g.S(), g.hash);
    var b := g.heap[g.running].body;
    if i >= b.top {
      return Nil;
    }
    SlotAlive(g.S(), i, g.hash);
    return b.slots[i];
  }

  method Write(g: GlobalState, i: nat, v: Value)
    requires Inv(g.S(), g.hash) && AliveValue(g.S(), v)
    modifies g`heap
    ensures Inv(g.S(), g.hash) && KeptAlive(old(g.S()), g.S()) && g.S() == Written(old(g.S()), i, v)
  {
    RunningStack(g.S(), g.hash);
    if i < g.heap[g.running].body.top {
      SetSlot(g, g.running, i, v);
    }
  }

  // ---- operations that make an object ----

  lemma LinkedMakes(s: State, s1: State, a: Id, dst: nat, kind: Kind, body: Body)
    requires a !in s.heap && IsLinked(s, s1, a, kind, body)
    ensures Makes(s, Written(s1, dst, Ref(a)), dst, kind, body)
  {
    assert Same(Added(s, a, kind, body), s1);
    WrittenSame(Added(s, a, kind, body), s1, dst, Ref(a));
  }

  lemma InternedFor(s: State, s1: State, a: Id, content: string)
    requires BodiesKept(s, s1) && s1.heap.Keys == s.heap.Keys + {a} && s1.heap[a].body == Text(content) &&
             s1.heap[a].kind == STRING
    requires SameRoots(s, s1) && forall b :: b in s.heap && s.heap[b].body == Text(content) ==> b == a
    ensures StringFor(s, a, content) && Same(Added(s, a, STRING, Text(content)), s1)
  {
  }

  method DoMakeObject(g: GlobalState, kind: Kind, dst: nat, src: nat)
    requires Inv(g.S(), g.hash)
    modifies g`heap, g`rootgc, g`sweep
    ensures Inv(g.S(), g.hash) && KeptAlive(old(g.S()), g.S())
    ensures Creates(old(g.S()), MakeObject(kind, dst, src), g.S())
  {
    hide Inv, KeptAlive, IsLinked, Makes;
    ghost var s := g.S();
    KeptSelf(s);
    if Makable(kind) {
      var v := Read(g, src);
      assert forall b :: Ref(b) in [v] ==> Ref(b) == v;
      var a := NewObject(g, kind, Fields([v]));
      ghost var s1 := g.S();
      Write(g, dst, Ref(a));
      KeptTrans(s, s1, g.S());
      LinkedMakes(s, s1, a, dst, kind, Fields([v]));
    }
  }

  method DoMakeString(g: GlobalState, dst: nat, content: string)
    requires Inv(g.S(), g.hash)
    modifies g`heap, g`strt, g`nuse
    ensures Inv(g.S(), g.hash) && KeptAlive(old(g.S()), g.S())
    ensures Creates(old(g.S()), MakeString(dst, content), g.S())
  {
    hide Inv, KeptAlive, StringFor, Same, Written, BodiesKept;
    ghost var s := g.S();
    var a := NewString(g, content);
    ghost var s1 := g.S();
    InternedFor(s, s1, a, content);
    Write(g, dst, Ref(a));
    KeptTrans(s, s1, g.S());
    WrittenSame(Added(s, a, STRING, Text(content)), s1, dst, Ref(a));
  }

  // luaS_fix(luaS_new(...))
  method DoFixString(g: GlobalState, content: string)
    requires Inv(g.S(), g.hash)
    modifies g`heap, g`strt, g`nuse
    ensures Inv(g.S(), g.hash) && KeptAlive(old(g.S()), g.S())
    ensures Creates(old(g.S()), FixString(content), g.S())
  {
    hide Inv, KeptAlive, StringFor, Same, BodiesKept;
    ghost var s := g.S();
    var a := NewString(g, content);
    ghost var s1 := g.S();
    InternedFor(s, s1, a, content);
    FixedKeeps(s1, a, g.hash);
    g.SetMarks(a, g.heap[a].marks.(fixed := true));
    KeptTrans(s, s1, g.S());
    SameTrans(Added(s, a, STRING, Text(content)), s1, g.S());
  }

  lemma FixedKeeps(s: State, a: Id, hash: string -> nat)
    requires Inv(s, hash) && Alive(s, a) && s.heap[a].kind == STRING
    ensures var s' := Recoloured(s, a, s.heap[a].marks.(fixed := true));
            Inv(s', hash) && KeptAlive(s, s') && Same(s, s')
  {
    hide KeptAlive, Same;
    assert Proper(s.heap[a]);
    FixedInv(s, a, hash);
    hide Inv;
    FixedSame(s, a);
  }

  lemma FixedSame(s: State, a: Id)
    requires a in s.heap
    ensures var s' := Recoloured(s, a, s.heap[a].marks.(fixed := true)); KeptAlive(s, s') && Same(s, s')
  {
  }

  method DoMakeThread(g: GlobalState, dst: nat)
    requires Inv(g.S(), g.hash)
    modifies g`heap, g`rootgc, g`sweep
    ensures Inv(g.S(), g.hash) && KeptAlive(old(g.S()), g.S())
    ensures Creates(old(g.S()), MakeThread(dst), g.S())
  {
    ghost var s := g.S();
    RunningStack(s, g.hash);
    hide Inv, KeptAlive, IsLinked, Makes, NewStack, Written, CurrentWhite, Creates;
    var a := NewThread(g);
    ghost var s1 := g.S();
    Write(g, dst, Ref(a));
    KeptTrans(s, s1, g.S());
    LinkedMakes(s, s1, a, dst, THREAD, NewStack(s.heap[s.running].body.globals));
    ThreadCreates(s, g.S(), dst);
  }

  lemma ThreadCreates(s: State, s': State, dst: nat)
    requires HasStack(s) && Makes(s, s', dst, THREAD, NewStack(s.heap[s.running].body.globals))
    ensures Creates(s, MakeThread(dst), s')
  {
    hide Makes;
  }

  method DoMakeClosure(g: GlobalState, dst: nat, captures: seq<nat>)
    requires Inv(g.S(), g.hash)
    modifies g`heap, g`rootgc, g`sweep, g`uvhead
    ensures Inv(g.S(), g.hash) && KeptAlive(old(g.S()), g.S())
    ensures Creates(old(g.S()), MakeClosure(dst, captures), g.S())
  {
    ghost var s := g.S();
    KeptSelf(s);
    hide Inv, KeptAlive, Encloses, Written, Creates;
    var used := AllInUse(g, captures);
    if used {
      var a := NewClosure(g, captures);
      ghost var s1 := g.S();
      Write(g, dst, Ref(a));
      KeptTrans(s, s1, g.S());
      EnclosesCreates(s, s1, a, dst, captures);
    } else {
      NothingToEnclose(s, dst, captures);
    }
  }

  method AllInUse(g: GlobalState, captures: seq<nat>) returns (used: bool)
    requires Inv(g.S(), g.hash)
    ensures used == InUse(g.S(), captures)
  {
    RunningStack(g.S(), g.hash);
    return forall k :: 0 <= k < |captures| ==> captures[k] < g.heap[g.running].body.top;
  }

  lemma EnclosesCreates(s: State, s1: State, a: Id, dst: nat, captures: seq<nat>)
    requires InUse(s, captures) && Encloses(s, s1, a, captures)
    ensures Creates(s, MakeClosure(dst, captures), Written(s1, dst, Ref(a)))
  {
    hide Encloses, Written;
    assert Same(Written(s1, dst, Ref(a)), Written(s1, dst, Ref(a)));
  }

  lemma NothingToEnclose(s: State, dst: nat, captures: seq<nat>)
    requires !InUse(s, captures)
    ensures Creates(s, MakeClosure(dst, captures), s)
  {
  }

  lemma KeptSelf(s: State)
    ensures KeptAlive(s, s)
  {
  }

  // ---- operations on fields and upvalues ----

  // The field at index of the object in slot obj
  method Field(g: GlobalState, obj: nat, index: nat) returns (v: Value)
    requires Inv(g.S(), g.hash)
    ensures AliveValue(g.S(), v) && v == FieldValue(g.S(), obj, index)
  {
    var o := Read(g, obj);
    if o.Ref? && g.heap[o.id].body.Fields? && index < |g.heap[o.id].body.refs| {
      HeldAlive(g.S(), o.id, g.heap[o.id].body.refs[index]);
      return g.heap[o.id].body.refs[index];
    }
    return Nil;
  }

  method DoClearSlot(g: GlobalState, dst: nat)
    requires Inv(g.S(), g.hash)
    modifies g`heap
    ensures Inv(g.S(), g.hash) && KeptAlive(old(g.S()), g.S())
    ensures Loads(old(g.S()), ClearSlot(dst), g.S())
  {
    hide Inv, KeptAlive, Written;
    Write(g, dst, Nil);
  }

  method DoCopySlot(g: GlobalState, dst: nat, src: nat)
    requires Inv(g.S(), g.hash)
    modifies g`heap
    ensures Inv(g.S(), g.hash) && KeptAlive(old(g.S()), g.S())
    ensures Loads(old(g.S()), CopySlot(dst, src), g.S())
  {
    hide Inv, KeptAlive, Written;
    var v := Read(g, src);
    Write(g, dst, v);
  }

  method DoReadField(g: GlobalState, dst: nat, obj: nat, index: nat)
    requires Inv(g.S(), g.hash)
    modifies g`heap
    ensures Inv(g.S(), g.hash) && KeptAlive(old(g.S()), g.S())
    ensures Loads(old(g.S()), ReadField(dst, obj, index), g.S())
  {
    var v := Field(g, obj, index);
    Write(g, dst, v);
  }

  method DoWriteField(g: GlobalState, obj: nat, index: nat, src: nat)
    requires Inv(g.S(), g.hash)
    modifies g`heap, g`gray, g`grayagain
    ensures Inv(g.S(), g.hash) && KeptAlive(old(g.S()), g.S())
    ensures Stores(old(g.S()), WriteField(obj, index, src), g.S())
  {
    var o := Read(g, obj);
    var v := Read(g, src);
    if o.Ref? && g.heap[o.id].body.Fields? {
      SetField(g, o.id, index, v);
    }
  }

  // OP_GETUPVAL
  method DoReadUpvalue(g: GlobalState, dst: nat, obj: nat, index: nat)
    requires Inv(g.S(), g.hash)
    modifies g`heap
    ensures Inv(g.S(), g.hash) && KeptAlive(old(g.S()), g.S())
    ensures Loads(old(g.S()), ReadUpvalue(dst, obj, index), g.S())
  {
    ghost var s := g.S();
    KeptSelf(s);
    hide Inv, KeptAlive, Written, Loads;
    var u := Field(g, obj, index);
    if u.Ref? && g.heap[u.id].kind == UPVAL {
      var v := UpvalueOf(g, u.id);
      Write(g, dst, v);
    }
    UpvalueLoaded(s, g.S(), dst, obj, index);
  }

  lemma UpvalueLoaded(s: State, s': State, dst: nat, obj: nat, index: nat)
    requires var u := FieldValue(s, obj, index);
             s' == if IsUpvalue(s, u) then Written(s, dst, UpvalueValue(s, u.id)) else s
    ensures Loads(s, ReadUpvalue(dst, obj, index), s')
  {
    hide Written;
  }

  method UpvalueOf(g: GlobalState, u: Id) returns (v: Value)
    requires Inv(g.S(), g.hash) && Alive(g.S(), u) && g.heap[u].kind == UPVAL
    ensures v == UpvalueValue(g.S(), u) && AliveValue(g.S(), v)
  {
    v := g.ValueOf(u);
    if v.Ref? {
      assert Proper(g.heap[u]);
      UpvalueHolds(g.S(), u, v.id);
    }
    HeldAlive(g.S(), u, v);
  }

  method DoWriteUpvalue(g: GlobalState, obj: nat, index: nat, src: nat)
    requires Inv(g.S(), g.hash)
    modifies g`heap, g`gray
    ensures Inv(g.S(), g.hash) && KeptAlive(old(g.S()), g.S())
    ensures Stores(old(g.S()), WriteUpvalue(obj, index, src), g.S())
  {
    ghost var s := g.S();
    KeptSelf(s);
    hide Inv, KeptAlive, Stores, UpvalueSet, SameBodies;
    var u := Field(g, obj, index);
    var v := Read(g, src);
    if u.Ref? && g.heap[u.id].kind == UPVAL {
      SetUpvalue(g, u.id, v);
    }
    UpvalueStored(s, g.S(), obj, index, src);
  }

  lemma UpvalueStored(s: State, s': State, obj: nat, index: nat, src: nat)
    requires SameRoots(s, s')
    requires var u := FieldValue(s, obj, index);
             if IsUpvalue(s, u) then SameBodies(UpvalueSet(s, u.id, SlotValue(s, src)), s') else s' == s
    ensures Stores(s, WriteUpvalue(obj, index, src), s')
  {
  }

  // ---- operations on roots ----

  method DoReadGlobals(g: GlobalState, dst: nat)
    requires Inv(g.S(), g.hash)
    modifies g`heap
    ensures Inv(g.S(), g.hash) && KeptAlive(old(g.S()), g.S())
    ensures Loads(old(g.S()), ReadGlobals(dst), g.S())
  {
    RunningStack(g.S(), g.hash);
    var v := g.heap[g.running].body.globals;
    HeldAlive(g.S(), g.running, v);
    Write(g, dst, v);
  }

  // Threads are never black: no barrier.
  method DoWriteGlobals(g: GlobalState, src: nat)
    requires Inv(g.S(), g.hash)
    modifies g`heap
    ensures Inv(g.S(), g.hash) && KeptAlive(old(g.S()), g.S())
    ensures Stores(old(g.S()), WriteGlobals(src), g.S())
  {
    RunningStack(g.S(), g.hash);
    var v := Read(g, src);
    var body := g.heap[g.running].body.(globals := v);
    GlobalsSetInv(g.S(), g.running, v, g.hash);
    BodySetKeeps(g.S(), g.running, body);
    Store(g, g.running, body);
  }

  method DoReadRegistry(g: GlobalState, dst: nat)
    requires Inv(g.S(), g.hash)
    modifies g`heap
    ensures Inv(g.S(), g.hash) && KeptAlive(old(g.S()), g.S())
    ensures Loads(old(g.S()), ReadRegistry(dst), g.S())
  {
    var v := g.registry;
    if v.Ref? {
      assert IsRoot(g.S(), v.id) && Alive(g.S(), v.id);
    }
    Write(g, dst, v);
  }

  method DoReadMetatable(g: GlobalState, dst: nat, tag: nat)
    requires Inv(g.S(), g.hash)
    modifies g`heap
    ensures Inv(g.S(), g.hash) && KeptAlive(old(g.S()), g.S())
    ensures Loads(old(g.S()), ReadMetatable(dst, tag), g.S())
  {
    if tag < |g.mt| && g.mt[tag].Ref? {
      var v := g.mt[tag];
      assert IsRoot(g.S(), v.id) && Alive(g.S(), v.id);
      Write(g, dst, v);
    }
  }

  // The metatables of the basic types are marked again in the atomic step: no barrier.
  method DoWriteMetatable(g: GlobalState, tag: nat, src: nat)
    requires Inv(g.S(), g.hash)
    modifies g`mt
    ensures Inv(g.S(), g.hash) && KeptAlive(old(g.S()), g.S())
    ensures Stores(old(g.S()), WriteMetatable(tag, src), g.S())
  {
    var v := Read(g, src);
    ghost var s := g.S();
    MetatablesAlive(s, v, tag);
    RunningStack(s, g.hash);
    RootsMovedInv(s, s.(mt := WithField(s.mt, tag, v)), g.hash);
    g.mt := WithField(g.mt, tag, v);
  }

  lemma MetatablesAlive(s: State, v: Value, tag: nat)
    requires LiveClosed(s) && AliveValue(s, v)
    ensures forall w :: w in WithField(s.mt, tag, v) ==> AliveValue(s, w)
  {
    forall w | w in WithField(s.mt, tag, v)
      ensures AliveValue(s, w)
    {
      if w.Ref? && w != v {
        assert w in s.mt && IsRoot(s, w.id) && Alive(s, w.id);
      }
    }
  }

  // The running thread is a root of its own.
  method DoResume(g: GlobalState, t: Value)
    requires Inv(g.S(), g.hash) && AliveValue(g.S(), t)
    modifies g`running
    ensures Inv(g.S(), g.hash) && KeptAlive(old(g.S()), g.S())
    ensures Same(if IsThread(old(g.S()), t) then old(g.S()).(running := t.id) else old(g.S()), g.S())
  {
    if t.Ref? && g.heap[t.id].kind == THREAD {
      ghost var s := g.S();
      forall w | w in s.mt
        ensures AliveValue(s, w)
      {
        if w.Ref? {
          assert IsRoot(s, w.id) && Alive(s, w.id);
        }
      }
      RootsMovedInv(s, s.(running := t.id), g.hash);
      g.running := t.id;
    }
  }

  method DoResumeThread(g: GlobalState, src: nat)
    requires Inv(g.S(), g.hash)
    modifies g`running
    ensures Inv(g.S(), g.hash) && KeptAlive(old(g.S()), g.S())
    ensures Switches(old(g.S()), ResumeThread(src), g.S())
  {
    hide Inv, KeptAlive, Same;
    var t := Read(g, src);
    DoResume(g, t);
  }

  method DoResumeMain(g: GlobalState)
    requires Inv(g.S(), g.hash)
    modifies g`running
    ensures Inv(g.S(), g.hash) && KeptAlive(old(g.S()), g.S())
    ensures Switches(old(g.S()), ResumeMain, g.S())
  {
    MainAlive(g.S(), g.hash);
    hide Inv, KeptAlive, Same;
    DoResume(g, Ref(g.main));
  }

  lemma MainAlive(s: State, hash: string -> nat)
    requires Inv(s, hash)
    ensures AliveValue(s, Ref(s.main)) && IsThread(s, Ref(s.main))
  {
    assert IsRoot(s, s.main) && Alive(s, s.main);
  }

  // ---- one operation ----

  // The operation does what it should, and nothing that can be reached is freed.
  ghost predicate GoodStep(s: State, s': State, op: Operation) {
    NothingLost(s, s') && Effect(s, op, s')
  }

  method Collect(g: GlobalState, all: bool)
    requires Inv(g.S(), g.hash)
    modifies g
    ensures Inv(g.S(), g.hash) && Preserved(old(g.S()), g.S()) && NothingLost(old(g.S()), g.S())
    ensures all ==> OnlySurvivors(old(g.S()), g.S())
  {
    ghost var s := g.S();
    if all {
      g.FullGC();
    } else {
      g.SingleStep();
    }
    PreservedLoses(s, g.S());
  }

  lemma PreservedLoses(s: State, s': State)
    requires Preserved(s, s')
    ensures NothingLost(s, s')
  {
    forall a | Reachable(s, a)
      ensures a in s'.heap
    {
      assert SameView(s, s', a);
    }
  }

  predicate IsLoad(op: Operation) {
    op.ClearSlot? || op.CopySlot? || op.ReadField? || op.ReadUpvalue? || op.ReadGlobals? || op.ReadRegistry? ||
      op.ReadMetatable?
  }

  predicate IsStoring(op: Operation) {
    op.WriteField? || op.WriteUpvalue? || op.WriteGlobals? || op.WriteMetatable?
  }

  predicate IsMaking(op: Operation) {
    op.MakeObject? || op.MakeString? || op.FixString? || op.MakeThread? || op.MakeClosure?
  }

  method Load(g: GlobalState, op: Operation)
    requires Inv(g.S(), g.hash) && IsLoad(op)
    modifies g
    ensures Inv(g.S(), g.hash) && KeptAlive(old(g.S()), g.S())
    ensures Effect(old(g.S()), op, g.S())
  {
    hide Inv, KeptAlive, Written, Same;
    match op
    case ClearSlot(dst) => DoClearSlot(g, dst);
    case CopySlot(dst, src) => DoCopySlot(g, dst, src);
    case ReadField(dst, obj, index) => DoReadField(g, dst, obj, index);
    case ReadUpvalue(dst, obj, index) => DoReadUpvalue(g, dst, obj, index);
    case ReadGlobals(dst) => DoReadGlobals(g, dst);
    case ReadRegistry(dst) => DoReadRegistry(g, dst);
    case ReadMetatable(dst, tag) => DoReadMetatable(g, dst, tag);
  }

  method StoreOp(g: GlobalState, op: Operation)
    requires Inv(g.S(), g.hash) && IsStoring(op)
    modifies g
    ensures Inv(g.S(), g.hash) && KeptAlive(old(g.S()), g.S())
    ensures Effect(old(g.S()), op, g.S())
  {
    hide Inv, KeptAlive, Encloses, StringFor, TopMoved, ClosesFrom, Same, Written;
    match op
    case WriteField(obj, index, src) => DoWriteField(g, obj, index, src);
    case WriteUpvalue(obj, index, src) => DoWriteUpvalue(g, obj, index, src);
    case WriteGlobals(src) => DoWriteGlobals(g, src);
    case WriteMetatable(tag, src) => DoWriteMetatable(g, tag, src);
  }

  method Make(g: GlobalState, op: Operation)
    requires Inv(g.S(), g.hash) && IsMaking(op)
    modifies g
    ensures Inv(g.S(), g.hash) && KeptAlive(old(g.S()), g.S())
    ensures Effect(old(g.S()), op, g.S())
  {
    hide Inv, KeptAlive, Encloses, StringFor, TopMoved, ClosesFrom, Same, Written;
    match op
    case MakeObject(kind, dst, src) => DoMakeObject(g, kind, dst, src);
    case MakeString(dst, content) => DoMakeString(g, dst, content);
    case FixString(content) => DoFixString(g, content);
    case MakeThread(dst) => DoMakeThread(g, dst);
    case MakeClosure(dst, captures) => DoMakeClosure(g, dst, captures);
  }

  method Switch(g: GlobalState, op: Operation)
    requires Inv(g.S(), g.hash) && !ByCollector(op) && !IsLoad(op) && !IsStoring(op) && !IsMaking(op)
    modifies g
    ensures Inv(g.S(), g.hash) && KeptAlive(old(g.S()), g.S())
    ensures Effect(old(g.S()), op, g.S())
  {
    hide Inv, KeptAlive, Encloses, StringFor, TopMoved, ClosesFrom, Same, Written;
    match op
    case MoveStackTop(top) => SetTop(g, top);
    case CloseUpvalues(level) => DoClose(g, level);
    case ResumeThread(src) => DoResumeThread(g, src);
    case ResumeMain => DoResumeMain(g);
  }

  method Mutate(g: GlobalState, op: Operation)
    requires Inv(g.S(), g.hash) && !ByCollector(op)
    modifies g
    ensures Inv(g.S(), g.hash) && KeptAlive(old(g.S()), g.S())
    ensures Effect(old(g.S()), op, g.S())
  {
    hide Inv, KeptAlive, Effect;
    if IsLoad(op) {
      Load(g, op);
    } else if IsStoring(op) {
      StoreOp(g, op);
    } else if IsMaking(op) {
      Make(g, op);
    } else {
      Switch(g, op);
    }
  }

  method DoClose(g: GlobalState, level: nat)
    requires Inv(g.S(), g.hash)
    modifies g`heap, g`uvhead, g`rootgc, g`sweep, g`gray
    ensures Inv(g.S(), g.hash) && KeptAlive(old(g.S()), g.S())
    ensures ClosesFrom(old(g.S()), g.S(), old(g.S()).running, level)
  {
    ghost var s := g.S();
    RunningStack(s, g.hash);
    g.Close(g.running, level);
    ClosesFromKeeps(s, g.S(), g.running, level);
  }

  lemma CollectedEffect(s: State, s': State, op: Operation)
    requires ByCollector(op) && Preserved(s, s') && (op.CollectAll? ==> OnlySurvivors(s, s'))
    ensures Effect(s, op, s')
  {
    hide Preserved, OnlySurvivors;
  }

  method Perform(g: GlobalState, op: Operation)
    requires Inv(g.S(), g.hash)
    modifies g
    ensures Inv(g.S(), g.hash) && GoodStep(old(g.S()), g.S(), op)
  {
    ghost var s := g.S();
    InvLive(s, g.hash);
    hide Inv, Effect, Preserved, OnlySurvivors, NothingLost, LiveClosed;
    if ByCollector(op) {
      Collect(g, op.CollectAll?);
      CollectedEffect(s, g.S(), op);
    } else {
      Mutate(g, op);
      AliveIsKept(s, g.S());
    }
  }

  // The states a run goes through: the invariant holds in each, and each operation is a good step.
  ghost predicate SafeRun(states: seq<State>, ops: seq<Operation>, hash: string -> nat) {
    && |states| == |ops| + 1
    && (forall i :: 0 <= i < |states| ==> Inv(states[i], hash))
    && (forall i :: 0 <= i < |ops| ==> GoodStep(states[i], states[i + 1], ops[i]))
  }

  lemma SafeRunGrows(states: seq<State>, ops: seq<Operation>, hash: string -> nat, s: State, op: Operation)
    requires SafeRun(states, ops, hash) && Inv(s, hash) && GoodStep(states[|ops|], s, op)
    ensures SafeRun(states + [s], ops + [op], hash)
  {
    hide Inv, GoodStep;
  }

  lemma SafeRunStarts(s: State, hash: string -> nat)
    requires Inv(s, hash)
    ensures SafeRun([s], [], hash)
  {
  }

  // Safety over all runs: whatever the program does between the steps of the collector, the invariant
  // holds at every moment, and no object that can be reached is ever freed.
  method Run(hash: string -> nat, ops: seq<Operation>) returns (g: GlobalState, ghost states: seq<State>)
    ensures fresh(g) && SafeRun(states, ops, hash) && states[|ops|] == g.S()
  {
    hide Inv, GoodStep;
    g := new GlobalState(hash);
    states := [g.S()];
    SafeRunStarts(g.S(), hash);
    var i := 0;
    assert ops[..0] == [];
    while i < |ops|
      invariant fresh(g) && g.hash == hash && 0 <= i <= |ops|
      invariant SafeRun(states, ops[..i], hash) && states[i] == g.S()
    {
      SafeNow(states, ops[..i], hash);
      Perform(g, ops[i]);
      SafeRunGrows(states, ops[..i], hash, g.S(), ops[i]);
      states := states + [g.S()];
      PrefixNext(ops, i);
      i := i + 1;
    }
    assert ops[..i] == ops;
  }

  lemma SafeNow(states: seq<State>, ops: seq<Operation>, hash: string -> nat)
    requires SafeRun(states, ops, hash)
    ensures Inv(states[|ops|], hash)
  {
  }

  // An object that can be reached at every moment of a run is there at every moment, and right after.
  lemma {:induction false} NeverFreed(states: seq<State>, ops: seq<Operation>, hash: string -> nat, a: Id, i: nat)
    requires SafeRun(states, ops, hash) && i < |ops| && Reachable(states[i], a)
    ensures a in states[i].heap && a in states[i + 1].heap
  {
    assert Inv(states[i], hash);
    ReachableAlive(states[i], a);
    assert GoodStep(states[i], states[i + 1], ops[i]);
  }
}
