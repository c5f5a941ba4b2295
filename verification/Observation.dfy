// What a program reads after an operation, slot by slot and field by field.
module Observation {
  import opened Objects
  import opened Invariants
  import opened Marking
  import opened Mutation
  import opened Interpreter
  import opened Semantics

  // The value at index of an object
  function FieldOf(s: State, a: Id, index: nat): Value {
    if a in s.heap && s.heap[a].body.Fields? && index < |s.heap[a].body.refs| then s.heap[a].body.refs[index] else Nil
  }

  // Every object but one holds what it held.
  ghost predicate OthersSame(s: State, s': State, a: Id) {
    && s'.heap.Keys == s.heap.Keys
    && forall b {:trigger s'.heap[b]} :: b in s.heap ==>
         s'.heap[b].kind == s.heap[b].kind && (b != a ==> s'.heap[b].body == s.heap[b].body)
  }

  // A slot that is written reads back as the value written, and no other slot or object changes.
  ghost predicate SlotChanged(s: State, s': State, dst: nat, v: Value)
    requires HasStack(s)
  {
    && OthersSame(s, s', s.running) && s'.running == s.running && s'.mt == s.mt && s'.registry == s.registry
    && s'.heap[s.running].body.Stack? && s'.heap[s.running].body.top == s.heap[s.running].body.top
    && s'.heap[s.running].body.globals == s.heap[s.running].body.globals
    && forall j: nat {:trigger SlotValue(s', j)} :: SlotValue(s', j) ==
         if j == dst && j < s.heap[s.running].body.top then v else SlotValue(s, j)
  }

  lemma WrittenSlot(s: State, s': State, dst: nat, v: Value)
    requires HasStack(s) && Same(Written(s, dst, v), s')
    ensures SlotChanged(s, s', dst, v)
  {
  }

  lemma SlotCleared(s: State, s': State, dst: nat)
    requires HasStack(s) && Effect(s, ClearSlot(dst), s')
    ensures SlotChanged(s, s', dst, Nil)
  {
    WrittenSlot(s, s', dst, Nil);
  }

  lemma SlotCopied(s: State, s': State, dst: nat, src: nat)
    requires HasStack(s) && Effect(s, CopySlot(dst, src), s')
    ensures SlotChanged(s, s', dst, SlotValue(s, src))
  {
    WrittenSlot(s, s', dst, SlotValue(s, src));
  }

  lemma FieldRead(s: State, s': State, dst: nat, obj: nat, index: nat)
    requires HasStack(s) && Effect(s, ReadField(dst, obj, index), s')
    ensures var o := SlotValue(s, obj);
            SlotChanged(s, s', dst, if o.Ref? then FieldOf(s, o.id, index) else Nil)
  {
    WrittenSlot(s, s', dst, FieldValue(s, obj, index));
  }

  // lua_rawset and lua_rawseti: the field reads back as the value stored, every other field of the object and every
  // other object is as before.
  lemma FieldWritten(s: State, s': State, obj: nat, index: nat, src: nat)
    requires HasStack(s) && Effect(s, WriteField(obj, index, src), s') && HasFields(s, SlotValue(s, obj))
    ensures var o := SlotValue(s, obj).id;
            && OthersSame(s, s', o) && s'.heap[o].body.Fields? && s'.running == s.running && s'.mt == s.mt
            && forall j :: FieldOf(s', o, j) == if j == index then SlotValue(s, src) else FieldOf(s, o, j)
    ensures FieldValue(s', obj, index) == SlotValue(s, src)
  {
    var o, v := SlotValue(s, obj).id, SlotValue(s, src);
    var refs := s.heap[o].body.refs;
    assert s'.heap[o].body == Fields(WithField(refs, index, v));
    hide WithField;
    forall j: nat
      ensures FieldOf(s', o, j) == if j == index then v else FieldOf(s, o, j)
    {
      WithFieldEntry(refs, index, v, j);
    }
    assert s'.heap[s.running].body == s.heap[s.running].body;
    assert FieldOf(s', o, index) == v;
  }

  // Where there is no such object, nothing changes.
  lemma NoFieldWritten(s: State, s': State, obj: nat, index: nat, src: nat)
    requires Effect(s, WriteField(obj, index, src), s') && !HasFields(s, SlotValue(s, obj))
    ensures SameBodies(s, s') && SameRoots(s, s')
  {
  }

  // lua_setmetatable for a basic type: only the entry of the type changes.
  lemma MetatableWritten(s: State, s': State, tag: nat, src: nat)
    requires Effect(s, WriteMetatable(tag, src), s')
    ensures tag < |s'.mt| && s'.mt[tag] == SlotValue(s, src)
    ensures forall t :: 0 <= t < |s'.mt| && t != tag ==> s'.mt[t] == if t < |s.mt| then s.mt[t] else Nil
    ensures |s.mt| <= |s'.mt| && SameBodies(s, s') && s'.running == s.running
  {
  }

  // lua_getmetatable: nothing is pushed where there is no metatable.
  lemma MetatableRead(s: State, s': State, dst: nat, tag: nat)
    requires HasStack(s) && Effect(s, ReadMetatable(dst, tag), s')
    ensures if tag < |s.mt| && s.mt[tag].Ref? then SlotChanged(s, s', dst, s.mt[tag])
            else SameBodies(s, s') && SameRoots(s, s')
  {
    if tag < |s.mt| && s.mt[tag].Ref? {
      WrittenSlot(s, s', dst, s.mt[tag]);
    }
  }

  // The globals of the running thread are replaced, and its slots stay.
  lemma GlobalsWritten(s: State, s': State, src: nat)
    requires HasStack(s) && Effect(s, WriteGlobals(src), s')
    ensures OthersSame(s, s', s.running) && HasStack(s') && s'.heap[s.running].body.globals == SlotValue(s, src)
    ensures forall j: nat :: SlotValue(s', j) == SlotValue(s, j)
  {
  }

  // An open upvalue is the stack slot it is on.
  lemma OpenUpvalueIsSlot(s: State, u: Id, slot: nat)
    requires HasStack(s) && u in s.heap && s.heap[u].kind == UPVAL && s.heap[u].body == Open(s.running, slot)
    requires slot < s.heap[s.running].body.top
    ensures UpvalueValue(s, u) == SlotValue(s, slot)
  {
  }

  // Raising or lowering the top: slots that were in use and still are keep their values, all others read as nil.
  lemma TopMovedTo(s: State, s': State, top: nat)
    requires HasStack(s) && Effect(s, MoveStackTop(top), s')
    ensures s'.running == s.running && HasStack(s') && s'.heap[s.running].body.top == top
    ensures forall j: nat :: SlotValue(s', j) == if j < top then SlotValue(s, j) else Nil
  {
  }

  // ---- upvalues and threads ----

  lemma UpvalueRead(s: State, s': State, dst: nat, obj: nat, index: nat, u: Id)
    requires HasStack(s) && Effect(s, ReadUpvalue(dst, obj, index), s')
    requires FieldValue(s, obj, index) == Ref(u) && u in s.heap && s.heap[u].kind == UPVAL
    ensures SlotChanged(s, s', dst, UpvalueValue(s, u))
  {
    WrittenSlot(s, s', dst, UpvalueValue(s, u));
  }

  // The upvalue reads back as the value stored, through whatever closure it is read; no other upvalue changes.
  lemma UpvalueWritten(s: State, s': State, obj: nat, index: nat, src: nat, u: Id)
    requires ThreadsOk(s) && AllProper(s) && Effect(s, WriteUpvalue(obj, index, src), s')
    requires FieldValue(s, obj, index) == Ref(u) && u in s.heap && s.heap[u].kind == UPVAL
    ensures forall w :: w in s.heap && s.heap[w].kind == UPVAL ==>
                          w in s'.heap && s'.heap[w].kind == UPVAL
                          && UpvalueValue(s', w) == if w == u then SlotValue(s, src) else UpvalueValue(s, w)
  {
    UpvalueSetValue(s, u, SlotValue(s, src));
    var s1 := UpvalueSet(s, u, SlotValue(s, src));
    assert SameBodies(s1, s');
    hide Effect, UpvalueSet, FieldValue, AllProper, ThreadsOk;
    forall w | w in s.heap && s.heap[w].kind == UPVAL
      ensures w in s'.heap && s'.heap[w].kind == UPVAL && UpvalueValue(s', w) == UpvalueValue(s1, w)
    {
      SameBodiesSameValue(s1, s', w);
    }
  }

  lemma SameBodiesSameValue(s: State, s': State, w: Id)
    requires SameBodies(s, s') && w in s.heap && s.heap[w].kind == UPVAL
    ensures UpvalueValue(s', w) == UpvalueValue(s, w)
  {
    if s.heap[w].body.Open? {
      var t := s.heap[w].body.thread;
      assert t in s.heap ==> s'.heap[t].body == s.heap[t].body;
    }
  }

  // luaF_close: no upvalue changes its value, and those of the running thread that are still open are below the level.
  lemma UpvaluesClosed(s: State, s': State, level: nat)
    requires HasStack(s) && ThreadsOk(s) && Effect(s, CloseUpvalues(level), s')
    ensures HasStack(s') && forall j: nat :: SlotValue(s', j) == SlotValue(s, j)
    ensures forall w :: w in s'.heap && s'.heap[w].kind == UPVAL ==>
                          w in s.heap && s.heap[w].kind == UPVAL && UpvalueValue(s', w) == UpvalueValue(s, w)
    ensures forall u :: u in s'.heap[s.running].body.openupval ==>
                          u in s.heap && s.heap[u].body.Open? && s.heap[u].body.slot < level
  {
  }

  // lua_resume: the thread in the slot runs next, if there is one.
  lemma ThreadResumed(s: State, s': State, src: nat)
    requires Effect(s, ResumeThread(src), s')
    ensures SameBodies(s, s') && s'.mt == s.mt
    ensures var v := SlotValue(s, src);
            s'.running == if v.Ref? && v.id in s.heap && s.heap[v.id].kind == THREAD then v.id else s.running
  {
  }

  // ---- new objects ----

  // One new object; of the old ones only the running thread changes, and there only slot dst, if it is in use.
  ghost predicate MadeAt(s: State, s': State, dst: nat, a: Id)
    requires HasStack(s)
  {
    && a !in s.heap && s'.heap.Keys == s.heap.Keys + {a} && s'.running == s.running && s'.mt == s.mt
    && (forall b {:trigger s'.heap[b]} :: b in s.heap && b != s.running ==> s'.heap[b].body == s.heap[b].body)
    && forall j: nat {:trigger SlotValue(s', j)} :: SlotValue(s', j) ==
         if j == dst && j < s.heap[s.running].body.top then Ref(a) else SlotValue(s, j)
  }

  lemma MadeThere(s: State, s': State, dst: nat, a: Id, kind: Kind, body: Body)
    requires HasStack(s) && a !in s.heap && Same(Written(Added(s, a, kind, body), dst, Ref(a)), s')
    ensures MadeAt(s, s', dst, a) && s'.heap[a].kind == kind && s'.heap[a].body == body
  {
    var s1 := Added(s, a, kind, body);
    assert HasStack(s1) && forall j: nat :: SlotValue(s1, j) == SlotValue(s, j);
    WrittenSlot(s1, s', dst, Ref(a));
    hide Written;
  }

  // A new table, userdata, function or prototype holds the value of slot src and nothing else.
  lemma ObjectMade(s: State, s': State, kind: Kind, dst: nat, src: nat) returns (a: Id)
    requires HasStack(s) && Effect(s, MakeObject(kind, dst, src), s')
    requires kind == USERDATA || kind == FUNCTION || kind == TABLE || kind == PROTO
    ensures MadeAt(s, s', dst, a) && s'.heap[a].kind == kind && s'.heap[a].body.Fields?
    ensures forall j: nat :: FieldOf(s', a, j) == if j == 0 then SlotValue(s, src) else Nil
  {
    var body := Fields([SlotValue(s, src)]);
    a :| a !in s.heap && Same(Written(Added(s, a, kind, body), dst, Ref(a)), s');
    hide Written, Added, Same, Effect, MadeAt;
    MadeThere(s, s', dst, a, kind, body);
  }

  // A new thread shares the globals of the running one and has an empty stack.
  lemma ThreadMade(s: State, s': State, dst: nat) returns (a: Id)
    requires HasStack(s) && Effect(s, MakeThread(dst), s')
    ensures MadeAt(s, s', dst, a) && s'.heap[a].kind == THREAD && s'.heap[a].body.Stack?
    ensures s'.heap[a].body.globals == s.heap[s.running].body.globals && s'.heap[a].body.openupval == []
    ensures forall i :: 0 <= i < |s'.heap[a].body.slots| ==> s'.heap[a].body.slots[i] == Nil
  {
    var body := NewStack(s.heap[s.running].body.globals);
    a :| a !in s.heap && Same(Written(Added(s, a, THREAD, body), dst, Ref(a)), s');
    hide Written, Added, Same, Effect, MadeAt;
    MadeThere(s, s', dst, a, THREAD, body);
  }

  // The string object with the content is in the slot, and it is the only one.
  lemma StringMade(s: State, s': State, dst: nat, content: string)
    requires HasStack(s) && Effect(s, MakeString(dst, content), s') && dst < s.heap[s.running].body.top
    requires s.heap[s.running].kind == THREAD && s.heap[s.running].body.slots != []
    ensures var v := SlotValue(s', dst);
            && v.Ref? && v.id in s'.heap && s'.heap[v.id].body == Text(content)
            && forall b :: b in s'.heap && s'.heap[b].body == Text(content) ==> b == v.id
  {
    var a :| StringFor(s, a, content) && Same(Written(Added(s, a, STRING, Text(content)), dst, Ref(a)), s');
    hide Effect;
    var s1 := Added(s, a, STRING, Text(content));
    assert a != s.running && s1.heap[s.running].body == s.heap[s.running].body;
    assert forall b :: b in s1.heap && s1.heap[b].body == Text(content) ==> b == a;
    hide StringFor, Added;
    WrittenSlot(s1, s', dst, Ref(a));
    hide Written;
  }

  // A new closure: its upvalues are on the slots it captures, one after the other, and it has the globals of the
  // running thread.
  lemma ClosureMade(s: State, s': State, dst: nat, captures: seq<nat>) returns (a: Id)
    requires HasStack(s) && Effect(s, MakeClosure(dst, captures), s')
    requires forall k :: 0 <= k < |captures| ==> captures[k] < s.heap[s.running].body.top
    ensures a !in s.heap && s'.running == s.running && Holding(s', a, s.heap[s.running].body.globals, captures)
    ensures forall j: nat :: SlotValue(s', j) ==
                             if j == dst && j < s.heap[s.running].body.top then Ref(a) else SlotValue(s, j)
  {
    assert InUse(s, captures);
    var m: State;
    m, a :| Encloses(s, m, a, captures) && Same(Written(m, dst, Ref(a)), s');
    hide Effect, InUse;
    EnclosedSlots(s, m, a, captures);
    hide Encloses;
    WrittenSlot(m, s', dst, Ref(a));
    hide Written, Same;
    OthersRead(m, s', a, captures);
  }

  // The upvalue k of a closure is open on the slot.
  predicate CapturesSlot(s: State, a: Id, k: nat, slot: nat) {
    var u := FieldOf(s, a, k + 1);
    u.Ref? && u.id in s.heap && s.heap[u.id].body == Open(s.running, slot)
  }

  // What a closure holds
  ghost predicate Holding(s: State, a: Id, globals: Value, captures: seq<nat>) {
    && a in s.heap && s.heap[a].kind == FUNCTION && FieldOf(s, a, 0) == globals
    && forall k :: 0 <= k < |captures| ==> CapturesSlot(s, a, k, captures[k])
  }

  lemma EnclosedSlots(s: State, m: State, a: Id, captures: seq<nat>)
    requires HasStack(s) && Encloses(s, m, a, captures)
    ensures HasStack(m) && m.running == s.running && a !in s.heap && a != s.running
    ensures m.heap[s.running].body.top == s.heap[s.running].body.top
    ensures forall j: nat :: SlotValue(m, j) == SlotValue(s, j)
    ensures Holding(m, a, s.heap[s.running].body.globals, captures)
  {
    assert BodyBefore(s, m, s.running);
    forall k | 0 <= k < |captures|
      ensures CapturesSlot(m, a, k, captures[k])
    {
      assert SharesSlot(m, m.heap[a].body.refs[k + 1], captures[k]);
    }
  }

  lemma OthersRead(m: State, s': State, a: Id, captures: seq<nat>)
    requires HasStack(m) && OthersSame(m, s', m.running) && s'.running == m.running && a != m.running && a in m.heap
    requires Holding(m, a, FieldOf(m, a, 0), captures)
    ensures Holding(s', a, FieldOf(m, a, 0), captures)
  {
    assert s'.heap[a].body == m.heap[a].body;
    forall k | 0 <= k < |captures|
      ensures CapturesSlot(s', a, k, captures[k])
    {
      assert CapturesSlot(m, a, k, captures[k]);
      var u := FieldOf(m, a, k + 1);
      assert FieldOf(s', a, k + 1) == u;
      assert u.id != m.running ==> s'.heap[u.id].body == m.heap[u.id].body;
    }
  }
}
