// What each operation of a program does to what the program can see.  Colours, gray lists, the order of
// rootgc, the string table and the position of the collector play no part in it.
module Semantics {
  import opened Objects
  import opened Marking
  import opened Mutation
  import opened Collection
  import opened Interpreter

  // dst, src and obj are stack slots.  An operation on a slot that is not in use, or that finds there
  // nothing it applies to, does nothing.
  datatype Operation =
    | ClearSlot(dst: nat)
    | CopySlot(dst: nat, src: nat)
    | MoveStackTop(top: nat)
    | CloseUpvalues(level: nat)
    | MakeObject(kind: Kind, dst: nat, src: nat)
    | MakeString(dst: nat, content: string)
    | FixString(content: string)
    | MakeThread(dst: nat)
    | MakeClosure(dst: nat, captures: seq<nat>)
    | ReadField(dst: nat, obj: nat, index: nat)
    | WriteField(obj: nat, index: nat, src: nat)
    | ReadUpvalue(dst: nat, obj: nat, index: nat)
    | WriteUpvalue(obj: nat, index: nat, src: nat)
    | ReadGlobals(dst: nat)
    | WriteGlobals(src: nat)
    | ReadRegistry(dst: nat)
    | ReadMetatable(dst: nat, tag: nat)
    | WriteMetatable(tag: nat, src: nat)
    | ResumeThread(src: nat)
    | ResumeMain
    | CollectStep
    | CollectAll

  predicate ByCollector(op: Operation) {
    op.CollectStep? || op.CollectAll?
  }

  // ---- reading ----

  predicate HasStack(s: State) {
    s.running in s.heap && s.heap[s.running].body.Stack? && s.heap[s.running].body.top <= |s.heap[s.running].body.slots|
  }

  // The value of a slot in use
  function SlotValue(s: State, i: nat): Value {
    if HasStack(s) && i < s.heap[s.running].body.top then s.heap[s.running].body.slots[i] else Nil
  }

  predicate HasFields(s: State, v: Value) {
    v.Ref? && v.id in s.heap && s.heap[v.id].body.Fields?
  }

  // The field at index of the object in slot obj
  function FieldValue(s: State, obj: nat, index: nat): Value {
    var o := SlotValue(s, obj);
    if HasFields(s, o) then Entry(s.heap[o.id].body.refs, index) else Nil
  }

  predicate IsUpvalue(s: State, v: Value) {
    v.Ref? && v.id in s.heap && s.heap[v.id].kind == UPVAL
  }

  predicate IsThread(s: State, v: Value) {
    v.Ref? && v.id in s.heap && s.heap[v.id].kind == THREAD
  }

  predicate Makable(kind: Kind) {
    kind == USERDATA || kind == FUNCTION || kind == TABLE || kind == PROTO
  }

  predicate InUse(s: State, captures: seq<nat>) {
    HasStack(s) && forall k :: 0 <= k < |captures| ==> captures[k] < s.heap[s.running].body.top
  }

  // ---- writing ----

  ghost function Written(s: State, i: nat, v: Value): State {
    if HasStack(s) && i < s.heap[s.running].body.top then
      BodySet(s, s.running, WithSlot(s.heap[s.running].body, i, v)) else s
  }

  ghost function Added(s: State, a: Id, kind: Kind, body: Body): State {
    s.(heap := s.heap[a := Obj(kind, NewMarks(s.white), body)])
  }

  // No difference that the program could see
  ghost predicate Same(s: State, s': State) {
    SameBodies(s, s') && SameRoots(s, s')
  }

  lemma SameTrans(s0: State, s1: State, s2: State)
    requires Same(s0, s1) && Same(s1, s2)
    ensures Same(s0, s2)
  {
  }

  lemma WrittenSame(s: State, s': State, i: nat, v: Value)
    requires Same(s, s')
    ensures Same(Written(s, i, v), Written(s', i, v))
  {
    assert s.running in s.heap ==> s'.heap[s.running].body == s.heap[s.running].body;
  }

  // A new object is in slot dst.
  ghost predicate Makes(s: State, s': State, dst: nat, kind: Kind, body: Body) {
    exists a :: a !in s.heap && Same(Written(Added(s, a, kind, body), dst, Ref(a)), s')
  }

  // a is the string object with this content: the one that is there, or else a new one.
  ghost predicate StringFor(s: State, a: Id, content: string) {
    && (forall b :: b in s.heap && s.heap[b].body == Text(content) ==> b == a)
    && (a in s.heap ==> s.heap[a].body == Text(content) && s.heap[a].kind == STRING)
  }

  // ---- the operations ----

  ghost predicate Stores(s: State, op: Operation, s': State)
    requires op.WriteField? || op.WriteUpvalue? || op.WriteGlobals? || op.WriteMetatable?
  {
    var v := SlotValue(s, op.src);
    match op
    case WriteField(obj, index, src) =>
      var o := SlotValue(s, obj);
      Same(if HasFields(s, o) then BodySet(s, o.id, Fields(WithField(s.heap[o.id].body.refs, index, v))) else s, s')
    case WriteUpvalue(obj, index, src) =>
      var u := FieldValue(s, obj, index);
      Same(if IsUpvalue(s, u) then UpvalueSet(s, u.id, v) else s, s')
    case WriteGlobals(src) =>
      HasStack(s) && Same(BodySet(s, s.running, s.heap[s.running].body.(globals := v)), s')
    case WriteMetatable(tag, src) => Same(s.(mt := WithField(s.mt, tag, v)), s')
  }

  ghost predicate Loads(s: State, op: Operation, s': State) {
    match op
    case ClearSlot(dst) => Same(Written(s, dst, Nil), s')
    case CopySlot(dst, src) => Same(Written(s, dst, SlotValue(s, src)), s')
    case ReadField(dst, obj, index) => Same(Written(s, dst, FieldValue(s, obj, index)), s')
    case ReadUpvalue(dst, obj, index) =>
      var u := FieldValue(s, obj, index);
      Same(if IsUpvalue(s, u) then Written(s, dst, UpvalueValue(s, u.id)) else s, s')
    case ReadGlobals(dst) => HasStack(s) && Same(Written(s, dst, s.heap[s.running].body.globals), s')
    case ReadRegistry(dst) => Same(Written(s, dst, s.registry), s')
    case ReadMetatable(dst, tag) =>
      var m := Entry(s.mt, tag);
      Same(if m.Ref? then Written(s, dst, m) else s, s')
    case _ => true
  }

  ghost predicate Creates(s: State, op: Operation, s': State) {
    match op
    case MakeObject(kind, dst, src) =>
      if Makable(kind) then Makes(s, s', dst, kind, Fields([SlotValue(s, src)])) else Same(s, s')
    case MakeString(dst, content) =>
      exists a :: StringFor(s, a, content) && Same(Written(Added(s, a, STRING, Text(content)), dst, Ref(a)), s')
    case FixString(content) =>
      exists a :: StringFor(s, a, content) && Same(Added(s, a, STRING, Text(content)), s') && a in s'.heap &&
        s'.heap[a].marks.fixed
    case MakeThread(dst) => HasStack(s) && Makes(s, s', dst, THREAD, NewStack(s.heap[s.running].body.globals))
    case MakeClosure(dst, captures) =>
      if InUse(s, captures) then exists m, a :: Encloses(s, m, a, captures) && Same(Written(m, dst, Ref(a)), s')
        else Same(s, s')
    case _ => true
  }

  ghost predicate Switches(s: State, op: Operation, s': State) {
    match op
    case ResumeThread(src) =>
      var t := SlotValue(s, src);
      Same(if IsThread(s, t) then s.(running := t.id) else s, s')
    case ResumeMain => Same(s.(running := s.main), s')
    case MoveStackTop(top) => TopMoved(s, s', top)
    case CloseUpvalues(level) => ClosesFrom(s, s', s.running, level)
    case _ => true
  }

  ghost predicate Collects(s: State, op: Operation, s': State) {
    && (ByCollector(op) ==> Preserved(s, s'))
    && (op.CollectAll? ==> OnlySurvivors(s, s'))
  }

  // s' is what op makes of s.  Each clause speaks of the operations it names and is true of the others.
  ghost predicate Effect(s: State, op: Operation, s': State) {
    && (op.WriteField? || op.WriteUpvalue? || op.WriteGlobals? || op.WriteMetatable? ==> Stores(s, op, s'))
    && Loads(s, op, s') && Creates(s, op, s') && Switches(s, op, s') && Collects(s, op, s')
  }
}
