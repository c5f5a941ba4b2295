// The operations by which a program changes the objects (lapi.c, lvm.c, lfunc.c, lstring.c), with their
// barriers.
module Interpreter {
  import opened Objects
  import opened Marking
  import opened Propagation
  import opened Invariants
  import opened Sweeping
  import opened StringTable
  import opened Mutation
  import opened Collection
  import opened Collector

  const MAX_INT := 2147483647
  const INITIAL_STACK := 45     // BASIC_STACK_SIZE + EXTRA_STACK

  // An address that no object has
  method NewId(g: GlobalState) returns (a: Id)
    ensures a !in g.heap
  {
    a := 0;
    var rest := g.heap.Keys;
    while rest != {}
      invariant rest <= g.heap.Keys && forall x :: x in g.heap && x !in rest ==> x < a
      decreases rest
    {
      var x :| x in rest;
      rest := rest - {x};
      a := if x >= a then x + 1 else a;
    }
  }

  // ---- the stack of the running thread ----

  lemma RunningStack(s: State, hash: string -> nat)
    requires Inv(s, hash)
    ensures s.running in s.heap && s.heap[s.running].body.Stack? &&
            s.heap[s.running].body.top <= |s.heap[s.running].body.slots|
    ensures !DeadIn(s, s.running)
  {
    assert Proper(s.heap[s.running]);
    assert IsRoot(s, s.running) && Alive(s, s.running);
  }

  lemma SlotAlive(s: State, i: nat, hash: string -> nat)
    requires Inv(s, hash) && s.running in s.heap && s.heap[s.running].body.Stack? && i < |s.heap[s.running].body.slots|
    ensures AliveValue(s, s.heap[s.running].body.slots[i])
  {
    RunningStack(s, hash);
    var v := s.heap[s.running].body.slots[i];
    if v.Ref? {
      assert Holds(s, s.running, v.id) && Alive(s, v.id);
    }
  }

  lemma HeldAlive(s: State, a: Id, v: Value)
    requires LiveClosed(s) && a in s.heap && !DeadIn(s, a) && (v.Ref? ==> Holds(s, a, v.id))
    ensures AliveValue(s, v)
  {
    if v.Ref? {
      assert Alive(s, v.id);
    }
  }

  // setobjs2s: no barrier, because threads are never black.
  method SetSlot(g: GlobalState, t: Id, i: nat, v: Value)
    requires Inv(g.S(), g.hash) && t in g.heap && g.heap[t].body.Stack? && i < |g.heap[t].body.slots| &&
             AliveValue(g.S(), v)
    modifies g`heap
    ensures g.S() == BodySet(old(g.S()), t, WithSlot(old(g.heap)[t].body, i, v)) && Inv(g.S(), g.hash)
    ensures KeptAlive(old(g.S()), g.S())
  {
    BodySetKeeps(g.S(), t, WithSlot(g.heap[t].body, i, v));
    SlotSetInv(g.S(), t, i, v, g.hash);
    g.heap := g.heap[t := g.heap[t].(body := g.heap[t].body.(slots := g.heap[t].body.slots[i := v]))];
  }

  // lua_settop
  method MoveTop(g: GlobalState, t: Id, n: nat)
    requires t in g.heap && g.heap[t].body.Stack? && g.heap[t].body.top <= |g.heap[t].body.slots|
    modifies g`heap
    ensures t in g.heap && g.S() == BodySet(old(g.S()), t, WithTop(old(g.heap)[t].body, n))
  {
    var b := g.heap[t].body;
    var slots, top := b.slots, b.top;
    assert n > b.top ==> slots == Refilled(b.slots, b.top, top);
    while top < n
      invariant g.S() == old(g.S()) && b.top <= top && (top <= n || top == b.top)
      invariant if n > b.top then b.top <= top && slots == Refilled(b.slots, b.top, top) else slots == b.slots
    {
      RefilledStep(b.slots, b.top, top);
      slots := if top < |slots| then slots[top := Nil] else slots + [Nil];
      top := top + 1;
    }
    g.heap := g.heap[t := g.heap[t].(body := b.(slots := slots, top := n))];
  }

  // The slots that the running thread stops using have been closed; those it starts using are nil.
  ghost predicate TopMoved(s: State, s': State, n: nat) {
    exists m: State :: ClosesFrom(s, m, s.running, n) && s.running in m.heap && m.heap[s.running].body.Stack? &&
      m.heap[s.running].body.top <= |m.heap[s.running].body.slots| &&
      s' == BodySet(m, s.running, WithTop(m.heap[s.running].body, n))
  }

  // The top moves, after luaF_close when it moves down.
  method SetTop(g: GlobalState, n: nat)
    requires Inv(g.S(), g.hash)
    modifies g`heap, g`uvhead, g`rootgc, g`sweep, g`gray
    ensures Inv(g.S(), g.hash) && KeptAlive(old(g.S()), g.S())
    ensures TopMoved(old(g.S()), g.S(), n)
  {
    ghost var s := g.S();
    RunningStack(s, g.hash);
    g.Close(g.running, n);
    ghost var s1 := g.S();
    ClosesFromKeeps(s, s1, g.running, n);
    TopSetInv(s1, g.running, n, g.hash);
    MoveTop(g, g.running, n);
    BodySetKeeps(s1, g.running, WithTop(s1.heap[g.running].body, n));
    KeptTrans(s, s1, g.S());
  }

  // ---- new objects ----

  method IndexOf(q: seq<Id>, x: Id) returns (k: nat)
    requires x in q
    ensures k < |q| && q[k] == x
  {
    k := 0;
    while q[k] != x
      invariant k < |q| && x in q[k..]
      decreases |q| - k
    {
      assert q[k..] == [q[k]] + q[k + 1..];
      k := k + 1;
    }
  }

  // luaC_link, at position k of rootgc
  method Link(g: GlobalState, a: Id, kind: Kind, body: Body, k: nat)
    requires k <= |g.rootgc|
    modifies g`heap, g`rootgc, g`sweep
    ensures g.S() == Linked(old(g.S()), a, kind, body, k)
  {
    g.heap := g.heap[a := Obj(kind, Marks(!g.white, g.white, false, false), body)];
    g.rootgc := InsertAt(g.rootgc, k, a);
    if g.sweep > k {
      g.sweep := g.sweep + 1;
    }
  }

  // An object goes to the front of rootgc; a userdata, after the main thread.
  method NewObject(g: GlobalState, kind: Kind, body: Body) returns (a: Id)
    requires Inv(g.S(), g.hash) && NewBody(g.S(), kind, body)
    modifies g`heap, g`rootgc, g`sweep
    ensures a !in old(g.heap) && IsLinked(old(g.S()), g.S(), a, kind, body)
    ensures Inv(g.S(), g.hash) && CurrentWhite(g.S(), a) && KeptAlive(old(g.S()), g.S())
  {
    ghost var s := g.S();
    a := NewId(g);
    var k := 0;
    if kind == USERDATA {
      assert Proper(g.heap[g.main]) && g.main in g.rootgc;
      k := IndexOf(g.rootgc, g.main);
      k := k + 1;
    }
    LinkedInv(s, a, kind, body, k, g.hash);
    LinkedKeeps(s, a, kind, body, k);
    Link(g, a, kind, body, k);
  }

  ghost predicate IsLinked(s: State, s': State, a: Id, kind: Kind, body: Body) {
    a in s'.heap && exists k :: 0 <= k <= |s.rootgc| && s' == Linked(s, a, kind, body, k)
  }

  function Nils(n: nat): seq<Value> {
    seq(n, _ => Nil)
  }

  function NewStack(globals: Value): Body {
    Stack(globals, Nils(INITIAL_STACK), 1, [])
  }

  // luaE_newthread: the globals are those of the running thread.
  method NewThread(g: GlobalState) returns (a: Id)
    requires Inv(g.S(), g.hash)
    modifies g`heap, g`rootgc, g`sweep
    ensures g.running in old(g.heap) && old(g.heap)[g.running].body.Stack? && a !in old(g.heap)
    ensures IsLinked(old(g.S()), g.S(), a, THREAD, NewStack(old(g.heap)[g.running].body.globals))
    ensures Inv(g.S(), g.hash) && Alive(g.S(), a) && KeptAlive(old(g.S()), g.S())
  {
    RunningStack(g.S(), g.hash);
    var globals := g.heap[g.running].body.globals;
    HeldAlive(g.S(), g.running, globals);
    a := NewObject(g, THREAD, NewStack(globals));
  }

  // ---- strings ----

  // luaS_newlstr: the same object for the same content, found again and revived even when it was dead.
  method NewString(g: GlobalState, content: string) returns (a: Id)
    requires Inv(g.S(), g.hash)
    modifies g`heap, g`strt, g`nuse
    ensures Inv(g.S(), g.hash) && Alive(g.S(), a) && g.heap[a].body == Text(content)
    ensures KeptAlive(old(g.S()), g.S()) && BodiesKept(old(g.S()), g.S())
    ensures g.heap.Keys == old(g.heap).Keys + {a} && g.heap[a].kind == STRING
    ensures forall b :: b in old(g.heap) && old(g.heap)[b].body == Text(content) ==> b == a
  {
    var found;
    found, a := FindString(g, content);
    if found {
      Revive(g, a);
    } else {
      a := InternString(g, content);
    }
  }

  method FindString(g: GlobalState, content: string) returns (found: bool, a: Id)
    requires Inv(g.S(), g.hash)
    ensures found ==> a in g.heap && g.heap[a].body == Text(content) && g.heap[a].kind == STRING
    ensures found ==> forall b :: b in g.heap && g.heap[b].body == Text(content) ==> b == a
    ensures !found ==> forall b :: b in g.heap && g.heap[b].body.Text? ==> g.heap[b].body.content != content
  {
    hide PhaseOk, LiveClosed, ThreadsOk;
    var h := g.hash(content) % |g.strt|;
    var j := 0;
    while j < |g.strt[h]|
      invariant 0 <= j <= |g.strt[h]|
      invariant forall i :: 0 <= i < j ==> g.strt[h][i] in g.heap && g.heap[g.strt[h][i]].body != Text(content)
    {
      a := g.strt[h][j];
      assert a in g.strt[h] && InBucket(g.S(), g.hash, a, h);
      if g.heap[a].body == Text(content) {
        assert Proper(g.heap[a]);
        return true, a;
      }
      j := j + 1;
    }
    return false, 0;
  }

  // isdead, changewhite
  method Revive(g: GlobalState, a: Id)
    requires Inv(g.S(), g.hash) && a in g.heap && forall b :: Holds(g.S(), a, b) ==> Alive(g.S(), b)
    modifies g`heap
    ensures Inv(g.S(), g.hash) && Alive(g.S(), a) && KeptAlive(old(g.S()), g.S())
    ensures SameBodies(old(g.S()), g.S())
    ensures g.S() == if DeadIn(old(g.S()), a) then Whitened(old(g.S()), a) else old(g.S())
  {
    hide Base;
    if IsDead(g.heap[a].marks, g.white) {
      RevivedInv(g.S(), a, g.hash);
      g.SetMarks(a, ChangeWhite(g.heap[a].marks));
    }
  }

  method AddString(g: GlobalState, a: Id, content: string)
    requires |g.strt| > 0
    modifies g`heap, g`strt, g`nuse
    ensures g.S() == Interned(old(g.S()), a, content, g.hash(content) % |old(g.strt)|)
  {
    var h := g.hash(content) % |g.strt|;
    g.heap := g.heap[a := Obj(STRING, Marks(!g.white, g.white, false, false), Text(content))];
    g.strt := g.strt[h := [a] + g.strt[h]];
    g.nuse := g.nuse + 1;
  }

  // newlstr
  method InternString(g: GlobalState, content: string) returns (a: Id)
    requires Inv(g.S(), g.hash) && forall b :: b in g.heap && g.heap[b].body.Text? ==> g.heap[b].body.content != content
    modifies g`heap, g`strt, g`nuse
    ensures Inv(g.S(), g.hash) && Alive(g.S(), a) && g.heap[a].body == Text(content) && KeptAlive(old(g.S()), g.S())
    ensures a !in old(g.heap) && BodiesKept(old(g.S()), g.S())
    ensures g.heap.Keys == old(g.heap).Keys + {a} && g.heap[a].kind == STRING
  {
    ghost var s := g.S();
    a := NewId(g);
    InternedInv(s, a, content, g.hash);
    InternedKeeps(s, a, content, g.hash(content) % |g.strt|);
    AddString(g, a, content);
    Crowded(g);
  }

  lemma InternedKeeps(s: State, a: Id, content: string, h: nat)
    requires a !in s.heap && h < |s.strt|
    ensures KeptAlive(s, Interned(s, a, content, h)) && BodiesKept(s, Interned(s, a, content, h))
  {
  }

  // The table doubles when it holds more strings than buckets.
  method Crowded(g: GlobalState)
    requires Inv(g.S(), g.hash)
    modifies g`strt
    ensures Inv(g.S(), g.hash) && g.S() == old(g.S()).(strt := g.strt)
    ensures g.nuse > |old(g.strt)| && |old(g.strt)| <= MAX_INT / 2 && g.phase != GCSsweepstring ==>
            |g.strt| == |old(g.strt)| * 2
    ensures g.nuse <= |old(g.strt)| ==> g.strt == old(g.strt)
  {
    if g.nuse > |g.strt| && |g.strt| <= MAX_INT / 2 {
      g.Resize(|g.strt| * 2);
    }
  }

  // ---- upvalues ----

  method AddUpvalue(g: GlobalState, u: Id, t: Id, slot: nat, j: nat)
    requires t in g.heap && g.heap[t].body.Stack? && j <= |g.heap[t].body.openupval|
    modifies g`heap, g`uvhead
    ensures g.S() == Captured(old(g.S()), u, t, slot, j)
  {
    var b := g.heap[t].body;
    g.heap := g.heap[t := g.heap[t].(body := b.(openupval := InsertAt(b.openupval, j, u)))];
    g.heap := g.heap[u := Obj(UPVAL, Marks(!g.white, g.white, false, false), Open(t, slot))];
    g.uvhead := [u] + g.uvhead;
  }

  // What luaF_findupval leaves as it was: everything but the open list of the running thread.
  ghost predicate OthersKept(s: State, s': State, t: Id) {
    && (forall b {:trigger s'.heap[b]} {:trigger s.heap[b]} :: b in s.heap ==>
          b in s'.heap && s'.heap[b].kind == s.heap[b].kind && (b != t ==> s'.heap[b].body == s.heap[b].body)
          && (DeadIn(s, b) || s'.heap[b].marks == s.heap[b].marks))
    && t in s.heap && s.heap[t].body.Stack?
    && s'.heap[t].body.Stack? && s'.heap[t].body == s.heap[t].body.(openupval := s'.heap[t].body.openupval)
    && s'.running == s.running
  }

  // luaF_findupval: one upvalue for each slot, so that closures share it; a dead one is revived.
  method FindUpval(g: GlobalState, slot: nat) returns (u: Id)
    requires Inv(g.S(), g.hash) && g.running in g.heap && g.heap[g.running].body.Stack? &&
             slot < g.heap[g.running].body.top
    modifies g`heap, g`uvhead
    ensures Inv(g.S(), g.hash) && Alive(g.S(), u) && g.heap[u].body == Open(g.running, slot)
    ensures KeptAlive(old(g.S()), g.S()) && OthersKept(old(g.S()), g.S(), g.running) &&
            g.heap.Keys == old(g.heap).Keys + {u}
    ensures forall x :: x in old(g.heap) && old(g.heap)[x].body == Open(g.running, slot) ==> x == u
  {
    hide OthersKept, KeptAlive, Base;
    var j, found := SearchUpvals(g, slot);
    if found {
      u := g.heap[g.running].body.openupval[j];
      ReviveUpvalue(g, u, slot);
    } else {
      u := NewUpvalue(g, slot, j);
    }
  }

  method ReviveUpvalue(g: GlobalState, u: Id, slot: nat)
    requires Inv(g.S(), g.hash) && g.running in g.heap && g.heap[g.running].body.Stack?
    requires u in g.heap && g.heap[u].body == Open(g.running, slot)
    modifies g`heap
    ensures Inv(g.S(), g.hash) && Alive(g.S(), u) && g.heap[u].body == Open(g.running, slot)
    ensures KeptAlive(old(g.S()), g.S()) && OthersKept(old(g.S()), g.S(), g.running) && g.heap.Keys == old(g.heap).Keys
  {
    ghost var s := g.S();
    UpvalueAlive(s, u, slot, g.hash);
    Revive(g, u);
    RevivedOthers(s, g.S(), u);
  }

  lemma RevivedOthers(s: State, s': State, u: Id)
    requires s.running in s.heap && s.heap[s.running].body.Stack? && u in s.heap
    requires s' == if DeadIn(s, u) then Whitened(s, u) else s
    ensures OthersKept(s, s', s.running)
  {
  }

  method NewUpvalue(g: GlobalState, slot: nat, j: nat) returns (u: Id)
    requires Inv(g.S(), g.hash) && g.running in g.heap && g.heap[g.running].body.Stack? &&
             slot < g.heap[g.running].body.top
    requires Fits(g.S(), g.running, slot, j)
    modifies g`heap, g`uvhead
    ensures Inv(g.S(), g.hash) && Alive(g.S(), u) && g.heap[u].body == Open(g.running, slot)
    ensures KeptAlive(old(g.S()), g.S()) && OthersKept(old(g.S()), g.S(), g.running) &&
            g.heap.Keys == old(g.heap).Keys + {u}
  {
    ghost var s := g.S();
    u := NewId(g);
    RunningStack(s, g.hash);
    CapturedInv(s, u, g.running, slot, j, g.hash);
    CapturedKeeps(s, u, g.running, slot, j);
    AddUpvalue(g, u, g.running, slot, j);
  }

  lemma UpvalueAlive(s: State, u: Id, slot: nat, hash: string -> nat)
    requires Inv(s, hash) && u in s.heap && s.heap[u].body == Open(s.running, slot)
    ensures forall b :: Holds(s, u, b) ==> Alive(s, b)
  {
    RunningStack(s, hash);
    forall b | Holds(s, u, b)
      ensures Alive(s, b)
    {
      assert Holds(s, s.running, b);
    }
  }

  lemma CapturedKeeps(s: State, u: Id, t: Id, slot: nat, j: nat)
    requires u !in s.heap && t in s.heap && s.heap[t].body.Stack? && j <= |s.heap[t].body.openupval|
    ensures KeptAlive(s, Captured(s, u, t, slot, j)) && OthersKept(s, Captured(s, u, t, slot, j), t)
  {
  }

  // Down the open list of the running thread, to the upvalue of slot or to where it belongs
  method SearchUpvals(g: GlobalState, slot: nat) returns (j: nat, found: bool)
    requires Inv(g.S(), g.hash) && g.running in g.heap && g.heap[g.running].body.Stack?
    ensures found ==> j < |g.heap[g.running].body.openupval| && g.heap[g.running].body.openupval[j] in g.heap
    ensures found ==> g.heap[g.heap[g.running].body.openupval[j]].body == Open(g.running, slot)
    ensures found ==> forall x :: x in g.heap && g.heap[x].body == Open(g.running, slot) ==>
            x == g.heap[g.running].body.openupval[j]
    ensures !found ==> Fits(g.S(), g.running, slot, j) && forall x :: x in g.heap ==>
            g.heap[x].body != Open(g.running, slot)
  {
    var t := g.running;
    var ups := g.heap[t].body.openupval;
    OpenListFacts(g.S(), t);
    j := 0;
    while j < |ups| && g.heap[ups[j]].body.slot >= slot
      invariant 0 <= j <= |ups| && forall i :: 0 <= i < j ==> g.heap[ups[i]].body.slot > slot
      decreases |ups| - j
    {
      if g.heap[ups[j]].body.slot == slot {
        SlotUnique(g.S(), t, slot, j);
        return j, true;
      }
      j := j + 1;
    }
    SlotAbsent(g.S(), t, slot, j);
    return j, false;
  }

  lemma OpenListFacts(s: State, t: Id)
    requires ThreadsOk(s) && t in s.heap && s.heap[t].body.Stack?
    ensures var ups := s.heap[t].body.openupval;
            && (forall i :: 0 <= i < |ups| ==>
              ups[i] in s.heap && s.heap[ups[i]].body.Open? && s.heap[ups[i]].body.thread == t)
            && (forall i, j :: 0 <= i < j < |ups| ==> s.heap[ups[i]].body.slot > s.heap[ups[j]].body.slot)
  {
    assert OpenListOk(s, t);
    var ups := s.heap[t].body.openupval;
    forall i | 0 <= i < |ups|
      ensures ups[i] in s.heap && s.heap[ups[i]].body.Open? && s.heap[ups[i]].body.thread == t
    {
      assert IsOpenAt(s, ups[i], t);
    }
  }

  lemma SlotUnique(s: State, t: Id, slot: nat, j: nat)
    requires ThreadsOk(s) && t in s.heap && s.heap[t].body.Stack? && j < |s.heap[t].body.openupval|
    requires s.heap[t].body.openupval[j] in s.heap && s.heap[s.heap[t].body.openupval[j]].body == Open(t, slot)
    ensures forall x :: x in s.heap && s.heap[x].body == Open(t, slot) ==> x == s.heap[t].body.openupval[j]
  {
    OpenListFacts(s, t);
    var ups := s.heap[t].body.openupval;
    forall x | x in s.heap && s.heap[x].body == Open(t, slot)
      ensures x == ups[j]
    {
      assert x in ups;
      var i :| 0 <= i < |ups| && ups[i] == x;
    }
  }

  lemma SlotAbsent(s: State, t: Id, slot: nat, j: nat)
    requires ThreadsOk(s) && t in s.heap && s.heap[t].body.Stack? && j <= |s.heap[t].body.openupval|
    requires var ups := s.heap[t].body.openupval;
             && (forall i :: 0 <= i < |ups| ==> ups[i] in s.heap && s.heap[ups[i]].body.Open?)
             && (forall i :: 0 <= i < j ==> s.heap[ups[i]].body.slot > slot)
             && (j < |ups| ==> s.heap[ups[j]].body.slot < slot)
    ensures Fits(s, t, slot, j) && forall x :: x in s.heap ==> s.heap[x].body != Open(t, slot)
  {
    OpenListFacts(s, t);
    var ups := s.heap[t].body.openupval;
    assert forall i :: 0 <= i < |ups| ==> s.heap[ups[i]].body.slot != slot;
  }

  // ---- stores with barriers ----

  method Store(g: GlobalState, o: Id, body: Body)
    requires o in g.heap
    modifies g`heap
    ensures g.S() == BodySet(old(g.S()), o, body)
  {
    g.heap := g.heap[o := g.heap[o].(body := body)];
  }

  // luaC_barrierback
  method TurnGray(g: GlobalState, t: Id)
    requires t in g.heap
    modifies g`heap, g`grayagain
    ensures g.S() == BackGray(old(g.S()), t)
  {
    g.SetMarks(t, Black2Gray(g.heap[t].marks));
    g.grayagain := [t] + g.grayagain;
  }

  // luaC_barriert: a black table that gets a white value turns gray again.
  method TableBarrier(g: GlobalState, t: Id, v: Value, ghost s: State)
    requires Inv(s, g.hash) && t in s.heap && s.heap[t].kind == TABLE && t in g.heap && AliveValue(s, v)
    requires IsStore(s, t, g.heap[t].body, v) && g.S() == BodySet(s, t, g.heap[t].body)
    modifies g`heap, g`grayagain
    ensures Inv(g.S(), g.hash) && SameBodies(old(g.S()), g.S()) && KeptAlive(s, g.S())
  {
    if v.Ref? && IsWhite(g.heap[v.id].marks) && IsBlack(g.heap[t].marks) {
      BackGrayInv(s, t, g.heap[t].body, v, g.hash);
      BackGrayKeeps(s, t, g.heap[t].body);
      TurnGray(g, t);
    } else {
      BodySetKeeps(s, t, g.heap[t].body);
      StoreInv(s, t, g.heap[t].body, v, g.hash);
    }
  }

  lemma BackGrayInv(s: State, t: Id, body: Body, v: Value, hash: string -> nat)
    requires Inv(s, hash) && t in s.heap && s.heap[t].kind == TABLE && IsBlack(s.heap[t].marks)
    requires IsStore(s, t, body, v) && AliveValue(s, v)
    ensures Inv(BackGray(BodySet(s, t, body), t), hash)
  {
    var b := BackGray(s, t);
    BackGrayBase(s, t, hash);
    BackGrayPhase(s, t, hash);
    hide Base, PhaseOk;
    BackGrayStore(s, t, body, v);
    StoreInv(b, t, body, v, hash);
    BackGraySame(s, t, body);
  }

  lemma BackGrayStore(s: State, t: Id, body: Body, v: Value)
    requires t in s.heap && IsStore(s, t, body, v) && AliveValue(s, v)
    ensures IsStore(BackGray(s, t), t, body, v) && AliveValue(BackGray(s, t), v)
  {
    var b := BackGray(s, t);
    forall x | Holds(BodySet(b, t, body), t, x)
      ensures v == Ref(x) || Holds(b, t, x)
    {
      assert Holds(BodySet(s, t, body), t, x);
    }
  }

  lemma BackGraySame(s: State, t: Id, body: Body)
    requires t in s.heap
    ensures BodySet(BackGray(s, t), t, body) == BackGray(BodySet(s, t, body), t)
  {
    assert BodySet(BackGray(s, t), t, body).heap == BackGray(BodySet(s, t, body), t).heap;
  }

  lemma BackGrayKeeps(s: State, t: Id, body: Body)
    requires AllProper(s) && t in s.heap && IsBlack(s.heap[t].marks)
    ensures KeptAlive(s, BackGray(BodySet(s, t, body), t)) &&
            SameBodies(BodySet(s, t, body), BackGray(BodySet(s, t, body), t))
  {
    assert Proper(s.heap[t]);
  }

  // luaC_barrier and luaC_objbarrier: the white value is marked, or, in the sweep, the object made white.
  method ForwardBarrier(g: GlobalState, o: Id, v: Value, ghost s: State)
    requires Inv(s, g.hash) && o in s.heap && o in g.heap && AliveValue(s, v)
    requires IsStore(s, o, g.heap[o].body, v) && g.S() == BodySet(s, o, g.heap[o].body)
    modifies g`heap, g`gray
    ensures Inv(g.S(), g.hash) && SameBodies(old(g.S()), g.S()) && KeptAlive(s, g.S())
  {
    ghost var body := g.heap[o].body;
    BodySetKeeps(s, o, body);
    if v.Ref? && IsWhite(g.heap[v.id].marks) && IsBlack(g.heap[o].marks) {
      BarrierF(g, o, v.id, s, body);
    } else {
      StoreInv(s, o, body, v, g.hash);
    }
  }

  // luaC_barrierf
  method BarrierF(g: GlobalState, o: Id, v: Id, ghost s: State, ghost body: Body)
    requires Inv(s, g.hash) && o in s.heap && Alive(s, v) && IsStore(s, o, body, Ref(v)) && g.S() == BodySet(s, o, body)
    requires IsWhite(s.heap[v].marks) && IsBlack(s.heap[o].marks)
    modifies g`heap, g`gray
    ensures Inv(g.S(), g.hash) && SameBodies(old(g.S()), g.S()) && KeptAlive(old(g.S()), g.S())
  {
    BlackOnlyWhen(s, o);
    assert Proper(s.heap[o]);
    hide Inv, KeptAlive, SameBodies;
    if g.phase == GCSpropagate {
      BarrierMark(g, o, v, s, body);
    } else {
      ForwardWhitened(s, o, body, Ref(v), g.hash);
      BlackKept(g.S(), o);
      g.SetMarks(o, MakeWhite(g.heap[o].marks, g.white));
    }
  }

  lemma BlackKept(s: State, o: Id)
    requires o in s.heap && IsBlack(s.heap[o].marks) && OneColour(s.heap[o].marks)
    ensures var s' := Recoloured(s, o, MakeWhite(s.heap[o].marks, s.white)); SameBodies(s, s') && KeptAlive(s, s')
  {
  }

  // While marks are propagated, the white value is marked.
  method BarrierMark(g: GlobalState, o: Id, v: Id, ghost s: State, ghost body: Body)
    requires Inv(s, g.hash) && s.phase == GCSpropagate && o in s.heap && Alive(s, v) && IsStore(s, o, body, Ref(v))
    requires g.S() == BodySet(s, o, body) && IsWhite(g.heap[v].marks) && IsBlack(s.heap[o].marks)
    modifies g`heap, g`gray
    ensures Inv(g.S(), g.hash) && SameBodies(old(g.S()), g.S()) && KeptAlive(old(g.S()), g.S())
  {
    ghost var s1 := g.S();
    StoredTricolour(s, o, body, Ref(v), g.hash);
    g.ReallyMark(v);
    MarkedKeepsProper(s1, g.S());
    MarkedAlive(s1, g.S());
    ForwardMarked(s, o, body, Ref(v), g.S(), g.hash);
  }

  // Black objects exist only while marks are propagated and swept away: no barrier in the other phases.
  lemma BlackOnlyWhen(s: State, o: Id)
    requires PhaseOk(s) && o in s.heap && IsBlack(s.heap[o].marks)
    ensures s.phase == GCSpropagate || s.phase == GCSsweepstring || s.phase == GCSsweep
  {
  }

  lemma MarkedAlive(s: State, s': State)
    requires Marked(s, s')
    ensures KeptAlive(s, s')
  {
    forall a | Alive(s, a)
      ensures Alive(s', a)
    {
      assert ColourStep(s, s', a);
    }
  }

  // ---- fields and upvalues ----

  // What an object holds at an index
  function Entry(refs: seq<Value>, i: nat): Value {
    if i < |refs| then refs[i] else Nil
  }

  // The entries up to i exist, and i is v.
  function WithField(refs: seq<Value>, i: nat, v: Value): seq<Value> {
    if i < |refs| then refs[i := v] else refs + seq(i - |refs|, _ => Nil) + [v]
  }

  lemma WithFieldEntry(refs: seq<Value>, i: nat, v: Value, j: nat)
    ensures Entry(WithField(refs, i, v), j) == if j == i then v else Entry(refs, j)
  {
  }

  lemma FieldStore(s: State, o: Id, i: nat, v: Value)
    requires o in s.heap && s.heap[o].body.Fields?
    ensures IsStore(s, o, Fields(WithField(s.heap[o].body.refs, i, v)), v)
  {
    var refs := s.heap[o].body.refs;
    var body := Fields(WithField(refs, i, v));
    forall b | Holds(BodySet(s, o, body), o, b)
      ensures v == Ref(b) || Holds(s, o, b)
    {
      var k :| 0 <= k < |body.refs| && body.refs[k] == Ref(b);
      assert v == Ref(b) || refs[k] == Ref(b);
    }
  }

  // A table gets a key or value, any other object a field.
  method SetField(g: GlobalState, o: Id, i: nat, v: Value)
    requires Inv(g.S(), g.hash) && o in g.heap && g.heap[o].body.Fields? && AliveValue(g.S(), v)
    modifies g`heap, g`gray, g`grayagain
    ensures Inv(g.S(), g.hash) && KeptAlive(old(g.S()), g.S())
    ensures SameBodies(BodySet(old(g.S()), o, Fields(WithField(old(g.heap)[o].body.refs, i, v))), g.S())
    ensures o in g.heap && g.heap[o].body.Fields?
    ensures forall j: nat :: Entry(g.heap[o].body.refs, j) == if j == i then v else Entry(old(g.heap)[o].body.refs, j)
  {
    ghost var s := g.S();
    forall j: nat
      ensures Entry(WithField(g.heap[o].body.refs, i, v), j) == if j == i then v else Entry(g.heap[o].body.refs, j)
    {
      WithFieldEntry(g.heap[o].body.refs, i, v, j);
    }
    hide WithField, Entry;
    FieldStore(s, o, i, v);
    Store(g, o, Fields(WithField(g.heap[o].body.refs, i, v)));
    if g.heap[o].kind == TABLE {
      TableBarrier(g, o, v, s);
    } else {
      ForwardBarrier(g, o, v, s);
    }
  }

  // OP_SETUPVAL: an open upvalue is a stack slot, and never black.
  method SetUpvalue(g: GlobalState, u: Id, v: Value)
    requires Inv(g.S(), g.hash) && u in g.heap && g.heap[u].kind == UPVAL && AliveValue(g.S(), v)
    modifies g`heap, g`gray
    ensures Inv(g.S(), g.hash) && KeptAlive(old(g.S()), g.S()) && SameBodies(UpvalueSet(old(g.S()), u, v), g.S())
  {
    hide KeptAlive, PhaseOk, AliveValue, StringsOk, RootListOk;
    assert Proper(g.heap[u]);
    if g.heap[u].body.Open? {
      OpenSlot(g.S(), u);
      SetSlot(g, g.heap[u].body.thread, g.heap[u].body.slot, v);
    } else {
      SetClosed(g, u, v);
    }
  }

  // The value of u is v: in the slot it shares, or in the upvalue itself.
  ghost function UpvalueSet(s: State, u: Id, v: Value): State
    requires u in s.heap
  {
    match s.heap[u].body
    case Open(t, i) =>
      if t in s.heap && s.heap[t].body.Stack? && i < |s.heap[t].body.slots| then
        BodySet(s, t, WithSlot(s.heap[t].body, i, v)) else s
    case _ => BodySet(s, u, Closed(v))
  }

  // After the store the upvalue has the value, and so has every way of getting at it: the other upvalues
  // and slots do not change, unless they share the slot.
  lemma UpvalueSetValue(s: State, u: Id, v: Value)
    requires ThreadsOk(s) && AllProper(s) && u in s.heap && s.heap[u].kind == UPVAL
    ensures var s' := UpvalueSet(s, u, v);
            && u in s'.heap && s'.heap[u].kind == UPVAL && UpvalueValue(s', u) == v
            && (forall w :: w in s.heap && s.heap[w].kind == UPVAL && w != u ==>
                  w in s'.heap && s'.heap[w].kind == UPVAL && UpvalueValue(s', w) == UpvalueValue(s, w))
  {
    var s' := UpvalueSet(s, u, v);
    assert Proper(s.heap[u]);
    if s.heap[u].body.Open? {
      OpenSlot(s, u);
    }
    forall w | w in s.heap && s.heap[w].kind == UPVAL && w != u
      ensures w in s'.heap && s'.heap[w].kind == UPVAL && UpvalueValue(s', w) == UpvalueValue(s, w)
    {
      assert Proper(s.heap[w]);
      if s.heap[w].body.Open? {
        OpenSlot(s, w);
        if s.heap[w].body == s.heap[u].body {
          OneUpvalue(s, u, w);
        }
      }
    }
  }

  lemma OneUpvalue(s: State, u: Id, w: Id)
    requires ThreadsOk(s) && u in s.heap && w in s.heap && s.heap[u].body.Open? && s.heap[u].body == s.heap[w].body
    ensures u == w
  {
    var t := s.heap[u].body.thread;
    var ups := s.heap[t].body.openupval;
    assert u in ups && w in ups && OpenListOk(s, t);
    var i :| 0 <= i < |ups| && ups[i] == u;
    var j :| 0 <= j < |ups| && ups[j] == w;
  }

  method SetClosed(g: GlobalState, u: Id, v: Value)
    requires Inv(g.S(), g.hash) && u in g.heap && g.heap[u].body.Closed? && AliveValue(g.S(), v)
    modifies g`heap, g`gray
    ensures Inv(g.S(), g.hash) && KeptAlive(old(g.S()), g.S()) && SameBodies(UpvalueSet(old(g.S()), u, v), g.S())
  {
    ghost var s := g.S();
    assert Proper(g.heap[u]);
    ClosedStore(s, u, v);
    Store(g, u, Closed(v));
    ForwardBarrier(g, u, v, s);
  }

  lemma ClosedStore(s: State, u: Id, v: Value)
    requires u in s.heap && s.heap[u].body.Closed?
    ensures IsStore(s, u, Closed(v), v)
  {
  }

  // OP_CLOSURE: the new closure is white, so that its upvalues need no barrier.
  method NewClosure(g: GlobalState, captures: seq<nat>) returns (a: Id)
    requires Inv(g.S(), g.hash) && g.running in g.heap && g.heap[g.running].body.Stack?
    requires forall k :: 0 <= k < |captures| ==> captures[k] < g.heap[g.running].body.top
    modifies g`heap, g`rootgc, g`sweep, g`uvhead
    ensures Inv(g.S(), g.hash) && KeptAlive(old(g.S()), g.S()) && Encloses(old(g.S()), g.S(), a, captures)
    ensures Alive(g.S(), a)
  {
    ghost var s := g.S();
    RunningStack(s, g.hash);
    var globals := g.heap[g.running].body.globals;
    HeldAlive(s, g.running, globals);
    assert forall b :: Ref(b) in [globals] ==> Ref(b) == globals;
    a := NewObject(g, FUNCTION, Fields([globals]));
    ghost var s1 := g.S();
    LinkedEncloses(s, s1, a, globals);
    CaptureAll(g, a, captures, s);
    KeptTrans(s, s1, g.S());
  }

  method CaptureAll(g: GlobalState, a: Id, captures: seq<nat>, ghost s0: State)
    requires Inv(g.S(), g.hash) && Encloses(s0, g.S(), a, []) && CurrentWhite(g.S(), a)
    requires forall k :: 0 <= k < |captures| ==> captures[k] < s0.heap[s0.running].body.top
    modifies g`heap, g`uvhead
    ensures Inv(g.S(), g.hash) && KeptAlive(old(g.S()), g.S()) && Encloses(s0, g.S(), a, captures) &&
            CurrentWhite(g.S(), a)
  {
    ghost var s := g.S();
    var k := 0;
    while k < |captures|
      invariant 0 <= k <= |captures| && Inv(g.S(), g.hash) && KeptAlive(s, g.S())
      invariant Encloses(s0, g.S(), a, captures[..k]) && CurrentWhite(g.S(), a)
    {
      ghost var s1 := g.S();
      CaptureOne(g, a, captures[..k], captures[k], s0);
      KeptTrans(s, s1, g.S());
      PrefixNext(captures, k);
      k := k + 1;
    }
    assert captures[..k] == captures;
  }

  lemma PrefixNext<T>(q: seq<T>, k: nat)
    requires k < |q|
    ensures q[..k + 1] == q[..k] + [q[k]]
  {
  }

  method CaptureOne(g: GlobalState, a: Id, ghost captures: seq<nat>, slot: nat, ghost s0: State)
    requires Inv(g.S(), g.hash) && Encloses(s0, g.S(), a, captures) && CurrentWhite(g.S(), a)
    requires slot < s0.heap[s0.running].body.top
    modifies g`heap, g`uvhead
    ensures Inv(g.S(), g.hash) && KeptAlive(old(g.S()), g.S()) && Encloses(s0, g.S(), a, captures + [slot]) &&
            CurrentWhite(g.S(), a)
  {
    ghost var s := g.S();
    var u := FindUpval(g, slot);
    ghost var s1 := g.S();
    AddCapture(g, a, u);
    ghost var s2 := g.S();
    EnclosesMore(s0, s, s1, s2, a, u, captures, slot);
    KeptTrans(s, s1, s2);
  }

  // v is the open upvalue of a slot of the running thread.
  predicate SharesSlot(s: State, v: Value, slot: nat) {
    v.Ref? && v.id in s.heap && s.heap[v.id].body == Open(s.running, slot)
  }

  // The body of an object that was there before a closure was made: only the open list of the running
  // thread has grown.
  predicate BodyBefore(s0: State, s: State, b: Id)
    requires b in s0.heap
  {
    && b in s.heap && s.heap[b].kind == s0.heap[b].kind
    && if b == s0.running then s.heap[b].body.Stack? && s0.heap[b].body.Stack? &&
         s.heap[b].body == s0.heap[b].body.(openupval := s.heap[b].body.openupval)
       else s.heap[b].body == s0.heap[b].body
  }

  predicate OpensSlotOf(s: State, b: Id, captures: seq<nat>)
    requires b in s.heap
  {
    s.heap[b].body.Open? && s.heap[b].body.thread == s.running && s.heap[b].body.slot in captures
  }

  // a is a new closure, over the globals of the running thread and the upvalues of the slots in captures;
  // nothing else is new but upvalues of these slots.
  ghost predicate Encloses(s0: State, s: State, a: Id, captures: seq<nat>) {
    && s0.running in s0.heap && s0.heap[s0.running].body.Stack? && SameRoots(s0, s)
    && a !in s0.heap && a in s.heap && s.heap[a].kind == FUNCTION && s.heap[a].body.Fields?
    && |s.heap[a].body.refs| == |captures| + 1 && s.heap[a].body.refs[0] == s0.heap[s0.running].body.globals
    && (forall k :: 0 <= k < |captures| ==> SharesSlot(s, s.heap[a].body.refs[k + 1], captures[k]))
    && (forall b {:trigger s.heap[b]} {:trigger s0.heap[b]} :: b in s0.heap ==> BodyBefore(s0, s, b))
    && (forall b {:trigger s.heap[b]} :: b in s.heap && b !in s0.heap && b != a ==> OpensSlotOf(s, b, captures))
  }

  lemma LinkedEncloses(s: State, s': State, a: Id, globals: Value)
    requires IsLinked(s, s', a, FUNCTION, Fields([globals])) && a !in s.heap
    requires s.running in s.heap && s.heap[s.running].body.Stack? && s.heap[s.running].body.globals == globals
    ensures Encloses(s, s', a, [])
  {
  }

  lemma EnclosesMore(s0: State, s: State, s1: State, s2: State, a: Id, u: Id, captures: seq<nat>, slot: nat)
    requires Encloses(s0, s, a, captures) && OthersKept(s, s1, s.running) && SameRoots(s, s1)
    requires u in s1.heap && s1.heap[u].body == Open(s.running, slot) && s1.heap.Keys == s.heap.Keys + {u}
    requires a in s1.heap && s1.heap[a].body.Fields? && s2 == BodySet(s1, a, Fields(s1.heap[a].body.refs + [Ref(u)]))
    ensures Encloses(s0, s2, a, captures + [slot])
  {
    var captures' := captures + [slot];
    assert s1.heap[a].body == s.heap[a].body;
    var refs := s.heap[a].body.refs;
    forall k | 0 <= k < |captures'|
      ensures SharesSlot(s2, s2.heap[a].body.refs[k + 1], captures'[k])
    {
      if k < |captures| {
        assert SharesSlot(s, refs[k + 1], captures[k]);
      }
    }
    forall b | b in s0.heap
      ensures BodyBefore(s0, s2, b)
    {
      assert BodyBefore(s0, s, b);
    }
    forall b | b in s2.heap && b !in s0.heap && b != a
      ensures OpensSlotOf(s2, b, captures')
    {
      assert b != u ==> OpensSlotOf(s, b, captures);
    }
  }

  method AddCapture(g: GlobalState, a: Id, u: Id)
    requires a in g.heap && g.heap[a].body.Fields?
    requires Inv(g.S(), g.hash) && CurrentWhite(g.S(), a) && Alive(g.S(), u)
    modifies g`heap
    ensures Inv(g.S(), g.hash) && KeptAlive(old(g.S()), g.S()) && CurrentWhite(g.S(), a)
    ensures g.S() == BodySet(old(g.S()), a, Fields(old(g.heap)[a].body.refs + [Ref(u)]))
  {
    ghost var s := g.S();
    var refs := g.heap[a].body.refs;
    FieldStore(s, a, |refs|, Ref(u));
    StoreInv(s, a, Fields(refs + [Ref(u)]), Ref(u), g.hash);
    BodySetKeeps(s, a, Fields(refs + [Ref(u)]));
    Store(g, a, Fields(refs + [Ref(u)]));
  }
}
