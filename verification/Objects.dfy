// Collectable objects, their marks, and the state of the collector (lgc.h, lobject.h, lstate.h).
module Objects {

  type Id = nat

  // Nil stands for every value that is not collectable.
  datatype Value = Nil | Ref(id: Id)

  datatype Kind = STRING | USERDATA | UPVAL | FUNCTION | TABLE | THREAD | PROTO

  datatype Marks = Marks(white0: bool, white1: bool, black: bool, fixed: bool)

  // Fields: the values an object holds on to (metatable and environment; upvalues; entries; constants).
  // An open upvalue lives in a stack slot of a thread, whose value it shares.  The slots of a stack from
  // top on are not in use, but keep what was last stored there.
  datatype Body =
    | Text(content: string)
    | Fields(refs: seq<Value>)
    | Open(thread: Id, slot: nat)
    | Closed(value: Value)
    | Stack(globals: Value, slots: seq<Value>, top: nat, openupval: seq<Id>)

  datatype Obj = Obj(kind: Kind, marks: Marks, body: Body)

  datatype Phase = GCSpause | GCSpropagate | GCSsweepstring | GCSsweep | GCSfinalize

  // white: which of the two whites is the current one.  sweep: how many elements of rootgc the sweep has
  // passed; sweepstr: how many buckets of the string table.
  datatype State = State(heap: map<Id, Obj>, rootgc: seq<Id>, strt: seq<seq<Id>>, nuse: nat, uvhead: seq<Id>,
                         gray: seq<Id>, grayagain: seq<Id>, white: bool, phase: Phase, sweepstr: nat, sweep: nat,
                         main: Id, running: Id, registry: Value, mt: seq<Value>)

  // ---- colours ----

  predicate IsWhite(m: Marks) {
    m.white0 || m.white1
  }

  predicate IsBlack(m: Marks) {
    m.black
  }

  predicate IsGray(m: Marks) {
    !IsBlack(m) && !IsWhite(m)
  }

  predicate HasWhite(m: Marks, w: bool) {
    if w then m.white1 else m.white0
  }

  // isdead: white with the white that is not the current one
  predicate IsDead(m: Marks, white: bool) {
    HasWhite(m, !white)
  }

  function MakeWhite(m: Marks, white: bool): Marks {
    Marks(!white, white, false, m.fixed)
  }

  function White2Gray(m: Marks): Marks {
    m.(white0 := false, white1 := false)
  }

  function Gray2Black(m: Marks): Marks {
    m.(black := true)
  }

  function Black2Gray(m: Marks): Marks {
    m.(black := false)
  }

  function ChangeWhite(m: Marks): Marks {
    m.(white0 := !m.white0, white1 := !m.white1)
  }

  predicate OneColour(m: Marks) {
    !(m.white0 && m.white1) && !(IsWhite(m) && IsBlack(m))
  }

  // ---- what objects hold ----

  // b is in a field of a, or in one of its stack slots, in use or not.
  predicate Holds(s: State, a: Id, b: Id)
    requires a in s.heap
  {
    match s.heap[a].body
    case Text(_) => false
    case Fields(refs) => Ref(b) in refs
    case Open(t, i) =>
      t in s.heap && s.heap[t].body.Stack? && i < |s.heap[t].body.slots| && s.heap[t].body.slots[i] == Ref(b)
    case Closed(v) => v == Ref(b)
    case Stack(g, slots, _, _) => g == Ref(b) || Ref(b) in slots
  }

  // The same, leaving out slots that are not in use
  predicate Points(s: State, a: Id, b: Id)
    requires a in s.heap
  {
    match s.heap[a].body
    case Stack(g, slots, top, _) => g == Ref(b) || (top <= |slots| && Ref(b) in slots[..top])
    case _ => Holds(s, a, b)
  }

  predicate IsRoot(s: State, b: Id) {
    b == s.main || b == s.running || s.registry == Ref(b) || Ref(b) in s.mt
  }

  predicate IsChain(s: State, p: seq<Id>) {
    |p| > 0 && forall i {:trigger p[i]} :: 0 <= i < |p| - 1 ==> p[i] in s.heap && Points(s, p[i], p[i + 1])
  }

  ghost predicate ReachableFrom(s: State, a: Id, b: Id) {
    exists p :: IsChain(s, p) && p[0] == a && p[|p| - 1] == b
  }

  // What the program can still get at
  ghost predicate Reachable(s: State, b: Id) {
    exists a :: IsRoot(s, a) && ReachableFrom(s, a, b)
  }

  lemma ReachableSelf(s: State, a: Id)
    ensures ReachableFrom(s, a, a)
  {
    assert IsChain(s, [a]);
  }

  lemma ReachableStep(s: State, a: Id, b: Id, c: Id)
    requires b in s.heap && Points(s, b, c) && ReachableFrom(s, a, b)
    ensures ReachableFrom(s, a, c)
  {
    var p :| IsChain(s, p) && p[0] == a && p[|p| - 1] == b;
    var q := p + [c];
    forall i | 0 <= i < |q| - 1
      ensures q[i] in s.heap && Points(s, q[i], q[i + 1])
    {
      if i < |p| - 1 {
        assert q[i] == p[i] && q[i + 1] == p[i + 1];
      }
    }
    assert IsChain(s, q);
  }

  lemma ReachableTrans(s: State, a: Id, b: Id, c: Id)
    requires ReachableFrom(s, a, b) && ReachableFrom(s, b, c)
    ensures ReachableFrom(s, a, c)
  {
    var p :| IsChain(s, p) && p[0] == a && p[|p| - 1] == b;
    var q :| IsChain(s, q) && q[0] == b && q[|q| - 1] == c;
    var pq := p[..|p| - 1] + q;
    forall i | 0 <= i < |pq| - 1
      ensures pq[i] in s.heap && Points(s, pq[i], pq[i + 1])
    {
      if i < |p| - 1 {
        assert pq[i] == p[i] && pq[i + 1] == p[i + 1];
      } else {
        assert pq[i] == q[i - (|p| - 1)] && pq[i + 1] == q[i + 1 - (|p| - 1)];
      }
    }
    assert IsChain(s, pq);
  }

  // ---- invariants ----

  predicate Listable(k: Kind) {
    k == FUNCTION || k == TABLE || k == THREAD || k == PROTO
  }

  predicate Matches(k: Kind, b: Body) {
    match b
    case Text(_) => k == STRING
    case Open(_, _) => k == UPVAL
    case Closed(_) => k == UPVAL
    case Stack(_, _, top, _) => k == THREAD && top <= |b.slots|
    case Fields(_) => k == USERDATA || k == FUNCTION || k == TABLE || k == PROTO
  }

  // Strings, threads and open upvalues are never black; userdata and closed upvalues are never gray.
  predicate Proper(o: Obj) {
    && OneColour(o.marks) && Matches(o.kind, o.body)
    && (IsBlack(o.marks) ==> o.kind != STRING && o.kind != THREAD && !o.body.Open?)
  }

  ghost predicate AllProper(s: State) {
    forall a :: a in s.heap ==> Proper(s.heap[a])
  }

  predicate NoDup<T(==)>(q: seq<T>) {
    forall i, j :: 0 <= i < j < |q| ==> q[i] != q[j]
  }

  lemma NoDupAppend<T>(p: seq<T>, q: seq<T>)
    requires NoDup(p) && NoDup(q) && forall x :: x in p ==> x !in q
    ensures NoDup(p + q)
  {
    forall i, j | 0 <= i < j < |p + q|
      ensures (p + q)[i] != (p + q)[j]
    {
      if i < |p| <= j {
        assert (p + q)[i] in p && (p + q)[j] in q;
      }
    }
  }

  function RemoveAt<T>(q: seq<T>, i: nat): seq<T>
    requires i < |q|
  {
    q[..i] + q[i + 1..]
  }

  lemma RemoveAtFacts<T>(q: seq<T>, i: nat)
    requires i < |q| && NoDup(q)
    ensures NoDup(RemoveAt(q, i)) && forall x :: x in RemoveAt(q, i) <==> x in q && x != q[i]
  {
    var r := RemoveAt(q, i);
    forall j | 0 <= j < |r|
      ensures r[j] == q[if j < i then j else j + 1]
    {
    }
    forall x | x in q && x != q[i]
      ensures x in r
    {
      var k :| 0 <= k < |q| && q[k] == x;
      assert r[if k < i then k else k - 1] == x;
    }
  }

  function Without<T(==)>(q: seq<T>, x: T): seq<T> {
    if q == [] then [] else if q[0] == x then q[1..] else [q[0]] + Without(q[1..], x)
  }

  lemma {:induction false} WithoutFacts<T>(q: seq<T>, x: T)
    requires NoDup(q)
    ensures NoDup(Without(q, x)) && forall y :: y in Without(q, x) <==> y in q && y != x
    decreases |q|
  {
    if q != [] {
      var rest := q[1..];
      assert NoDup(rest) by {
        forall i, j | 0 <= i < j < |rest|
          ensures rest[i] != rest[j]
        {
          assert q[i + 1] != q[j + 1];
        }
      }
      assert q[0] !in rest by {
        forall i | 0 <= i < |rest|
          ensures rest[i] != q[0]
        {
          assert q[i + 1] == rest[i];
        }
      }
      assert forall y :: y in q <==> y == q[0] || y in rest;
      if q[0] != x {
        WithoutFacts(rest, x);
        NoDupAppend([q[0]], Without(rest, x));
      }
    }
  }

  // rootgc lists everything but the strings and the open upvalues.
  predicate InRootList(o: Obj) {
    o.kind != STRING && !o.body.Open?
  }

  ghost predicate RootListOk(s: State) {
    && NoDup(s.rootgc) && s.sweep <= |s.rootgc|
    && (forall a :: a in s.rootgc ==> a in s.heap && InRootList(s.heap[a]))
    && (forall a :: a in s.heap && InRootList(s.heap[a]) ==> a in s.rootgc)
  }

  predicate IsOpenAt(s: State, u: Id, t: Id)
    requires t in s.heap && s.heap[t].body.Stack?
  {
    u in s.heap && s.heap[u].body.Open? && s.heap[u].body.thread == t && s.heap[u].body.slot < s.heap[t].body.top
  }

  // The open upvalues of a thread, topmost slot first, one for each slot
  ghost predicate OpenListOk(s: State, t: Id)
    requires t in s.heap && s.heap[t].body.Stack?
  {
    var ups := s.heap[t].body.openupval;
    && (forall i :: 0 <= i < |ups| ==> IsOpenAt(s, ups[i], t))
    && (forall i, j :: 0 <= i < j < |ups| ==> s.heap[ups[i]].body.slot > s.heap[ups[j]].body.slot)
  }

  ghost predicate ThreadsOk(s: State) {
    && (forall t :: t in s.heap && s.heap[t].body.Stack? ==> OpenListOk(s, t))
    && (forall u :: u in s.heap && s.heap[u].body.Open? ==>
          var t := s.heap[u].body.thread; t in s.heap && s.heap[t].body.Stack? && u in s.heap[t].body.openupval)
    && NoDup(s.uvhead)
    && (forall u :: u in s.uvhead <==> u in s.heap && s.heap[u].body.Open?)
  }

  ghost predicate RootsOk(s: State) {
    && s.main in s.heap && s.heap[s.main].kind == THREAD && s.heap[s.main].marks.fixed
    && s.running in s.heap && s.heap[s.running].kind == THREAD
  }

  // Only strings and the main thread are fixed.
  ghost predicate FixedOk(s: State) {
    forall a :: a in s.heap && s.heap[a].marks.fixed ==> s.heap[a].kind == STRING || a == s.main
  }

  // How many strings the buckets hold
  function Total(buckets: seq<seq<Id>>): nat {
    if buckets == [] then 0 else |buckets[0]| + Total(buckets[1..])
  }

  lemma {:induction false} TotalUpdate(buckets: seq<seq<Id>>, i: nat, b: seq<Id>)
    requires i < |buckets|
    ensures Total(buckets[i := b]) == Total(buckets) - |buckets[i]| + |b| && |buckets[i]| <= Total(buckets)
    decreases i
  {
    if i > 0 {
      TotalUpdate(buckets[1..], i - 1, b);
      assert buckets[i := b][1..] == buckets[1..][i - 1 := b];
    }
  }

  // One string object for each content, in the bucket of its hash
  ghost predicate StringsOk(s: State, hash: string -> nat) {
    && |s.strt| > 0 && s.nuse == Total(s.strt)
    && (forall i, a {:trigger a in s.strt[i]} :: 0 <= i < |s.strt| && a in s.strt[i] ==> InBucket(s, hash, a, i))
    && (forall i :: 0 <= i < |s.strt| ==> NoDup(s.strt[i]))
    && (forall a :: a in s.heap && s.heap[a].body.Text? ==> a in s.strt[hash(s.heap[a].body.content) % |s.strt|])
    && (forall a, b :: a in s.heap && b in s.heap && s.heap[a].body.Text? && s.heap[a].body == s.heap[b].body ==>
      a == b)
  }

  predicate InBucket(s: State, hash: string -> nat, a: Id, i: nat)
    requires |s.strt| > 0
  {
    a in s.heap && s.heap[a].body.Text? && hash(s.heap[a].body.content) % |s.strt| == i
  }

  predicate DeadIn(s: State, a: Id)
    requires a in s.heap
  {
    IsDead(s.heap[a].marks, s.white)
  }

  // Whatever a live object or a root refers to is there and alive.
  ghost predicate Alive(s: State, b: Id) {
    b in s.heap && !DeadIn(s, b)
  }

  ghost predicate LiveClosed(s: State) {
    && (forall a, b {:trigger Holds(s, a, b)} :: a in s.heap && !DeadIn(s, a) && Holds(s, a, b) ==> Alive(s, b))
    && (forall b :: IsRoot(s, b) ==> Alive(s, b))
  }

  lemma {:induction false} ChainAlive(s: State, p: seq<Id>)
    requires LiveClosed(s) && IsChain(s, p) && Alive(s, p[0])
    ensures Alive(s, p[|p| - 1])
    decreases |p|
  {
    if |p| > 1 {
      var before := p[..|p| - 1];
      assert IsChain(s, before) by {
        forall i | 0 <= i < |before| - 1
          ensures before[i] in s.heap && Points(s, before[i], before[i + 1])
        {
          assert before[i] == p[i] && before[i + 1] == p[i + 1];
        }
      }
      ChainAlive(s, before);
      var a := p[|p| - 2];
      assert before[|before| - 1] == a && Points(s, a, p[|p| - 1]);
      PointsHolds(s, a, p[|p| - 1]);
    }
  }

  lemma PointsHolds(s: State, a: Id, b: Id)
    requires a in s.heap && Points(s, a, b)
    ensures Holds(s, a, b)
  {
  }

  // Nothing the program can get at is dead.
  lemma ReachableAlive(s: State, b: Id)
    requires LiveClosed(s) && Reachable(s, b)
    ensures Alive(s, b)
  {
    var a :| IsRoot(s, a) && ReachableFrom(s, a, b);
    var p :| IsChain(s, p) && p[0] == a && p[|p| - 1] == b;
    ChainAlive(s, p);
  }
}
