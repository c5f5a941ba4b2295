// The Lua stack and the CallInfo array: entering and leaving functions (ldo.c).
module CallStack {
  import opened CallMeaning

  const EXTRA_STACK: nat := 5
  const LUAI_MAXCALLS: nat := 20000
  const LUAI_MAXCCALLS: nat := 200

  datatype CallInfo = CallInfo(func: nat, base: nat, top: nat, nresults: int)

  // ---- room on the stack ----

  function Limit(size: nat): int {
    size - EXTRA_STACK - 1
  }

  // luaD_checkstack and luaD_growstack: the size of the stack array afterwards
  function SizeAfter(size: nat, top: nat, n: nat): nat {
    if Limit(size) - top > n then size
    else if n <= size then 2 * size + 1 + EXTRA_STACK
    else size + n + 1 + EXTRA_STACK
  }

  lemma RoomAfter(size: nat, top: nat, n: nat)
    requires top <= size
    ensures SizeAfter(size, top, n) >= size && Limit(SizeAfter(size, top, n)) >= top + n
  {
  }

  // Where the frame starts: the parameters of a vararg function are moved above all its arguments.
  function FrameBase(p: Proto, func: nat, nargs: nat): nat {
    if p.isVararg then func + 1 + nargs + Missing(p, nargs) else func + 1
  }

  // The check before a call leaves room for the whole frame.
  predicate Fits(size: nat, p: Proto, func: nat, nargs: nat) {
    FrameBase(p, func, nargs) + p.maxstacksize <= SizeAfter(size, func + 1 + nargs, p.maxstacksize)
  }

  // A frame always fits when at most EXTRA_STACK + 2 arguments of a vararg function are missing, and only then: the
  // check counts the registers from the top, but the parameters start above the missing arguments.
  lemma FitsExactly(p: Proto, nargs: nat)
    requires ProtoOk(p)
    ensures (forall size: nat, func: nat :: func + 1 + nargs <= Limit(size) ==> Fits(size, p, func, nargs))
            <==> !p.isVararg || Missing(p, nargs) <= EXTRA_STACK + 2
  {
    if p.isVararg && Missing(p, nargs) > EXTRA_STACK + 2 {
      var size := 1 + nargs + p.maxstacksize + EXTRA_STACK + 2;
      assert !Fits(size, p, 0, nargs);
    }
  }

  // A function with 29 parameters called with none, on a new stack
  lemma FrameTooHigh()
    ensures var p := Proto(29, true, false, 30);
            ProtoOk(p) && !Fits(45, p, 7, 0)
  {
  }

  lemma FewParametersFit(p: Proto, size: nat, func: nat, nargs: nat)
    requires func + 1 + nargs <= size && (p.isVararg ==> p.numparams <= EXTRA_STACK + 1)
    ensures Fits(size, p, func, nargs)
  {
  }

  // growCI: what becomes of a call when n calls are active and the array has room for size
  function GrowStatus(n: nat, size: nat): Status {
    if n < size then Done
    else if size > LUAI_MAXCALLS then ErrorInError
    else if 2 * size > LUAI_MAXCALLS then StackOverflow
    else Done
  }

  // There is room for all that s calls when n calls and c nested C calls are active.
  predicate Roomy(s: Script, lua: bool, n: nat, c: nat) {
    n + Nesting(s) <= LUAI_MAXCALLS / 2 && c + CNesting(s, lua) < LUAI_MAXCCALLS && Snug(s, EXTRA_STACK + 1)
  }

  // A function that calls nothing needs no more than its own call.
  lemma LeafHasRoom(callee: Callee, n: nat, c: nat)
    requires n < 10000 && c < 200 && Nesting(callee.body) == 0
    requires callee.Lua? && callee.p.isVararg ==> callee.p.numparams <= 6
    ensures RoomyCall(callee, n, c)
  {
    NoCalls(callee.body, callee.Lua?);
  }

  lemma {:induction false} NoCalls(s: Script, lua: bool)
    requires Nesting(s) == 0
    ensures CNesting(s, lua) == 0 && Snug(s, EXTRA_STACK + 1)
    decreases s
  {
    if s.Do? {
      NoCalls(s.next, lua);
    }
  }

  predicate RoomyCall(callee: Callee, n: nat, c: nat) {
    && n + Depth(callee) <= LUAI_MAXCALLS / 2 && c + CNesting(callee.body, callee.Lua?) < LUAI_MAXCCALLS
    && SnugCallee(callee, EXTRA_STACK + 1)
  }

  // ---- a frame on the shared stack ----

  // The values vs are on the stack from a slot on.
  ghost predicate At(stack: seq<Value>, from: nat, vs: seq<Value>) {
    from + |vs| <= |stack| && forall k :: from <= k < from + |vs| ==> stack[k] == vs[k - from]
  }

  // The first n slots are as they were; the stack may have grown.
  ghost predicate Kept(s: seq<Value>, s': seq<Value>, n: nat) {
    n <= |s| <= |s'| && forall k :: 0 <= k < n ==> s'[k] == s[k]
  }

  lemma KeptTrans(s: seq<Value>, s1: seq<Value>, s2: seq<Value>, n: nat, m: nat, k: nat)
    requires (s == s1 || Kept(s, s1, n)) && Kept(s1, s2, m) && k <= n && k <= m
    ensures Kept(s, s2, k)
  {
  }

  ghost predicate Shows(stack: seq<Value>, top: nat, ci: CallInfo, fr: Frame) {
    && ci.func < ci.base && ci.top == ci.base + fr.limit && ci.top <= |stack| && At(stack, ci.base, fr.regs)
    && top == ci.base + (if fr.lua && !fr.open then fr.limit else |fr.regs|)
    && (!(fr.lua && fr.open) ==> |fr.regs| <= fr.limit)
    && (fr.vararg ==>
          ci.base == ci.func + 1 + fr.params + |fr.extra| && At(stack, ci.base - |fr.extra|, fr.extra))
  }

  // The stack adjust_varargs leaves: nil for the parameters, the other arguments, and then the parameters again
  function Adjusted(s: seq<Value>, first: nat, actual: nat, p: Proto): (r: seq<Value>)
    requires ProtoOk(p) && first + actual + Missing(p, actual) + p.maxstacksize <= |s|
    ensures |r| == |s|
  {
    var padded := Padded(s[first..first + actual], p);
    var arg := ArgParameter(s[first..first + actual], p);
    s[..first] + Nils(p.numparams) + padded[p.numparams..] + padded[..p.numparams] + arg
    + s[first + |padded| + p.numparams + |arg|..]
  }

  // Where the top is when the arguments are in place, and the stack then
  function TopThere(p: Proto, func: nat, nargs: nat): nat {
    if p.isVararg then FrameBase(p, func, nargs) + p.numparams + (if p.needsArg then 1 else 0)
    else if nargs > p.numparams then func + 1 + p.numparams
    else func + 1 + nargs
  }

  function Afterwards(s: seq<Value>, func: nat, nargs: nat, p: Proto): (r: seq<Value>)
    requires ProtoOk(p) && FrameBase(p, func, nargs) + p.maxstacksize <= |s|
    ensures |r| == |s|
  {
    if p.isVararg then Adjusted(s, func + 1, nargs, p) else s
  }

  // The frame of p for these arguments, and what is below it: a vararg function finds the other arguments there.
  ghost predicate Framed(s: seq<Value>, s': seq<Value>, func: nat, nargs: nat, p: Proto)
    requires ProtoOk(p) && func + 1 + nargs <= |s|
  {
    var b, args := FrameBase(p, func, nargs), s[func + 1..func + 1 + nargs];
    && Kept(s, s', func + 1) && At(s', b, Registers(args, p))
    && (p.isVararg ==> At(s', func + 1 + p.numparams, Padded(args, p)[p.numparams..]))
  }

  lemma AdjustedParts(s: seq<Value>, first: nat, actual: nat, p: Proto, body: seq<Value>, top: nat, r: seq<Value>)
    requires ProtoOk(p) && first + actual + Missing(p, actual) + p.maxstacksize <= |s|
    requires var padded := Padded(s[first..first + actual], p);
             body == s[..first] + Nils(p.numparams) + padded[p.numparams..] + padded[..p.numparams]
    requires top == first + actual + Missing(p, actual) + p.numparams + (if p.needsArg then 1 else 0)
    requires r == body + ArgParameter(s[first..first + actual], p) + s[top..]
    ensures r == Adjusted(s, first, actual, p)
  {
  }

  class LuaThread {
    var stack: seq<Value>                  // stacksize is its length
    var top: nat
    var base: nat
    var cis: seq<CallInfo>                 // base_ci to ci
    var sizeCi: nat
    var nCcalls: nat

    ghost predicate Valid()
      reads this
    {
      && EXTRA_STACK < |stack| && top <= |stack| && |cis| <= sizeCi && cis != [] && base == cis[|cis| - 1].base
    }

    // Room for n more values; what is on the stack stays, and positions are kept as offsets.
    method CheckStack(n: nat)
      requires top <= |stack|
      modifies `stack
      ensures |stack| == SizeAfter(|old(stack)|, top, n) && Kept(old(stack), stack, |old(stack)|)
      ensures top + n <= Limit(|stack|)
    {
      RoomAfter(|stack|, top, n);
      if Limit(|stack|) - top <= n {
        var newsize := if n <= |stack| then 2 * |stack| else |stack| + n;
        stack := stack + seq(newsize + 1 + EXTRA_STACK - |stack|, _ => Nil);
      }
    }

    // inc_ci with growCI; the CallInfo is filled in by the caller.
    method IncCi(ci: CallInfo) returns (st: Status)
      requires 0 < |cis| <= sizeCi
      modifies `cis, `sizeCi
      ensures |cis| <= sizeCi && cis == if st.Done? then old(cis) + [ci] else old(cis)
      ensures st == GrowStatus(|old(cis)|, old(sizeCi))
    {
      if |cis| == sizeCi {
        if sizeCi > LUAI_MAXCALLS {
          return ErrorInError;
        }
        sizeCi := 2 * sizeCi;
        if sizeCi > LUAI_MAXCALLS {
          return StackOverflow;
        }
      }
      cis := cis + [ci];
      return Done;
    }

    // A loop that sets slots to nil
    method SetNils(from: nat, to: nat)
      requires from <= to <= |stack|
      modifies `stack
      ensures stack == old(stack)[..from] + Nils(to - from) + old(stack)[to..]
    {
      var st := from;
      while st < to
        invariant from <= st <= to <= |stack| == |old(stack)|
        invariant stack[..from] == old(stack)[..from] && stack[to..] == old(stack)[to..]
        invariant forall i :: from <= i < st ==> stack[i] == Nil
      {
        stack := stack[st := Nil];
        st := st + 1;
      }
      assert stack == stack[..from] + stack[from..to] + stack[to..];
      assert stack[from..to] == Nils(to - from);
    }

    // adjust_varargs: the parameters move above all the arguments, and leave nil behind.
    method AdjustVarargs(p: Proto, actual: nat) returns (b: nat)
      requires ProtoOk(p) && actual <= top && top + Missing(p, actual) + p.maxstacksize <= |stack|
      modifies `stack, `top
      ensures |stack| == |old(stack)|
      ensures b == old(top) + Missing(p, actual) && top == b + p.numparams + (if p.needsArg then 1 else 0)
      ensures stack == Adjusted(old(stack), old(top) - actual, actual, p)
    {
      ghost var s, first := stack, top - actual;
      var missing := Missing(p, actual);
      SetNils(top, top + missing);
      top := top + missing;
      PaddedThere(s, stack, first, actual, p);
      var items: seq<Value> := stack[top - (actual + missing - p.numparams)..top];
      b := top;
      ghost var body := PlaceParameters(p, s, first, actual);
      hide Padded, Nils, Missing, Adjusted;
      if p.needsArg {
        AddArg(body, s[top..], ArgTable(items));
        stack := stack[top := ArgTable(items)];
        top := top + 1;
      } else {
        assert body + [] == body;
      }
      AdjustedParts(s, first, actual, p, body, top, stack);
    }

    // The part of it that moves the parameters
    method PlaceParameters(p: Proto, ghost s: seq<Value>, ghost first: nat, actual: nat)
      returns (ghost body: seq<Value>)
      requires ProtoOk(p) && first + actual + Missing(p, actual) + p.maxstacksize <= |s|
      requires top == first + actual + Missing(p, actual)
      requires var padded := Padded(s[first..first + actual], p);
               |padded| == top - first && stack == s[..first] + padded + s[top..]
      modifies `stack, `top
      ensures top == old(top) + p.numparams && |body| == top && stack == body + s[top..]
      ensures var padded := Padded(s[first..first + actual], p);
              body == s[..first] + Nils(p.numparams) + padded[p.numparams..] + padded[..p.numparams]
    {
      ghost var padded, b := Padded(s[first..first + actual], p), top;
      body := s[..first] + Nils(p.numparams) + padded[p.numparams..] + padded[..p.numparams];
      assert stack[..first] == s[..first];
      MoveParameters(top - (actual + Missing(p, actual)), p.numparams, padded, s[b..]);
      assert s[b..][p.numparams..] == s[top..];
    }

    // Its loop: n values from fixed on are moved to the top.
    method MoveParameters(fixed: nat, n: nat, ghost args: seq<Value>, ghost rest: seq<Value>)
      requires fixed <= |stack| && top == fixed + |args| && n <= |args| && n <= |rest|
      requires stack == stack[..fixed] + args + rest
      modifies `stack, `top
      ensures top == old(top) + n
      ensures stack == old(stack)[..fixed] + Nils(n) + args[n..] + args[..n] + rest[n..]
    {
      ghost var pre, b := stack[..fixed], top;
      assert stack == pre + Nils(0) + args[0..] + args[..0] + rest[0..];
      var i := 0;
      while i < n
        invariant 0 <= i <= n && top == b + i
        invariant stack == pre + Nils(i) + args[i..] + args[..i] + rest[i..]
      {
        MoveOne(pre, args, i, rest[i..]);
        assert rest[i..][1..] == rest[i + 1..];
        stack := stack[top := stack[fixed + i]];
        stack := stack[fixed + i := Nil];
        top := top + 1;
        i := i + 1;
      }
    }

    // luaD_precall for a Lua function: all that runs before its first instruction
    method EnterLua(p: Proto, func: nat, nresults: int, ghost body: Script) returns (st: Status)
      requires Valid() && func < top && ProtoOk(p)
      modifies this
      ensures top <= |stack| && Kept(old(stack), stack, func + 1)
      ensures st == if Fits(|old(stack)|, p, func, old(top) - func - 1) then GrowStatus(|old(cis)|, old(sizeCi))
                    else Overrun
      ensures 0 < |cis| <= sizeCi && nCcalls == old(nCcalls) && (st.IsFailure() ==> cis == old(cis))
      ensures var b := FrameBase(p, func, old(top) - func - 1);
              st.Done? ==> Valid() && cis == old(cis) + [CallInfo(func, b, b + p.maxstacksize, nresults)]
                           && Shows(stack, top, cis[|cis| - 1], Start(Lua(p, body), old(stack)[func + 1..old(top)]))
    {
      hide Padded, Registers, Afterwards, Framed, Shows, Start, Fits, SizeAfter, At, TopThere;
      var nargs := top - func - 1;
      :- Room(p, func);
      ghost var s := stack;
      var b := PlaceArguments(p, func);
      :- IncCi(CallInfo(func, b, b + p.maxstacksize, nresults));
      base := b;
      FillFrame(p, func, nargs, s);
      FramedShows(s, stack, func, nargs, p, nresults, body);
      return Done;
    }

    // The check that there is room for the frame
    method Room(p: Proto, func: nat) returns (st: Status)
      requires top <= |stack| && func < top
      modifies `stack
      ensures |old(stack)| <= |stack| && Kept(old(stack), stack, func + 1)
      ensures stack[func + 1..top] == old(stack)[func + 1..top]
      ensures st == if Fits(|old(stack)|, p, func, top - func - 1) then Done else Overrun
      ensures st.Done? ==> FrameBase(p, func, top - func - 1) + p.maxstacksize <= |stack|
    {
      CheckStack(p.maxstacksize);
      return if FrameBase(p, func, top - func - 1) + p.maxstacksize > |stack| then Overrun else Done;
    }

    // The arguments go where the function expects its parameters.
    method PlaceArguments(p: Proto, func: nat) returns (b: nat)
      requires func < top && ProtoOk(p) && FrameBase(p, func, top - func - 1) + p.maxstacksize <= |stack|
      requires top <= |stack|
      modifies `stack, `top
      ensures b == FrameBase(p, func, old(top) - func - 1)
      ensures top == TopThere(p, func, old(top) - func - 1) <= |stack| == |old(stack)|
      ensures stack == Afterwards(old(stack), func, old(top) - func - 1, p) && Kept(old(stack), stack, func + 1)
    {
      b := func + 1;
      if !p.isVararg {
        if top > b + p.numparams {
          top := b + p.numparams;
        }
      } else {
        b := AdjustVarargs(p, top - func - 1);
      }
    }

    // The registers that hold no parameter are cleared.
    method FillFrame(p: Proto, func: nat, nargs: nat, ghost s: seq<Value>)
      requires ProtoOk(p) && func + 1 + nargs <= |s| == |stack|
      requires FrameBase(p, func, nargs) + p.maxstacksize <= |s|
      requires top == TopThere(p, func, nargs) && stack == Afterwards(s, func, nargs, p)
      modifies `stack, `top
      ensures |stack| == |s| && Framed(s, stack, func, nargs, p) && top == FrameBase(p, func, nargs) + p.maxstacksize
    {
      hide Padded, Registers, Adjusted, At, Kept;
      var b := FrameBase(p, func, nargs);
      SetNils(top, b + p.maxstacksize);
      if p.isVararg {
        VarargFrame(s, func + 1, nargs, p, stack);
      } else {
        FixedFrame(s, func + 1, nargs, p, stack);
      }
      top := b + p.maxstacksize;
    }

    // luaD_precall for a C function, up to the call of its code
    method EnterC(func: nat, nresults: int, ghost body: Script) returns (st: Status)
      requires Valid() && func < top
      modifies this
      ensures top <= |stack| && Kept(old(stack), stack, func + 1)
      ensures st == GrowStatus(|old(cis)|, old(sizeCi))
      ensures 0 < |cis| <= sizeCi && nCcalls == old(nCcalls) && (st.IsFailure() ==> cis == old(cis))
      ensures st.Done? ==> Valid() && cis == old(cis) + [CallInfo(func, func + 1, old(top) + LUA_MINSTACK, nresults)]
                           && Shows(stack, top, cis[|cis| - 1], Start(C(body), old(stack)[func + 1..old(top)]))
    {
      CheckStack(LUA_MINSTACK);
      :- IncCi(CallInfo(func, func + 1, top + LUA_MINSTACK, nresults));
      base := func + 1;
      return Done;
    }

    // luaD_poscall: the results go where the function was.
    method Poscall(firstResult: nat)
      requires Valid() && |cis| >= 2 && firstResult <= top
      requires var ci := cis[|cis| - 1];
               ci.func <= firstResult && ci.nresults >= LUA_MULTRET && ci.func + ci.nresults <= |stack|
      modifies `stack, `top, `base, `cis
      ensures Valid() && cis == old(cis)[..|old(cis)| - 1] && |stack| == |old(stack)|
      ensures var ci := old(cis)[|old(cis)| - 1];
              var results := Wanted(old(stack)[firstResult..old(top)], ci.nresults);
              Kept(old(stack), stack, ci.func) && At(stack, ci.func, results) && top == ci.func + |results|
    {
      var ci := cis[|cis| - 1];
      cis := cis[..|cis| - 1];
      base := cis[|cis| - 1].base;
      var res, i := MoveResults(ci, firstResult);
      hide Wanted;
      WantedThere(old(stack)[firstResult..top], ci.nresults);
      if i > 0 {
        SetNils(res, res + i);
        res := res + i;
      }
      top := res;
    }

    // Its loop: as many results as are there and wanted
    method MoveResults(ci: CallInfo, firstResult: nat) returns (res: nat, i: int)
      requires ci.func <= firstResult <= top <= |stack| && ci.nresults >= LUA_MULTRET
      modifies `stack
      ensures var n := top - firstResult;
              && (if 0 <= ci.nresults <= n then res == ci.func + ci.nresults && i == 0
                  else res == ci.func + n && i == ci.nresults - n)
      ensures Kept(old(stack), stack, ci.func) && |stack| == |old(stack)|
      ensures forall k :: ci.func <= k < res ==> stack[k] == old(stack)[firstResult..top][k - ci.func]
    {
      var first := firstResult;
      res, i := ci.func, ci.nresults;
      while i != 0 && first < top
        invariant first - firstResult == res - ci.func == ci.nresults - i && ci.func <= res <= first <= top
        invariant ci.nresults >= 0 ==> i >= 0
        invariant |stack| == |old(stack)| && Kept(old(stack), stack, ci.func)
        invariant forall k :: ci.func <= k < res ==> stack[k] == old(stack)[firstResult + k - ci.func]
        invariant forall k :: first <= k < |stack| ==> stack[k] == old(stack)[k]
        modifies `stack
        decreases top - first
      {
        stack := stack[res := stack[first]];
        res, first, i := res + 1, first + 1, i - 1;
      }
    }

    // ---- the steps of a function ----

    // One step that calls nothing
    method Perform(cl: Callee, act: Act, ghost fr: Frame)
      requires Valid() && Shows(stack, top, cis[|cis| - 1], fr) && FrameOf(cl, fr)
      requires Allowed(act, fr) && !act.Invoke? && !act.Protect?
      modifies `stack, `top, `cis
      ensures Valid() && Shows(stack, top, cis[|cis| - 1], Stepped(act, fr))
      ensures SameCalls(old(cis), cis) && Kept(old(stack), stack, base)
    {
      hide With, Placed, Wanted;
      match act
      case Put(i, v) =>
        WriteRegister(cl.Lua?, i, v, fr);
      case Copy(i, j) =>
        WriteRegister(cl.Lua?, i, stack[base + j], fr);
      case Varargs(a, wanted) =>
        PushVarargs(cl.p.numparams, a, wanted, fr);
      case Reserve(n) =>
        CheckStackFor(n, fr);
    }

    // lua_checkstack
    method CheckStackFor(n: nat, ghost fr: Frame)
      requires Valid() && Shows(stack, top, cis[|cis| - 1], fr) && !fr.lua
      modifies `stack, `cis
      ensures Valid() && Shows(stack, top, cis[|cis| - 1], Stepped(Reserve(n), fr))
      ensures SameCalls(old(cis), cis) && Kept(old(stack), stack, base)
    {
      if top - base + n <= LUAI_MAXCSTACK {
        CheckStack(n);
        var ci := cis[|cis| - 1];
        if ci.top < top + n {
          cis := cis[|cis| - 1 := ci.(top := top + n)];
        }
      }
    }

    // An instruction that sets a register, or a library call that pushes or replaces a value
    method WriteRegister(lua: bool, i: nat, v: Value, ghost fr: Frame)
      requires Valid() && Shows(stack, top, cis[|cis| - 1], fr) && fr.lua == lua
      requires i <= |fr.regs| && i < fr.limit && !fr.open
      modifies `stack, `top
      ensures Valid() && |old(stack)| == |stack| && Kept(old(stack), stack, base)
      ensures Shows(stack, top, cis[|cis| - 1], fr.(regs := With(fr.regs, i, v)))
    {
      stack := stack[base + i := v];
      if !lua && base + i == top {
        top := top + 1;
      }
      WriteShows(old(stack), old(top), cis[|cis| - 1], fr, i, v);
    }

    // OP_VARARG: the arguments beyond the parameters are copied from below base.
    method PushVarargs(params: nat, a: nat, wanted: int, ghost fr: Frame)
      requires Valid() && Shows(stack, top, cis[|cis| - 1], fr) && Allowed(Varargs(a, wanted), fr)
      requires params == fr.params
      modifies `stack, `top
      ensures Valid() && Kept(old(stack), stack, base)
      ensures Shows(stack, top, cis[|cis| - 1], Placed(fr, a, fr.extra, wanted))
    {
      hide At, Placed, Wanted;
      var ci, ra, b := cis[|cis| - 1], base + a, wanted;
      var n := base - ci.func - 1 - params;
      if b == LUA_MULTRET {
        CheckStack(n);
        b := n;
        top := ra + n;
      }
      ghost var s := stack;
      CopyVarargs(ra, n, b);
      VarargsShow(old(stack), old(top), s, stack, top, cis[|cis| - 1], fr, a, wanted);
    }

    // Its loop
    method CopyVarargs(ra: nat, n: nat, b: nat)
      requires n <= base <= ra && ra + b <= |stack|
      modifies `stack
      ensures |stack| == |old(stack)| && Kept(old(stack), stack, ra)
      ensures forall k :: ra <= k < ra + b ==> stack[k] == if k - ra < n then old(stack)[base - n + k - ra] else Nil
    {
      var j := 0;
      while j < b
        invariant 0 <= j <= b && |stack| == |old(stack)| && Kept(old(stack), stack, ra)
        invariant forall k :: ra <= k < ra + j ==>
                    stack[k] == if k - ra < n then old(stack)[base - n + k - ra] else Nil
        modifies `stack
      {
        stack := stack[ra + j := if j < n then stack[base - n + j] else Nil];
        j := j + 1;
      }
    }

    // ---- running functions ----

    // A function goes on with s until it returns: its results are the slots from first to the top.
    method RunBody(cl: Callee, s: Script, ghost fr: Frame, ghost scarce: bool) returns (st: Status, first: nat)
      requires Valid() && Shows(stack, top, cis[|cis| - 1], fr) && FrameOf(cl, fr) && Proper(s, fr, scarce)
      requires scarce || Roomy(s, cl.Lua?, |cis|, nCcalls)
      modifies this
      ensures top <= |stack| && Kept(old(stack), stack, old(cis[|cis| - 1].func)) && |old(cis)| <= |cis| <= sizeCi
      ensures cis[..|old(cis)| - 1] == old(cis[..|cis| - 1])
      ensures st.Done? ==> Valid() && nCcalls == old(nCcalls) && SameCall(old(cis), cis)
                           && old(cis[|cis| - 1].func) <= first <= top &&
                             Runs(s, fr, Results(stack[first..top]), scarce)
      ensures st.IsFailure() ==> Runs(s, fr, Fails(st), scarce)
      decreases s, 1
    {
      hide Shows, At, Kept, Allowed, Stepped, Recovered, ReturnOk, GivenOk, Arguments;
      ghost var ci := cis[|cis| - 1];
      ShowsBounds(stack, top, ci, fr);
      match s
      case Return(a, n) =>
        ReturnThere(stack, top, ci, fr, a, n);
        first := base + a;
        if n >= 0 {
          top := first + n;
        }
        st := Done;
      case Raise =>
        RaiseThere(stack, top, ci, fr);
        first := top;
        st := Raised(stack[top - 1]);
      case Tail(a, given, callee) =>
        st, first := TailCall(a, given, callee, fr, scarce);
      case Do(act, next) =>
        st, first := RunStep(cl, s, fr, scarce);
    }

    method RunStep(cl: Callee, s: Script, ghost fr: Frame, ghost scarce: bool) returns (st: Status, first: nat)
      requires Valid() && Shows(stack, top, cis[|cis| - 1], fr) && FrameOf(cl, fr) && Proper(s, fr, scarce)
      requires scarce || Roomy(s, cl.Lua?, |cis|, nCcalls)
      requires s.Do?
      modifies this
      ensures top <= |stack| && Kept(old(stack), stack, old(cis[|cis| - 1].func)) && |old(cis)| <= |cis| <= sizeCi
      ensures cis[..|old(cis)| - 1] == old(cis[..|cis| - 1])
      ensures st.Done? ==> Valid() && nCcalls == old(nCcalls) && SameCall(old(cis), cis)
                           && old(cis[|cis| - 1].func) <= first <= top
                           && Runs(s, fr, Results(stack[first..top]), scarce)
      ensures st.IsFailure() ==> Runs(s, fr, Fails(st), scarce)
      decreases s, 0
    {
      hide Shows, At, Kept, Stepped, Placed, Arguments, Calls, ProperCall;
      var act, next := s.act, s.next;
      first := 0;
      ghost var fr';
      ghost var ci := cis[|cis| - 1];
      ShowsBounds(stack, top, ci, fr);
      if act.Invoke? || act.Protect? {
        ghost var r;
        st, r := CallFrom(cl.Lua?, act, fr, scarce);
        if st.IsFailure() {
          KeptTrans(old(stack), old(stack), stack, ci.base, ci.base, ci.func);
          return;
        }
        fr' := Recovered(fr, act.a, r, act.wanted);
      } else {
        Perform(cl, act, fr);
        fr' := Stepped(act, fr);
      }
      ghost var s1 := stack;
      st, first := RunBody(cl, next, fr', scarce);
      KeptTrans(old(stack), s1, stack, ci.base, ci.func, ci.func);
    }

    // OP_CALL, lua_call and lua_pcall: r is how the call ended.
    method CallFrom(lua: bool, act: Act, ghost fr: Frame, ghost scarce: bool) returns (st: Status, ghost r: Outcome)
      requires Valid() && Shows(stack, top, cis[|cis| - 1], fr) && fr.lua == lua
      requires Allowed(act, fr) && (act.Invoke? || act.Protect?)
      requires ProperCall(act.callee, Arguments(fr, act.a, act.given), scarce)
      requires scarce || RoomyCall(act.callee, |cis|, nCcalls + if lua then 0 else 1)
      modifies this
      ensures top <= |stack| && Kept(old(stack), stack, old(base)) && |old(cis)| <= |cis| <= sizeCi
      ensures cis[..|old(cis)| - 1] == old(cis[..|cis| - 1])
      ensures Calls(act.callee, Arguments(fr, act.a, act.given), r, scarce)
      ensures st.IsFailure() ==> act.Invoke? && r == Fails(st)
      ensures st.Done? ==> Valid() && nCcalls == old(nCcalls) && SameCalls(old(cis), cis)
                           && (act.Invoke? ==> r.Results?)
                           && Shows(stack, top, cis[|cis| - 1], Recovered(fr, act.a, r, act.wanted))
      decreases act
    {
      hide At, Shows, Kept, Placed, Calls, ProperCall, Arguments, Wanted;
      var func := base + act.a;
      if act.given >= 0 {
        top := func + 1 + act.given;
      }
      ghost var ci, s0 := cis[|cis| - 1], stack;
      ArgumentsThere(stack, old(top), top, ci, fr, act.a, act.given);
      RoomWanted(stack, old(top), ci, fr, act.a, act.wanted);
      ghost var vs;
      if act.Protect? {
        r := PCall(act.callee, func, act.wanted, scarce);
        st := Done;
      } else {
        if lua {
          st, vs := Call(act.callee, func, act.wanted, scarce);
        } else {
          st, vs := CCall(act.callee, func, act.wanted, scarce);
        }
        r := if st.Done? then Results(vs) else Fails(st);
      }
      KeptTrans(s0, s0, stack, func, func, ci.base);
      if st.IsFailure() {
        return;
      }
      ghost var top1 := top;
      if lua {
        if act.wanted >= 0 {
          top := cis[|cis| - 1].top;
        }
      } else if act.wanted == LUA_MULTRET && top >= cis[|cis| - 1].top {
        cis := cis[|cis| - 1 := cis[|cis| - 1].(top := top)];
      }
      ResultsShow(s0, old(top), ci, fr, act, r, stack, top1);
    }

    // luaD_precall, the body and luaD_poscall: vs are all its results.
    method Call(callee: Callee, func: nat, nresults: int, ghost scarce: bool) returns (st: Status, ghost vs: seq<Value>)
      requires Valid() && func < top && nresults >= LUA_MULTRET && func + nresults <= |stack|
      requires ProperCall(callee, stack[func + 1..top], scarce)
      requires scarce || RoomyCall(callee, |cis|, nCcalls)
      modifies this
      ensures top <= |stack| && Kept(old(stack), stack, func) && |cis| <= sizeCi
      ensures st.IsFailure() ==> old(cis) <= cis && Calls(callee, old(stack[func + 1..top]), Fails(st), scarce)
      ensures st.Done? ==> Valid() && nCcalls == old(nCcalls) && cis == old(cis)
                           && Calls(callee, old(stack[func + 1..top]), Results(vs), scarce)
                           && At(stack, func, Wanted(vs, nresults)) && top == func + |Wanted(vs, nresults)|
      decreases callee, 0
    {
      hide At, Shows, Proper, Runs, Wanted, Registers, Padded;
      vs := [];
      ghost var args := stack[func + 1..top];
      if callee.Lua? {
        st := EnterLua(callee.p, func, nresults, callee.body);
      } else {
        st := EnterC(func, nresults, callee.body);
      }
      if st.IsFailure() {
        return;
      }
      var first;
      st, first := RunBody(callee, callee.body, Start(callee, args), scarce);
      if st.IsFailure() {
        return;
      }
      vs := stack[first..top];
      Poscall(first);
    }

    // luaD_call
    method CCall(callee: Callee, func: nat, nresults: int, ghost scarce: bool)
      returns (st: Status, ghost vs: seq<Value>)
      requires Valid() && func < top && nresults >= LUA_MULTRET && func + nresults <= |stack|
      requires ProperCall(callee, stack[func + 1..top], scarce)
      requires scarce || RoomyCall(callee, |cis|, nCcalls + 1)
      modifies this
      ensures top <= |stack| && Kept(old(stack), stack, func) && |cis| <= sizeCi
      ensures st.IsFailure() ==> old(cis) <= cis && Calls(callee, old(stack[func + 1..top]), Fails(st), scarce)
      ensures st.Done? ==> Valid() && nCcalls == old(nCcalls) && cis == old(cis)
                           && Calls(callee, old(stack[func + 1..top]), Results(vs), scarce)
                           && At(stack, func, Wanted(vs, nresults)) && top == func + |Wanted(vs, nresults)|
      ensures old(nCcalls) + 1 == LUAI_MAXCCALLS ==> st.CStackOverflow?
      decreases callee, 1
    {
      vs := [];
      nCcalls := nCcalls + 1;
      if nCcalls >= LUAI_MAXCCALLS {
        if nCcalls == LUAI_MAXCCALLS {
          return CStackOverflow, vs;
        } else if nCcalls >= LUAI_MAXCCALLS + LUAI_MAXCCALLS / 8 {
          return ErrorInError, vs;
        }
      }
      st, vs := Call(callee, func, nresults, scarce);
      if st.IsFailure() {
        return;
      }
      nCcalls := nCcalls - 1;
    }

    // luaD_pcall: when the call fails, everything is as before it but for the error value in place of the function.
    method PCall(callee: Callee, func: nat, nresults: int, ghost scarce: bool) returns (ghost r: Outcome)
      requires Valid() && func < top && nresults >= LUA_MULTRET && func + nresults <= |stack|
      requires ProperCall(callee, stack[func + 1..top], scarce)
      requires scarce || RoomyCall(callee, |cis|, nCcalls + 1)
      modifies this
      ensures Valid() && Kept(old(stack), stack, func) && cis == old(cis) && nCcalls == old(nCcalls)
      ensures Calls(callee, old(stack[func + 1..top]), r, scarce)
      ensures var values := if r.Results? then Wanted(r.values, nresults) else [ErrorValue(r.status)];
              At(stack, func, values) && top == func + |values|
      ensures r.Fails? ==>
                func < |stack| && stack[func] == match r.status case Raised(v) => v case st => Message(st)
      ensures !scarce && MayRaise(callee, old(stack[func + 1..top])) ==>
                top == func + 1 <= |stack| && CallRaises(callee, old(stack[func + 1..top]), stack[func], false)
      decreases callee, 2
    {
      var oldnCcalls, ci := nCcalls, |cis|;
      var st;
      ghost var vs;
      st, vs := CCall(callee, func, nresults, scarce);
      r := if st.Done? then Results(vs) else Fails(st);
      RaisedResult(callee, old(stack[func + 1..top]), r, scarce);
      if st.IsFailure() {
        stack := stack[func := ErrorValue(st)];
        top := func + 1;
        nCcalls := oldnCcalls;
        cis := cis[..ci];
        base := cis[|cis| - 1].base;
        if sizeCi > LUAI_MAXCALLS && |cis| < LUAI_MAXCALLS {
          sizeCi := LUAI_MAXCALLS;
        }
      }
    }

    // OP_TAILCALL: a Lua function takes the place of the one that calls it.
    method TailCall(a: nat, given: int, callee: Callee, ghost fr: Frame, ghost scarce: bool)
      returns (st: Status, first: nat)
      requires Valid() && Shows(stack, top, cis[|cis| - 1], fr) && fr.lua
      requires GivenOk(fr, a, given) && ProperCall(callee, Arguments(fr, a, given), scarce)
      requires scarce || RoomyCall(callee, |cis|, nCcalls)
      modifies this
      ensures top <= |stack| && Kept(old(stack), stack, old(cis[|cis| - 1].func)) && |old(cis)| <= |cis| <= sizeCi
      ensures cis[..|old(cis)| - 1] == old(cis[..|cis| - 1])
      ensures var args := Arguments(fr, a, given);
              && (st.IsFailure() ==> Calls(callee, args, Fails(st), scarce))
              && (st.Done? ==> Valid() && nCcalls == old(nCcalls) && SameCall(old(cis), cis)
                               && old(cis[|cis| - 1].func) <= first <= top
                               && Calls(callee, args, Results(stack[first..top]), scarce))
      decreases callee, 3
    {
      hide At, Shows, Kept, Calls, Runs, Proper, Arguments;
      first := base + a;
      if given >= 0 {
        top := first + 1 + given;
      }
      ghost var ci, s0, args := cis[|cis| - 1], stack, Arguments(fr, a, given);
      ArgumentsThere(stack, old(top), top, ci, fr, a, given);
      if callee.C? {
        ghost var vs;
        st, vs := Call(callee, first, LUA_MULTRET, scarce);
        KeptTrans(s0, s0, stack, first, first, ci.func);
        if st.Done? {
          AtSlice(stack, first, vs);
        }
      } else {
        st, first := Replace(callee, first, scarce);
      }
    }

    // The part of it for a Lua function
    method Replace(callee: Callee, func: nat, ghost scarce: bool) returns (st: Status, first: nat)
      requires Valid() && cis[|cis| - 1].func < func < top && callee.Lua? &&
               ProperCall(callee, stack[func + 1..top], scarce)
      requires scarce || RoomyCall(callee, |cis|, nCcalls)
      modifies this
      ensures top <= |stack| && Kept(old(stack), stack, old(cis[|cis| - 1].func)) && |old(cis)| <= |cis| <= sizeCi
      ensures cis[..|old(cis)| - 1] == old(cis[..|cis| - 1])
      ensures var args := old(stack[func + 1..top]);
              && (st.IsFailure() ==> Calls(callee, args, Fails(st), scarce))
              && (st.Done? ==> Valid() && nCcalls == old(nCcalls) && SameCall(old(cis), cis)
                               && old(cis[|cis| - 1].func) <= first <= top
                               && Calls(callee, args, Results(stack[first..top]), scarce))
      decreases callee, 2
    {
      hide At, Shows, Kept, Runs, Proper;
      ghost var s0, args, k := stack, stack[func + 1..top], cis[|cis| - 1].func;
      first := 0;
      st := EnterLua(callee.p, func, LUA_MULTRET, callee.body);
      KeptTrans(s0, s0, stack, func + 1, func + 1, k);
      if st.IsFailure() {
        return;
      }
      ghost var s1 := stack;
      MoveFrame(Start(callee, args));
      KeptTrans(s0, s1, stack, k, k, k);
      ghost var s2 := stack;
      st, first := RunBody(callee, callee.body, Start(callee, args), scarce);
      KeptTrans(s0, s2, stack, k, k, k);
    }

    // The new frame moves down over the one before it.
    method MoveFrame(ghost fr: Frame)
      requires Valid() && |cis| >= 2 && Shows(stack, top, cis[|cis| - 1], fr) && fr.lua && !fr.open
      requires cis[|cis| - 2].func < cis[|cis| - 1].func
      modifies this
      ensures Valid() && |cis| == |old(cis)| - 1 && cis[..|cis| - 1] == old(cis[..|cis| - 2]) && nCcalls == old(nCcalls)
      ensures cis[|cis| - 1].func == old(cis[|cis| - 2].func) && cis[|cis| - 1].nresults == old(cis[|cis| - 2].nresults)
      ensures Kept(old(stack), stack, cis[|cis| - 1].func) && Shows(stack, top, cis[|cis| - 1], fr)
      ensures sizeCi == old(sizeCi)
    {
      var ci, ci1 := cis[|cis| - 2], cis[|cis| - 1];
      var func, pfunc := ci.func, ci1.func;
      base := func + (ci1.base - pfunc);
      var aux := 0;
      while pfunc + aux < top
        invariant pfunc + aux <= top && |stack| == |old(stack)| && Kept(old(stack), stack, func)
        invariant forall k :: func <= k < func + aux ==> stack[k] == old(stack)[k + (pfunc - func)]
        invariant forall k :: pfunc + aux <= k < |stack| ==> stack[k] == old(stack)[k]
        modifies `stack
      {
        stack := stack[func + aux := stack[pfunc + aux]];
        aux := aux + 1;
      }
      top := func + aux;
      cis := cis[..|cis| - 2] + [ci.(base := base, top := top)];
    }
  }

  // The call a frame belongs to is the same, wherever its frame is.
  predicate SameCall(cs: seq<CallInfo>, cs': seq<CallInfo>) {
    && |cs'| == |cs| > 0 && cs'[..|cs| - 1] == cs[..|cs| - 1]
    && cs'[|cs| - 1].func == cs[|cs| - 1].func && cs'[|cs| - 1].nresults == cs[|cs| - 1].nresults
  }

  lemma ShowsBounds(s: seq<Value>, top: nat, ci: CallInfo, fr: Frame)
    requires Shows(s, top, ci, fr)
    ensures ci.func < ci.base <= top <= |s| && ci.base + |fr.regs| <= |s|
    ensures Kept(s, s, ci.func) && Kept(s, s, ci.base)
  {
  }

  lemma ReturnThere(s: seq<Value>, top: nat, ci: CallInfo, fr: Frame, a: nat, n: int)
    requires Shows(s, top, ci, fr) && ReturnOk(fr, a, n)
    ensures var first := ci.base + a;
            var last := if n >= 0 then first + n else top;
            && first <= last <= |s| && s[first..last] == if n < 0 then fr.regs[a..] else fr.regs[a..a + n]
  {
  }

  lemma RaiseThere(s: seq<Value>, top: nat, ci: CallInfo, fr: Frame)
    requires Shows(s, top, ci, fr) && !fr.lua && fr.regs != []
    ensures 0 < top <= |s| && s[top - 1] == fr.regs[|fr.regs| - 1]
  {
  }

  lemma ArgumentsThere(s: seq<Value>, t: nat, top: nat, ci: CallInfo, fr: Frame, a: nat, given: int)
    requires Shows(s, t, ci, fr) && GivenOk(fr, a, given)
    requires top == if given < 0 then t else ci.base + a + 1 + given
    ensures ci.func < ci.base && ci.base + a < top <= |s| && s[ci.base + a + 1..top] == Arguments(fr, a, given)
    ensures Kept(s, s, ci.base + a)
  {
  }

  lemma AtSlice(s: seq<Value>, first: nat, vs: seq<Value>)
    requires At(s, first, vs)
    ensures s[first..first + |vs|] == vs
  {
  }

  lemma RoomWanted(s: seq<Value>, top: nat, ci: CallInfo, fr: Frame, a: nat, wanted: int)
    requires Shows(s, top, ci, fr) && a < |fr.regs| && WantedOk(fr, a, wanted)
    ensures wanted >= LUA_MULTRET && ci.base + a + wanted <= |s|
  {
  }

  // The frame of the caller when the results are in place
  lemma ResultsShow(s0: seq<Value>, top0: nat, ci: CallInfo, fr: Frame, act: Act, r: Outcome, s: seq<Value>, top: nat)
    requires Shows(s0, top0, ci, fr) && (act.Invoke? || act.Protect?) && (act.Invoke? ==> r.Results?)
    requires Allowed(act, fr) && Kept(s0, s, ci.base + act.a)
    requires var values := if r.Results? then Wanted(r.values, act.wanted) else [ErrorValue(r.status)];
             At(s, ci.base + act.a, values) && top == ci.base + act.a + |values|
    ensures Shows(s, if fr.lua && act.wanted >= 0 then ci.top else top,
                  if !fr.lua && act.wanted < 0 && top >= ci.top then ci.(top := top) else ci,
                  Recovered(fr, act.a, r, act.wanted))
    ensures top <= |s| && ci.top <= |s|
  {
    if r.Results? {
      PlacedShow(s0, top0, ci, fr, act.a, r.values, act.wanted, s, top);
    } else {
      var e, wanted := [ErrorValue(r.status)], if act.wanted < 0 then LUA_MULTRET else 1;
      assert Wanted(e, wanted) == e;
      hide ErrorValue, Wanted;
      PlacedShow(s0, top0, ci, fr, act.a, e, wanted, s, top);
    }
  }

  lemma PlacedShow(s0: seq<Value>, top0: nat, ci: CallInfo, fr: Frame, a: nat, values: seq<Value>, wanted: int,
                   s: seq<Value>, top: nat)
    requires Shows(s0, top0, ci, fr) && a <= |fr.regs| && WantedOk(fr, a, wanted) && Kept(s0, s, ci.base + a)
    requires At(s, ci.base + a, Wanted(values, wanted)) && top == ci.base + a + |Wanted(values, wanted)|
    ensures Shows(s, if fr.lua && wanted >= 0 then ci.top else top,
                  if !fr.lua && wanted < 0 && top >= ci.top then ci.(top := top) else ci,
                  Placed(fr, a, values, wanted))
  {
    assert wanted < 0 ==> Wanted(values, wanted) == values;
    hide Wanted;
  }

  // The calls that are active are the same but for the limit of the last one.
  predicate SameCalls(cs: seq<CallInfo>, cs': seq<CallInfo>) {
    && |cs'| == |cs| > 0 && cs'[..|cs| - 1] == cs[..|cs| - 1]
    && cs'[|cs| - 1] == cs[|cs| - 1].(top := cs'[|cs| - 1].top)
  }

  predicate FrameOf(cl: Callee, fr: Frame) {
    fr.lua == cl.Lua? && (cl.Lua? ==> fr.params == cl.p.numparams)
  }

  lemma VarargsShow(s0: seq<Value>, top0: nat, s: seq<Value>, s': seq<Value>, top: nat, ci: CallInfo, fr: Frame,
                    a: nat, wanted: int)
    requires Shows(s0, top0, ci, fr) && Allowed(Varargs(a, wanted), fr) && Kept(s0, s, |s0|) && |s'| == |s|
    requires var ra, n := ci.base + a, |fr.extra|;
             var b := if wanted < 0 then n else wanted;
             && ra + b <= |s| && Kept(s, s', ra) && n <= ci.base
             && (forall k :: ra <= k < ra + b ==> s'[k] == if k - ra < n then s[ci.base - n + k - ra] else Nil)
             && top == if wanted < 0 then ra + n else top0
    ensures Shows(s', top, ci, Placed(fr, a, fr.extra, wanted)) && Kept(s0, s', ci.base)
  {
    hide Wanted;
    WantedThere(fr.extra, wanted);
    assert At(s', ci.base + a, Wanted(fr.extra, wanted));
  }

  lemma WantedThere(vs: seq<Value>, wanted: int)
    ensures |Wanted(vs, wanted)| == if wanted < 0 then |vs| else wanted
    ensures forall k :: 0 <= k < |Wanted(vs, wanted)| ==> Wanted(vs, wanted)[k] == if k < |vs| then vs[k] else Nil
  {
  }

  lemma WriteShows(s: seq<Value>, top: nat, ci: CallInfo, fr: Frame, i: nat, v: Value)
    requires Shows(s, top, ci, fr) && i <= |fr.regs| && i < fr.limit && !fr.open
    ensures ci.base + i < |s|
    ensures Shows(s[ci.base + i := v], if !fr.lua && i == |fr.regs| then top + 1 else top, ci,
                  fr.(regs := With(fr.regs, i, v)))
    ensures Kept(s, s[ci.base + i := v], ci.base)
  {
  }

  lemma FramedShows(s: seq<Value>, s': seq<Value>, func: nat, nargs: nat, p: Proto, nresults: int, body: Script)
    requires ProtoOk(p) && func + 1 + nargs <= |s| && Framed(s, s', func, nargs, p)
    ensures var b := FrameBase(p, func, nargs);
            && Shows(s', b + p.maxstacksize, CallInfo(func, b, b + p.maxstacksize, nresults),
                     Start(Lua(p, body), s[func + 1..func + 1 + nargs]))
            && b + p.maxstacksize <= |s'| && Kept(s, s', func + 1)
  {
  }

  // The frame of a function with a fixed number of parameters: extra arguments are cleared.
  lemma FixedFrame(s: seq<Value>, b: nat, nargs: nat, p: Proto, s': seq<Value>)
    requires ProtoOk(p) && !p.isVararg && b + nargs <= |s| && b + p.maxstacksize <= |s|
    requires var t := if nargs > p.numparams then b + p.numparams else b + nargs;
             s' == s[..t] + Nils(b + p.maxstacksize - t) + s[b + p.maxstacksize..]
    ensures Kept(s, s', b) && At(s', b, Registers(s[b..b + nargs], p))
  {
  }

  lemma AdjustedAt(s: seq<Value>, first: nat, nargs: nat, p: Proto)
    requires ProtoOk(p) && first + nargs + Missing(p, nargs) + p.maxstacksize <= |s|
    ensures var b, args := first + nargs + Missing(p, nargs), s[first..first + nargs];
            var r := Adjusted(s, first, nargs, p);
            && Kept(s, r, first) && At(r, b, Padded(args, p)[..p.numparams] + ArgParameter(args, p))
            && At(r, first + p.numparams, Padded(args, p)[p.numparams..])
  {
    assert |ArgParameter(s[first..first + nargs], p)| == if p.needsArg then 1 else 0;
    hide Padded, ArgParameter;
  }

  lemma VarargFrame(s: seq<Value>, first: nat, nargs: nat, p: Proto, s': seq<Value>)
    requires ProtoOk(p) && p.isVararg && first + nargs + Missing(p, nargs) + p.maxstacksize <= |s|
    requires var b := first + nargs + Missing(p, nargs);
             var t := b + p.numparams + (if p.needsArg then 1 else 0);
             s' == Adjusted(s, first, nargs, p)[..t] + Nils(b + p.maxstacksize - t)
                   + Adjusted(s, first, nargs, p)[b + p.maxstacksize..]
    ensures var b, args := first + nargs + Missing(p, nargs), s[first..first + nargs];
            && Kept(s, s', first) && At(s', b, Registers(args, p))
            && At(s', first + p.numparams, Padded(args, p)[p.numparams..])
  {
    AdjustedAt(s, first, nargs, p);
    hide Padded, Adjusted;
  }

  lemma AddArg(below: seq<Value>, rest: seq<Value>, v: Value)
    requires |rest| > 0
    ensures (below + rest)[|below| := v] == below + [v] + rest[1..]
  {
  }

  lemma PaddedThere(s: seq<Value>, s': seq<Value>, first: nat, actual: nat, p: Proto)
    requires first + actual + Missing(p, actual) <= |s|
    requires s' == s[..first + actual] + Nils(Missing(p, actual)) + s[first + actual + Missing(p, actual)..]
    ensures var b := first + actual + Missing(p, actual);
            var padded := Padded(s[first..first + actual], p);
            && |padded| == b - first && s' == s[..first] + padded + s[b..]
            && p.numparams <= |padded| && s'[first + p.numparams..b] == padded[p.numparams..]
            && s' == s[..first] + Nils(0) + padded[0..] + padded[..0] + s[b..]
  {
    assert s[..first + actual] == s[..first] + s[first..first + actual];
  }

  lemma MoveOne(pre: seq<Value>, args: seq<Value>, i: nat, rest: seq<Value>)
    requires i < |args| && |rest| > 0
    ensures var s := pre + Nils(i) + args[i..] + args[..i] + rest;
            var top, from := |pre| + |args| + i, |pre| + i;
            s[top := s[from]][from := Nil] == pre + Nils(i + 1) + args[i + 1..] + args[..i + 1] + rest[1..]
  {
    var s := pre + Nils(i) + args[i..] + args[..i] + rest;
    assert s[|pre| + i] == args[i];
  }
}
