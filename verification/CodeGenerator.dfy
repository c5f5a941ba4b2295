// The code generator for boolean expressions (lcode.c), over the state of one function.
module CodeGenerator {
  import opened Instructions
  import opened JumpLists
  import opened Machine
  import opened Meaning
  import opened CommitLemmas
  import opened ExpressionLemmas
  import opened Emission
  import opened Descriptors
  import opened Operators
  import opened Status

  class FuncState {
    var code: seq<Instruction>     // f->code[0..pc)
    var lasttarget: int
    var jpc: int                   // list of pending jumps to pc
    var freereg: nat
    var maxstacksize: nat
    const nactvar: nat
    const nups: nat

    ghost var here: seq<nat>       // the jumps on jpc
    ghost var open: set<nat>       // the jumps on the lists of expression descriptors
    ghost var outer: set<nat>      // those of the expressions around the current one

    ghost function S(): Snap
      reads this
    {
      Snap(code, open, here)
    }

    ghost function F(): Frame
      reads `maxstacksize, `outer
    {
      Frame(maxstacksize, nactvar, nups, outer)
    }

    ghost predicate Ready()
      reads this
    {
      && IsList(code, jpc, here)
      && nactvar <= freereg <= maxstacksize < MAXSTACK && 2 <= maxstacksize && nups < 256
    }

    ghost predicate Valid()
      reads this
    {
      Ready() && WellMade(S(), maxstacksize, nups) && Accounted(S(), outer, [], [], NO_JUMP)
    }

    constructor (nactvar: nat, nups: nat)
      requires nactvar < MAXSTACK && nups < 256
      ensures Valid() && code == [] && freereg == nactvar && here == [] && open == {} && outer == {}
      ensures this.nactvar == nactvar && this.nups == nups
    {
      this.nactvar, this.nups := nactvar, nups;
      code, lasttarget, jpc := [], -1, NO_JUMP;
      freereg, maxstacksize := nactvar, if nactvar < 2 then 2 else nactvar;
      here, open, outer := [], {}, {};
    }

    // ---- jump lists ----

    method FixJump(pc: nat, dest: nat) returns (st: Status)
      requires pc < |code|
      modifies `code
      ensures st.Done? ==> Near([pc], dest) && code == old(code)[pc := WithSBx(old(code)[pc], dest - (pc + 1))]
      ensures st.Done? && dest != pc ==> GetJump(code, pc) == dest
      ensures st.Failed? ==> st.error == ControlStructureTooLong && !Near([pc], dest) && code == old(code)
    {
      var offset := dest - (pc + 1);
      if offset > MAXARG_SBX || offset < -MAXARG_SBX {
        assert pc in [pc];
        return Failed(ControlStructureTooLong);
      }
      code := code[pc := WithSBx(code[pc], offset)];
      return Done;
    }

    method PatchTestReg(node: nat, reg: Arg8) returns (patched: bool)
      requires node < |code| && code[node].op == OP_JMP
      modifies `code
      ensures patched == HasValue(old(code), node)
      ensures code == if patched then old(code)[node - 1 := ResolveTest(old(code)[node - 1], reg)] else old(code)
    {
      var i := GetJumpControl(code, node);
      if code[i].op != OP_TESTSET {
        return false;
      }
      code := code[i := ResolveTest(code[i], reg)];
      return true;
    }

    method NeedValue(list: int, ghost js: seq<nat>) returns (need: bool)
      requires IsList(code, list, js)
      ensures need <==> exists j :: j in js && !HasValue(code, j)
    {
      ListBounds(code, list, js);
      var l := list;
      ghost var rest, k := js, 0;
      while l != NO_JUMP
        invariant 0 <= k <= |js| && rest == js[k..] && IsList(code, l, rest)
        invariant forall i :: 0 <= i < k ==> HasValue(code, js[i])
        decreases |js| - k
      {
        assert rest[0] == js[k];
        if code[GetJumpControl(code, l)].op != OP_TESTSET {
          assert js[k] in js && !HasValue(code, js[k]);
          return true;
        }
        l := GetJump(code, l);
        k := k + 1;
        rest := rest[1..];
      }
      return false;
    }

    method RemoveValues(list: int, ghost js: seq<nat>)
      requires IsList(code, list, js)
      modifies `code
      ensures code == DropValues(old(code), js)
    {
      ghost var c0 := code;
      var l := list;
      ghost var k := 0;
      assert code == DropValues(c0, js[..0]);
      while l != NO_JUMP
        invariant 0 <= k <= |js| && IsList(c0, list, js)
        invariant IsList(c0, l, js[k..])
        invariant code == DropValues(c0, js[..k])
        decreases |js| - k
      {
        DropNext(c0, list, js, k, l);
        hide DropValues, IsList;
        var patched := PatchTestReg(l, NO_REG);
        l := GetJump(code, l);
        k := k + 1;
      }
      assert js[..k] == js;
    }

    // The body of the loop of patchlistaux.
    method PatchJump(list: nat, vtarget: nat, reg: Arg8, dtarget: int) returns (st: Status)
      requires list < |code| && code[list].op == OP_JMP
      requires vtarget <= |code| && -1 <= dtarget <= |code| && (dtarget == NO_JUMP ==> HasValue(code, list))
      modifies `code
      ensures st.Done? ==> code == PatchOne(old(code), list, vtarget, reg, dtarget)
      ensures st.Done? ==> Near([list], if HasValue(old(code), list) then vtarget else dtarget)
      ensures st.Failed? ==> |code| == |old(code)| > MAXARG_SBX
    {
      var patched := PatchTestReg(list, reg);
      st := FixJump(list, if patched then vtarget else dtarget);
      assert list in [list];
    }

    method PatchListAux(list: int, vtarget: nat, reg: Arg8, dtarget: int, ghost js: seq<nat>) returns (st: Status)
      requires IsList(code, list, js)
      requires vtarget <= |code| && -1 <= dtarget <= |code|
      requires dtarget == NO_JUMP ==> forall j :: j in js ==> HasValue(code, j)
      modifies `code
      ensures st.Done? ==> code == Patch(old(code), js, vtarget, reg, dtarget)
      ensures st.Done? ==> forall j :: j in js ==> Near([j], if HasValue(old(code), j) then vtarget else dtarget)
      ensures st.Failed? ==> |code| == |old(code)| > MAXARG_SBX
    {
      ghost var c0 := code;
      ListBounds(c0, list, js);
      ListAcyclic(c0, list, js);
      var l := list;
      ghost var k := 0;
      assert code == Patch(c0, js[..0], vtarget, reg, dtarget);
      while l != NO_JUMP
        invariant 0 <= k <= |js|
        invariant IsList(c0, l, js[k..])
        invariant code == Patch(c0, js[..k], vtarget, reg, dtarget)
        invariant forall i :: 0 <= i < k ==> Near([js[i]], if HasValue(c0, js[i]) then vtarget else dtarget)
        decreases |js| - k
      {
        assert js[k..][0] == js[k] && js[k] in js;
        PatchStep(c0, js, k, vtarget, reg, dtarget);
        var next := GetJump(code, l);
        assert next == GetJump(c0, l);
        st := PatchJump(l, vtarget, reg, dtarget);
        if st.Failed? {
          return;
        }
        assert code == Patch(c0, js[..k + 1], vtarget, reg, dtarget);
        assert js[k..][1..] == js[k + 1..];
        l := next;
        k := k + 1;
      }
      assert js[..k] == js;
      return Done;
    }

    // luaK_concat; the second list keeps its jumps and the first one its head
    method Concat(l1: int, l2: int, ghost js: seq<nat>, ghost ks: seq<nat>) returns (st: Status, l: int)
      requires IsList(code, l1, js) && IsList(code, l2, ks)
      requires forall j :: j in js ==> j !in ks
      modifies `code
      ensures st.Done? ==> forall j :: j in js ==> j < |old(code)|
      ensures st.Done? ==> code == Link(old(code), js, l2) && IsList(code, l, js + ks)
      ensures st.Failed? ==> |code| == |old(code)| > MAXARG_SBX
    {
      l := l1;
      ListBounds(code, l1, js);
      ListBounds(code, l2, ks);
      if l2 == NO_JUMP {
        assert ks == [] && js + ks == js;
        return Done, l1;
      } else if l1 == NO_JUMP {
        assert js == [] && js + ks == ks;
        return Done, l2;
      } else {
        var list := l1;
        ghost var k := 0;
        var next := GetJump(code, list);
        while next != NO_JUMP
          invariant 0 <= k < |js| && list == js[k] && list < |code|
          invariant next == GetJump(code, list)
          invariant IsList(code, next, js[k + 1..])
          decreases |js| - k
        {
          assert js[k + 1..][0] == js[k + 1];
          assert js[k + 1..][1..] == js[k + 2..];
          list := next;
          k := k + 1;
          next := GetJump(code, list);
        }
        assert k == |js| - 1;
        st := FixJump(list, l2);
        if st.Done? {
          assert Near([list], l2) && list in [list];
          ListConcat(old(code), l1, js, l2, ks);
        } else {
          assert l2 in ks;
        }
      }
    }

    method GetLabel() returns (pc: nat)
      modifies `lasttarget
      ensures pc == |code| && lasttarget == |code|
    {
      lasttarget := |code|;
      return |code|;
    }

    // luaK_patchtohere: the jumps of list become pending.
    method PatchToHere(list: int, ghost js: seq<nat>) returns (st: Status)
      requires IsList(code, jpc, here) && IsList(code, list, js)
      requires forall j :: j in here ==> j !in js && j < |code|
      modifies `code, `jpc, `lasttarget, `here, `open
      ensures st.Done? ==> code == Link(old(code), old(here), list) && IsList(code, jpc, here)
      ensures st.Done? ==> here == old(here) + js && open == old(open) - Elems(js)
      ensures st.Failed? ==> |code| == |old(code)| > MAXARG_SBX
    {
      var _ := GetLabel();
      var l;
      st, l := Concat(jpc, list, here, js);
      if st.Done? {
        jpc := l;
        here, open := here + js, open - Elems(js);
      }
    }

    // ---- emission ----

    method DischargeJpc() returns (st: Status)
      requires IsList(code, jpc, here)
      modifies `code, `jpc, `here
      ensures st.Done? ==> Near(old(here), |old(code)|)
      ensures st.Done? ==> code == Discharged(old(S())).code && jpc == NO_JUMP && here == []
      ensures st.Failed? ==> |code| == |old(code)| > MAXARG_SBX
    {
      st := PatchListAux(jpc, |code|, NO_REG, |code|, here);
      if st.Done? {
        jpc, here := NO_JUMP, [];
        forall j | j in old(here)
          ensures -MAXARG_SBX <= |old(code)| - (j + 1) <= MAXARG_SBX
        {
          assert Near([j], |old(code)|) && j in [j];
        }
      }
    }

    // luaK_code, luaK_codeABC
    method Code(i: Instruction) returns (st: Status, pc: nat)
      requires IsList(code, jpc, here)
      modifies `code, `jpc, `here
      ensures st.Done? ==> IsEmit(old(S()), S(), [i]) && jpc == NO_JUMP && pc == |old(code)|
      ensures st.Failed? ==> |code| == |old(code)| > MAXARG_SBX
    {
      pc := |code|;
      st := DischargeJpc();
      if st.Done? {
        code := code + [i];
      }
    }

    // luaK_jump: a new jump, on whose list the jumps pending to this position are kept on hold.
    method Jump() returns (st: Status, j: nat)
      requires IsList(code, jpc, here) && forall h :: h in here ==> h < |code|
      modifies `code, `jpc, `here, `open
      ensures st.Done? ==>
        && j == |old(code)| && here == [] && jpc == NO_JUMP
        && IsList(code, j, [j] + old(here))
        && |code| == |old(code)| + 1 && code[..j] == old(code) && code[j].op == OP_JMP && code[j].a == 0
        && (old(here) == [] ==> code[j] == MakeJump())
        && open == old(open) + {j} + Elems(old(here))
      ensures st.Failed? ==> |code| > MAXARG_SBX
    {
      var jpc', l := jpc, 0;
      ghost var held := here;
      jpc, here := NO_JUMP, [];
      assert IsList(code, jpc, []);
      st, j := Code(MakeJump());
      if st.Failed? {
        return;
      }
      assert code == old(code) + [MakeJump()] by {
        assert Discharged(Snap(old(code), open, [])).code == old(code);
      }
      assert IsList(code, j, [j]) by {
        assert GetJump(code, j) == NO_JUMP;
      }
      AppendKeepsList(old(code), [MakeJump()], jpc', held);
      st, l := Concat(j, jpc', [j], held);
      if st.Done? {
        assert code == Link(old(code) + [MakeJump()], [j], jpc');
        open := open + {j} + Elems(held);
      }
    }

    method CondJump(op: OpCode, a: Arg8, b: Arg9, c: Arg9) returns (st: Status, j: nat)
      requires IsList(code, jpc, here)
      modifies `code, `jpc, `here, `open
      ensures st.Done? ==>
        && IsEmit(old(S()), S(), [ABC(op, a, b, c), MakeJump()]) && jpc == NO_JUMP
        && j == |old(code)| + 1 && open == old(open) + {j} && IsList(code, j, [j])
      ensures st.Failed? ==> |code| > MAXARG_SBX
    {
      var pc;
      j := 0;
      st, pc := Code(ABC(op, a, b, c));
      if st.Failed? {
        return;
      }
      ghost var mid := code;
      st, j := Jump();
      if st.Done? {
        assert code == mid + [MakeJump()];
        assert code == Discharged(old(S())).code + [ABC(op, a, b, c), MakeJump()];
        assert open == old(open) + {j};
      }
    }

    // ---- registers ----

    method CheckStack(n: nat) returns (st: Status)
      requires maxstacksize < MAXSTACK
      modifies `maxstacksize
      ensures st.Failed? <==> freereg + n >= MAXSTACK
      ensures st.Failed? ==> st.error == ExpressionTooComplex
      ensures st.Done? ==> maxstacksize == if freereg + n > old(maxstacksize) then freereg + n else old(maxstacksize)
    {
      var newstack := freereg + n;
      if newstack > maxstacksize {
        if newstack >= MAXSTACK {
          return Failed(ExpressionTooComplex);
        }
        maxstacksize := newstack;
      }
      return Done;
    }

    method ReserveRegs(n: nat) returns (st: Status)
      requires Ready()
      modifies `maxstacksize, `freereg
      ensures st.Done? ==> Ready() && freereg == old(freereg) + n && maxstacksize >= old(maxstacksize)
      ensures st.Failed? <==> old(freereg) + n >= MAXSTACK
    {
      st := CheckStack(n);
      if st.Done? {
        freereg := freereg + n;
      }
    }

    method FreeReg(reg: nat)
      requires reg < BITRK && (reg >= nactvar ==> reg + 1 == freereg)
      modifies `freereg
      ensures freereg == if reg >= nactvar then reg else old(freereg)
    {
      if reg < BITRK && reg >= nactvar {
        freereg := freereg - 1;
      }
    }

    method FreeExp(e: ExpDesc)
      requires e.k == VNONRELOC ==> e.info < BITRK && (e.info >= nactvar ==> e.info + 1 == freereg)
      modifies `freereg
      ensures freereg == if e.k == VNONRELOC && e.info >= nactvar then e.info else old(freereg)
    {
      if e.k == VNONRELOC {
        FreeReg(e.info);
      }
    }

    // ---- discharging ----

    // A temporary that holds the value of e is the topmost register, and the only one in use past c.n.
    ghost predicate RegsOk(e: ExpDesc, n: nat)
      reads this
    {
      && nactvar <= n
      && freereg == (if e.k == VNONRELOC && e.info >= nactvar then n + 1 else n)
      && (e.k == VNONRELOC && e.info >= nactvar ==> e.info == n)
    }

    method LoadUpvalue(e: ExpDesc, ghost c: Claim, ghost ts: seq<nat>, ghost fs: seq<nat>)
      returns (st: Status, e': ExpDesc)
      requires Ready() && Means(S(), F(), e, c, ts, fs) && e.k == VUPVAL
      modifies `code, `jpc, `here
      ensures st.Done? ==>
        && Ready() && Means(S(), F(), e', c, ts, fs) && e'.k == VRELOCABLE && e'.t == e.t && e'.f == e.f
        && Extends(old(Committed(S(), e)), Committed(S(), e'), {})
      ensures st.Failed? ==> |code| > MAXARG_SBX
    {
      var i, pc := ABC(OP_GETUPVAL, 0, e.info, 0), 0;
      st, pc := Code(i);
      e' := e.(k := VRELOCABLE, info := pc);
      if st.Done? {
        DischargeUpvalue(old(S()), S(), F(), e, e', c, ts, fs, i);
      }
    }

    method DischargeVars(e: ExpDesc, ghost c: Claim, ghost ts: seq<nat>, ghost fs: seq<nat>)
      returns (st: Status, e': ExpDesc)
      requires Ready() && Means(S(), F(), e, c, ts, fs)
      modifies `code, `jpc, `here
      ensures st.Done? ==>
        && Ready() && Means(S(), F(), e', c, ts, fs) && e'.t == e.t && e'.f == e.f
        && Extends(old(Committed(S(), e)), Committed(S(), e'), {})
      ensures st.Done? && e.k == VUPVAL ==> e'.k == VRELOCABLE
      ensures e.k != VUPVAL ==> st.Done? && S() == old(S()) && e' == if e.k == VLOCAL then e.(k := VNONRELOC) else e
      ensures st.Failed? ==> |code| > MAXARG_SBX
    {
      match e.k
      case VLOCAL =>
        ExtendsSelf(S());
        return Done, e.(k := VNONRELOC);
      case VUPVAL =>
        st, e' := LoadUpvalue(e, c, ts, fs);
      case _ =>
        ExtendsSelf(Committed(S(), e));
        return Done, e;
    }

    method SetTarget(e: ExpDesc, reg: Arg8, ghost c: Claim, ghost ts: seq<nat>, ghost fs: seq<nat>)
      returns (e': ExpDesc)
      requires Ready() && Means(S(), F(), e, c, ts, fs) && reg < maxstacksize && (reg >= c.n || reg == c.x)
      requires e.k == VRELOCABLE
      modifies `code
      ensures Ready() && Means(S(), F(), e', c, ts, fs)
      ensures Extends(old(Committed(S(), e)), S(), {})
      ensures e' == e.(k := VNONRELOC, info := reg)
    {
      ghost var s := S();
      code := code[e.info := code[e.info].(a := reg)];
      e' := e.(k := VNONRELOC, info := reg);
      RelocateTo(s, S(), F(), e, e', ts, fs, reg);
      RelocateSem(s, S(), F(), e, c, ts, fs, reg);
    }

    method MoveTo(e: ExpDesc, reg: Arg8, ghost c: Claim, ghost ts: seq<nat>, ghost fs: seq<nat>)
      returns (st: Status, e': ExpDesc)
      requires Ready() && Means(S(), F(), e, c, ts, fs) && reg < maxstacksize && (reg >= c.n || reg == c.x)
      requires e.k == VNONRELOC
      modifies `code, `jpc, `here
      ensures st.Done? ==> Ready() && Means(S(), F(), e', c, ts, fs)
      ensures st.Done? ==> Extends(old(S()), S(), {})
      ensures e' == e.(info := reg)
      ensures st.Failed? ==> |code| > MAXARG_SBX
    {
      ghost var s := S();
      var pc;
      st, pc := Code(ABC(OP_MOVE, reg, e.info, 0));
      e' := e.(info := reg);
      if st.Done? {
        MovedTo(s, S(), F(), e, e', ts, fs, reg);
        MoveSem(s, S(), F(), e, c, ts, fs, reg);
      }
    }

    // The switch of discharge2reg; a test stays a test.
    method DischargeInto(e: ExpDesc, reg: Arg8, ghost c: Claim, ghost ts: seq<nat>, ghost fs: seq<nat>)
      returns (st: Status, e': ExpDesc)
      requires Ready() && Means(S(), F(), e, c, ts, fs) && reg < maxstacksize && (reg >= c.n || reg == c.x)
      requires e.k == VRELOCABLE || e.k == VNONRELOC || e.k == VJMP
      modifies `code, `jpc, `here
      ensures st.Done? ==> Ready() && Means(S(), F(), e', c, ts, fs)
      ensures st.Done? ==> Extends(old(Committed(S(), e)), Committed(S(), e'), {})
      ensures st.Done? ==> e' == if e.k == VJMP then e else e.(k := VNONRELOC, info := reg)
      ensures st.Done? && e.k == VJMP ==> S() == old(S())
      ensures st.Failed? ==> |code| > MAXARG_SBX
    {
      if e.k == VRELOCABLE {
        e' := SetTarget(e, reg, c, ts, fs);
        return Done, e';
      } else if e.k == VNONRELOC && reg != e.info {
        st, e' := MoveTo(e, reg, c, ts, fs);
      } else {
        ExtendsSelf(Committed(S(), e));
        return Done, e;
      }
    }

    method Discharge2Reg(e: ExpDesc, reg: Arg8, ghost c: Claim, ghost ts: seq<nat>, ghost fs: seq<nat>)
      returns (st: Status, e': ExpDesc)
      requires Ready() && Means(S(), F(), e, c, ts, fs) && reg < maxstacksize && (reg >= c.n || reg == c.x)
      modifies `code, `jpc, `here
      ensures st.Done? ==> Ready() && Means(S(), F(), e', c, ts, fs)
      ensures st.Done? ==> Extends(old(Committed(S(), e)), Committed(S(), e'), {})
      ensures st.Done? ==> e' == if e.k == VJMP then e else e.(k := VNONRELOC, info := reg)
      ensures st.Done? && e.k == VJMP ==> S() == old(S())
      ensures st.Failed? ==> |code| > MAXARG_SBX
    {
      e' := e;
      CommittedLists(S(), F(), e, ts, fs);
      ghost var s0 := Committed(S(), e);
      var e1 :- DischargeVars(e, c, ts, fs);
      ghost var s1 := Committed(S(), e1);
      e' :- DischargeInto(e1, reg, c, ts, fs);
      ExtendsTrans(s0, s1, Committed(S(), e'), {}, {});
      return Done, e';
    }

    method Discharge2AnyReg(e: ExpDesc, ghost c: Claim, ghost ts: seq<nat>, ghost fs: seq<nat>)
      returns (st: Status, e': ExpDesc)
      requires Ready() && Means(S(), F(), e, c, ts, fs) && RegsOk(e, c.n) && e.k != VJMP
      modifies `code, `jpc, `here, `freereg, `maxstacksize
      ensures st.Done? ==> Ready() && Means(S(), F(), e', c, ts, fs) && RegsOk(e', c.n)
      ensures st.Done? ==> Extends(old(Committed(S(), e)), S(), {})
      ensures st.Done? ==> e'.k == VNONRELOC && e'.t == e.t && e'.f == e.f && maxstacksize >= old(maxstacksize)
      ensures st.Failed? ==> |code| > MAXARG_SBX || c.n + 1 >= MAXSTACK
    {
      e' := e;
      if e.k != VNONRELOC {
        :- ReserveRegs(1);
        MeansGrows(S(), old(F()), F(), e, c, ts, fs);
        e' :- Discharge2Reg(e, freereg - 1, c, ts, fs);
      } else {
        ExtendsSelf(S());
      }
      return Done, e';
    }

    // ---- exp2reg ----

    method InvertJump(e: ExpDesc)
      requires 1 <= e.info < |code| && IsComparison(code[e.info - 1].op) && code[e.info - 1].a <= 1
      modifies `code
      ensures code == old(code)[e.info - 1 := KeptTest(old(code)[e.info - 1], false)]
    {
      var pc := GetJumpControl(code, e.info);
      code := code[pc := code[pc].(a := if code[pc].a == 0 then 1 else 0)];
    }

    // The jump of a test joins the list of its sense: the t-list as it is, the f-list once inverted.
    method JoinTest(e: ExpDesc, sense: bool, ghost ts: seq<nat>, ghost fs: seq<nat>) returns (st: Status, l: int)
      requires Describes(S(), F(), e, ts, fs) && e.k == VJMP
      modifies `code
      ensures old(code)[e.info - 1].a <= 1
      ensures forall j :: j in ts || j in fs ==> j < |old(Committed(S(), e)).code|
      ensures st.Done? ==> S() == Kept(old(S()), e, sense, if sense then ts else fs)
      ensures st.Done? ==> IsList(code, l, (if sense then ts else fs) + [e.info])
      ensures st.Failed? ==> |code| > MAXARG_SBX
    {
      hide WellMade, Accounted, Lists, IsList;
      ghost var s, js := S(), if sense then ts else fs;
      TestArgument(s, F(), e, ts, fs);
      ListBounds(code, e.t, ts);
      ListBounds(code, e.f, fs);
      if !sense {
        InvertJump(e);
      }
      ghost var c1 := s.code[e.info - 1 := KeptTest(s.code[e.info - 1], sense)];
      assert code == c1;
      ListFrame(s.code, code, e.info, [e.info]);
      ListFrame(s.code, code, if sense then e.t else e.f, js);
      st, l := Concat(if sense then e.t else e.f, e.info, js, [e.info]);
    }

    // code_label
    method CodeLabel(a: Arg8, b: Arg9, jump: Arg9) returns (st: Status, pc: nat)
      requires IsList(code, jpc, here)
      modifies `code, `jpc, `here, `lasttarget
      ensures st.Done? ==> IsEmit(old(S()), S(), [ABC(OP_LOADBOOL, a, b, jump)]) && jpc == NO_JUMP && pc == |old(code)|
      ensures st.Failed? ==> |code| == |old(code)| > MAXARG_SBX
    {
      var _ := GetLabel();
      st, pc := Code(ABC(OP_LOADBOOL, a, b, jump));
    }

    // The jump over the labels of exp2reg, unless control can only fall into them.
    method JumpOver(isTest: bool) returns (st: Status, fj: int, ghost over: seq<Instruction>, ghost js: seq<nat>)
      requires IsList(code, jpc, here) && (isTest ==> here == [])
      requires forall h :: h in here ==> h < |code| && h !in open
      requires |code| !in open
      modifies `code, `jpc, `here, `open
      ensures st.Done? ==>
        && |over| == (if isTest then 0 else 1) && (over != [] ==> over[0].op == OP_JMP && over[0].a == 0)
        && code == old(code) + over && here == [] && IsList(code, jpc, here)
        && js == (if isTest then [] else [|old(code)|]) + old(here) && IsList(code, fj, js)
        && open == old(open) + Elems(js)
      ensures st.Failed? ==> |code| > MAXARG_SBX
    {
      fj, over, js := NO_JUMP, [], [];
      if !isTest {
        st, fj := Jump();
        if st.Failed? {
          return;
        }
        js := [|old(code)|] + old(here);
        over := [code[|old(code)|]];
        assert code == old(code) + over;
      }
      return Done, fj, over, js;
    }

    method TwoLabels(reg: Arg8, fj: int, ghost js: seq<nat>) returns (st: Status, pf: nat, pt: nat)
      requires IsList(code, jpc, here) && here == [] && IsList(code, fj, js)
      modifies `code, `jpc, `here, `lasttarget
      ensures st.Done? ==> code == old(code) + Labels(reg) && pf == |code| - 2 && pt == |code| - 1
      ensures st.Done? ==> here == [] && jpc == NO_JUMP && IsList(code, fj, js)
      ensures st.Failed? ==> |code| > MAXARG_SBX
    {
      pf, pt := 0, 0;
      pf :- CodeLabel(reg, 0, 1);
      assert code == old(code) + [ABC(OP_LOADBOOL, reg, 0, 1)];
      pt :- CodeLabel(reg, 1, 0);
      assert code == old(code) + Labels(reg);
      AppendKeepsList(old(code), Labels(reg), fj, js);
      return Done, pf, pt;
    }

    // The labels of exp2reg.
    method LoadLabels(reg: Arg8, isTest: bool) returns (st: Status, pf: nat, pt: nat, ghost over: seq<Instruction>)
      requires IsList(code, jpc, here) && (isTest ==> here == [])
      requires forall h :: h in here ==> h < |code| && h !in open
      requires |code| !in open
      modifies `code, `jpc, `here, `open, `lasttarget
      ensures st.Done? ==>
        && (over == []) == isTest && IsLabelled(old(S()), S(), reg, over)
        && pf == |code| - 2 && pt == |code| - 1 && IsList(code, jpc, here)
      ensures st.Failed? ==> |code| > MAXARG_SBX
    {
      pf, pt, over := 0, 0, [];
      ghost var js;
      var fj;
      st, fj, over, js := JumpOver(isTest);
      if st.Failed? {
        return;
      }
      ListBounds(old(code), old(jpc), old(here));
      pf, pt :- TwoLabels(reg, fj, js);
      st := PatchToHere(fj, js);
      if st.Done? {
        assert forall j :: j in js ==> j !in old(open);
        assert open == old(open);
      }
    }

    // Both lists are sent to the current position, or to the labels.
    method ResolveLists(t: int, f: int, reg: Arg8, pf: int, pt: int, ghost ts: seq<nat>, ghost fs: seq<nat>)
      returns (st: Status)
      requires IsList(code, t, ts) && IsList(code, f, fs) && IsList(code, jpc, here)
      requires -1 <= pf <= |code| && -1 <= pt <= |code|
      requires pf == NO_JUMP || pt == NO_JUMP ==> forall j :: j in ts || j in fs ==> HasValue(code, j)
      requires forall j :: j in ts ==> j !in fs
      requires forall h :: h in here ==> h !in ts && h !in fs
      modifies `code, `open, `lasttarget
      ensures st.Done? ==> S() == Resolve(old(S()), ts, fs, reg, pf, pt) && IsList(code, jpc, here)
      ensures st.Done? ==> Lands(old(code), ts, pt) && Lands(old(code), fs, pf)
      ensures st.Failed? ==> |code| > MAXARG_SBX
    {
      ghost var c0 := code;
      ListBounds(code, t, ts);
      ListBounds(code, f, fs);
      var final := GetLabel();
      :- PatchListAux(f, final, reg, pf, fs);
      assert Lands(c0, fs, pf) by {
        forall j | j in fs
          ensures var target := if HasValue(c0, j) then |c0| else pf;
                  0 <= target <= |c0| && -MAXARG_SBX <= target - (j + 1) <= MAXARG_SBX
        {
          assert j in [j];
        }
      }
      PatchKeepsList(c0, fs, final, reg, pf, t, ts);
      PatchKeepsList(c0, fs, final, reg, pf, jpc, here);
      ghost var c1 := code;
      forall j | j in ts
        ensures HasValue(c1, j) == HasValue(c0, j)
      {
        if 1 <= j {
          assert c1[j - 1] == PatchSlot(c0, fs, j - 1, final, reg, pf);
        }
      }
      :- PatchListAux(t, final, reg, pt, ts);
      assert Lands(c0, ts, pt) by {
        forall j | j in ts
          ensures var target := if HasValue(c0, j) then |c0| else pt;
                  0 <= target <= |c0| && -MAXARG_SBX <= target - (j + 1) <= MAXARG_SBX
        {
          assert j in [j];
        }
      }
      PatchKeepsList(c1, ts, final, reg, pt, jpc, here);
      open := open - Elems(ts) - Elems(fs);
      return Done;
    }

    // The lists of exp2reg when some jump needs a value: labels, then both lists to their ends.
    method LabelLists(t: int, f: int, reg: Arg8, isTest: bool, ghost ts: seq<nat>, ghost fs: seq<nat>)
      returns (st: Status, ghost m: Snap, ghost over: seq<Instruction>)
      requires IsList(code, t, ts) && IsList(code, f, fs) && IsList(code, jpc, here) && JumpsOk(S())
      requires Lists(S(), ts, fs) && (isTest ==> here == [])
      modifies `code, `jpc, `here, `open, `lasttarget
      ensures st.Done? ==>
        && (over == []) == isTest && IsLabelled(old(S()), m, reg, over)
        && S() == Resolve(m, ts, fs, reg, |m.code| - 2, |m.code| - 1) && IsList(code, jpc, here)
        && Lands(m.code, ts, |m.code| - 1) && Lands(m.code, fs, |m.code| - 2)
      ensures st.Failed? ==> |code| > MAXARG_SBX
    {
      hide Resolve;
      ghost var s := S();
      m := s;
      var pf, pt;
      st, pf, pt, over := LoadLabels(reg, isTest);
      if st.Failed? {
        return;
      }
      m := S();
      LabelledLists(s, m, t, f, reg, over, ts, fs);
      st := ResolveLists(t, f, reg, pf, pt, ts, fs);
    }

    method PatchToLabels(t: int, f: int, reg: Arg8, isTest: bool, ghost c: Claim, ghost ts: seq<nat>,
                         ghost fs: seq<nat>)
      returns (st: Status)
      requires Ready() && Split(S(), F(), t, f, c, if isTest then Exactly(false) else InReg(reg), ts, fs)
      requires reg < maxstacksize && (reg >= c.n || reg == c.x) && (isTest ==> here == [])
      modifies `code, `jpc, `here, `open, `lasttarget
      ensures st.Done? ==> Ready() && Means(S(), F(), InRegister(reg), c, [], [])
      ensures st.Done? ==> Extends(old(S()), S(), Elems(ts) + Elems(fs))
      ensures st.Failed? ==> |code| > MAXARG_SBX
    {
      ghost var s, src := S(), if isTest then Exactly(false) else InReg(reg);
      ghost var m, over;
      st, m, over := LabelLists(t, f, reg, isTest, ts, fs);
      if st.Done? {
        ResolveLabels(s, m, S(), F(), t, f, c, src, reg, over, ts, fs);
      }
    }

    // exp2reg, once the value is in reg and the jump of a test has joined the t-list
    method PatchLists(t: int, f: int, reg: Arg8, isTest: bool, ghost c: Claim, ghost ts: seq<nat>, ghost fs: seq<nat>)
      returns (st: Status)
      requires Ready() && Split(S(), F(), t, f, c, if isTest then Exactly(false) else InReg(reg), ts, fs)
      requires reg < maxstacksize && (reg >= c.n || reg == c.x) && (isTest ==> here == [])
      requires isTest ==> exists j :: j in ts && !HasValue(code, j)
      modifies `code, `jpc, `here, `open, `lasttarget
      ensures st.Done? ==> Ready() && Means(S(), F(), InRegister(reg), c, [], [])
      ensures st.Done? ==> Extends(old(S()), S(), Elems(ts) + Elems(fs))
      ensures st.Failed? ==> |code| > MAXARG_SBX
    {
      ghost var s := S();
      var need := NeedValue(t, ts);
      if !need {
        need := NeedValue(f, fs);
      }
      if need {
        st := PatchToLabels(t, f, reg, isTest, c, ts, fs);
      } else {
        st := ResolveLists(t, f, reg, NO_JUMP, NO_JUMP, ts, fs);
        if st.Done? {
          ResolveValues(s, S(), F(), t, f, c, reg, ts, fs);
        }
      }
    }

    // exp2reg on a test
    method TestToReg(e: ExpDesc, reg: Arg8, ghost c: Claim, ghost ts: seq<nat>, ghost fs: seq<nat>) returns (st: Status)
      requires Ready() && Means(S(), F(), e, c, ts, fs) && e.k == VJMP
      requires reg < maxstacksize && (reg >= c.n || reg == c.x)
      modifies `code, `jpc, `here, `open, `lasttarget
      ensures st.Done? ==> Ready() && Means(S(), F(), InRegister(reg), c, [], [])
      ensures st.Done? ==> Extends(old(Committed(S(), e)), S(), Elems(ts) + Elems(fs))
      ensures st.Failed? ==> |code| > MAXARG_SBX
    {
      hide Extends, WellMade, Sem, Split;
      ghost var s, s0, own, ts' := S(), Committed(S(), e), Elems(ts) + Elems(fs), ts + [e.info];
      CommittedLists(s, F(), e, ts, fs);
      var l;
      st, l := JoinTest(e, true, ts, fs);
      if st.Failed? {
        return;
      }
      KeptSplit(s, F(), e, true, l, c, ts, fs, ts);
      ghost var s1 := S();
      assert e.info in ts' && !HasValue(code, e.info) by {
        assert ts'[|ts|] == e.info;
        KeptControl(s, F(), e, ts, fs);
      }
      st := PatchLists(l, e.f, reg, true, c, ts', fs);
      if st.Done? {
        ElemsAppend(ts, [e.info]);
        ExtendsWiden(s0, s1, Elems(ts), own);
        ExtendsTrans(s0, s1, S(), own, Elems(ts') + Elems(fs));
      }
    }

    method Exp2Reg(e: ExpDesc, reg: Arg8, ghost c: Claim, ghost ts: seq<nat>, ghost fs: seq<nat>)
      returns (st: Status, e': ExpDesc)
      requires Ready() && Means(S(), F(), e, c, ts, fs) && reg < maxstacksize && (reg >= c.n || reg == c.x)
      modifies `code, `jpc, `here, `open, `lasttarget
      ensures st.Done? ==> Ready() && Means(S(), F(), e', c, [], []) && e' == InRegister(reg)
      ensures st.Done? ==> Extends(old(Committed(S(), e)), S(), Elems(ts) + Elems(fs))
      ensures st.Failed? ==> |code| > MAXARG_SBX
    {
      hide Extends, Sem, WellMade;
      e' := InRegister(reg);
      CommittedLists(S(), F(), e, ts, fs);
      ghost var s0, own := Committed(S(), e), Elems(ts) + Elems(fs);
      var e1 :- Discharge2Reg(e, reg, c, ts, fs);
      ghost var s1 := Committed(S(), e1);
      if e1.k == VJMP {
        st := TestToReg(e1, reg, c, ts, fs);
      } else if HasJumps(e1) {
        st := PatchLists(e1.t, e1.f, reg, false, c, ts, fs);
        if st.Done? {
          ExtendsWiden(s0, s1, {}, own);
          ExtendsTrans(s0, s1, S(), own, own);
        }
      } else {
        SameHead(code, e1.t, ts, fs);
        ExtendsWiden(s0, s1, {}, own);
        return Done, e1;
      }
    }

    // luaK_exp2nextreg, after luaK_dischargevars
    method IntoNextReg(e: ExpDesc, ghost c: Claim, ghost ts: seq<nat>, ghost fs: seq<nat>)
      returns (st: Status, e': ExpDesc)
      requires Ready() && Means(S(), F(), e, c, ts, fs) && RegsOk(e, c.n)
      modifies `code, `jpc, `lasttarget, `freereg, `maxstacksize, `here, `open
      ensures st.Done? ==>
        && Ready() && Means(S(), F(), e', c, [], []) && RegsOk(e', c.n) && e' == InRegister(c.n)
        && Extends(old(Committed(S(), e)), S(), Elems(ts) + Elems(fs))
      ensures st.Failed? ==> |code| > MAXARG_SBX || c.n + 1 >= MAXSTACK
    {
      e' := e;
      FreeExp(e);
      :- ReserveRegs(1);
      MeansGrows(S(), F().(max := old(maxstacksize)), F(), e, c, ts, fs);
      st, e' := Exp2Reg(e, freereg - 1, c, ts, fs);
    }

    method Exp2NextReg(e: ExpDesc, ghost c: Claim, ghost ts: seq<nat>, ghost fs: seq<nat>)
      returns (st: Status, e': ExpDesc)
      requires Ready() && Means(S(), F(), e, c, ts, fs) && RegsOk(e, c.n)
      modifies `code, `jpc, `lasttarget, `freereg, `maxstacksize, `here, `open
      ensures st.Done? ==>
        && Ready() && Means(S(), F(), e', c, [], []) && RegsOk(e', c.n) && e' == InRegister(c.n)
        && Extends(old(Committed(S(), e)), S(), Elems(ts) + Elems(fs))
      ensures st.Failed? ==> |code| > MAXARG_SBX || c.n + 1 >= MAXSTACK
    {
      e' := e;
      CommittedLists(S(), F(), e, ts, fs);
      ghost var s0, own := Committed(S(), e), Elems(ts) + Elems(fs);
      var e1 :- DischargeVars(e, c, ts, fs);
      ghost var s1 := Committed(S(), e1);
      e' :- IntoNextReg(e1, c, ts, fs);
      ExtendsWiden(s0, s1, {}, own);
      ExtendsTrans(s0, s1, S(), own, own);
      return Done, e';
    }

    // luaK_exp2anyreg, after luaK_dischargevars
    method IntoAnyReg(e: ExpDesc, ghost c: Claim, ghost ts: seq<nat>, ghost fs: seq<nat>)
      returns (st: Status, e': ExpDesc)
      requires Ready() && Means(S(), F(), e, c, ts, fs) && RegsOk(e, c.n)
      modifies `code, `jpc, `lasttarget, `freereg, `maxstacksize, `here, `open
      ensures st.Done? ==>
        && Ready() && Means(S(), F(), e', c, [], []) && RegsOk(e', c.n) && e'.k == VNONRELOC
        && Extends(old(Committed(S(), e)), S(), Elems(ts) + Elems(fs))
      ensures st.Failed? ==> |code| > MAXARG_SBX || c.n + 1 >= MAXSTACK
    {
      if e.k == VNONRELOC && !HasJumps(e) {
        SameHead(code, e.t, ts, fs);
        ExtendsSelf(S());
        ExtendsWiden(S(), S(), {}, Elems(ts) + Elems(fs));
        return Done, e;
      } else if e.k == VNONRELOC && e.info >= nactvar {
        st, e' := Exp2Reg(e, e.info, c, ts, fs);
      } else {
        st, e' := Exp2NextReg(e, c, ts, fs);
      }
    }

    method Exp2AnyReg(e: ExpDesc, ghost c: Claim, ghost ts: seq<nat>, ghost fs: seq<nat>)
      returns (st: Status, e': ExpDesc)
      requires Ready() && Means(S(), F(), e, c, ts, fs) && RegsOk(e, c.n)
      modifies `code, `jpc, `lasttarget, `freereg, `maxstacksize, `here, `open
      ensures st.Done? ==>
        && Ready() && Means(S(), F(), e', c, [], []) && RegsOk(e', c.n) && e'.k == VNONRELOC
        && Extends(old(Committed(S(), e)), S(), Elems(ts) + Elems(fs))
      ensures st.Failed? ==> |code| > MAXARG_SBX || c.n + 1 >= MAXSTACK
    {
      e' := e;
      CommittedLists(S(), F(), e, ts, fs);
      ghost var s0, own := Committed(S(), e), Elems(ts) + Elems(fs);
      var e1 :- DischargeVars(e, c, ts, fs);
      ghost var s1 := Committed(S(), e1);
      st, e' := IntoAnyReg(e1, c, ts, fs);
      if st.Done? {
        ExtendsWiden(s0, s1, {}, own);
        ExtendsTrans(s0, s1, S(), own, own);
      }
    }

    method Exp2Val(e: ExpDesc, ghost c: Claim, ghost ts: seq<nat>, ghost fs: seq<nat>) returns (st: Status, e': ExpDesc)
      requires Ready() && Means(S(), F(), e, c, ts, fs) && RegsOk(e, c.n)
      modifies `code, `jpc, `lasttarget, `freereg, `maxstacksize, `here, `open
      ensures st.Done? ==>
        && Ready() && Means(S(), F(), e', c, [], []) && RegsOk(e', c.n)
        && Extends(old(Committed(S(), e)), Committed(S(), e'), Elems(ts) + Elems(fs))
      ensures st.Failed? ==> |code| > MAXARG_SBX || c.n + 1 >= MAXSTACK
    {
      if HasJumps(e) {
        st, e' := Exp2AnyReg(e, c, ts, fs);
      } else {
        SameHead(code, e.t, ts, fs);
        st, e' := DischargeVars(e, c, ts, fs);
      }
    }

    // luaK_exp2RK: there are no constants, so the value ends up in a register.
    method Exp2RK(e: ExpDesc, ghost c: Claim, ghost ts: seq<nat>, ghost fs: seq<nat>) returns (st: Status, e': ExpDesc)
      requires Ready() && Means(S(), F(), e, c, ts, fs) && RegsOk(e, c.n)
      modifies `code, `jpc, `lasttarget, `freereg, `maxstacksize, `here, `open
      ensures st.Done? ==>
        && Ready() && Means(S(), F(), e', c, [], []) && RegsOk(e', c.n) && e'.k == VNONRELOC
        && Extends(old(Committed(S(), e)), S(), Elems(ts) + Elems(fs))
      ensures st.Failed? ==> |code| > MAXARG_SBX || c.n + 1 >= MAXSTACK
    {
      hide RegsOk, WellMade, IsList;
      e' := e;
      CommittedLists(S(), F(), e, ts, fs);
      ghost var s0 := Committed(S(), e);
      var e1 :- Exp2Val(e, c, ts, fs);
      ghost var s1 := Committed(S(), e1);
      e' :- Exp2AnyReg(e1, c, [], []);
      ExtendsTrans(s0, s1, S(), Elems(ts) + Elems(fs), {});
      return Done, e';
    }

    // ---- jumps on a condition ----

    // jumponcond on a pending NOT: the NOT is taken back (fs->pc--) and its operand tested.
    method JumpOnNot(e: ExpDesc, cond: bool, ghost c: Claim, ghost ts: seq<nat>, ghost fs: seq<nat>)
      returns (st: Status, j: nat)
      requires Ready() && Means(S(), F(), e, c, ts, fs) && e.k == VRELOCABLE && code[e.info].op == OP_NOT
      modifies `code, `jpc, `here, `open
      ensures st.Done? ==>
        && Ready() && TestAdded(S(), F(), e, cond, j, c, ts, fs)
        && Extends(old(Committed(S(), e)), S(), {}) && j >= |old(Committed(S(), e)).code|
      ensures st.Failed? ==> |code| > MAXARG_SBX
    {
      hide TestAdded, Extends, Sem, SlotOk;
      ghost var s := S();
      var ie := code[e.info];
      NotOperand(s, F(), e, ts, fs);
      hide Means;
      code := code[..|code| - 1];
      st, j := CondJump(OP_TEST, ie.b, 0, if cond then 0 else 1);
      if st.Done? {
        NotJump(s, S(), F(), e, cond, c, ts, fs);
      }
    }

    method JumpOnReg(e: ExpDesc, cond: bool, ghost c: Claim, ghost ts: seq<nat>, ghost fs: seq<nat>)
      returns (st: Status, j: nat)
      requires Ready() && Means(S(), F(), e, c, ts, fs) && e.k == VNONRELOC && RegsOk(e, c.n)
      modifies `code, `jpc, `here, `open, `freereg
      ensures st.Done? ==>
        && Ready() && TestAdded(S(), F(), e, cond, j, c, ts, fs) && freereg == c.n
        && Extends(old(S()), S(), {}) && j >= |old(code)|
      ensures st.Failed? ==> |code| > MAXARG_SBX
    {
      hide TestAdded, Extends, Sem, WellMade;
      FreeExp(e);
      st, j := CondJump(OP_TESTSET, NO_REG, e.info, if cond then 1 else 0);
      if st.Done? {
        TestSetJump(old(S()), S(), F(), e, cond, c, ts, fs);
      }
    }

    method JumpOnCond(e: ExpDesc, cond: bool, ghost c: Claim, ghost ts: seq<nat>, ghost fs: seq<nat>)
      returns (st: Status, j: nat)
      requires Ready() && Means(S(), F(), e, c, ts, fs) && RegsOk(e, c.n) && (e.k == VRELOCABLE || e.k == VNONRELOC)
      modifies `code, `jpc, `lasttarget, `freereg, `maxstacksize, `here, `open
      ensures st.Done? ==>
        && Ready() && TestAdded(S(), F(), e, cond, j, c, ts, fs) && freereg == c.n
        && Extends(old(Committed(S(), e)), S(), {}) && j >= |old(Committed(S(), e)).code|
      ensures st.Failed? ==> |code| > MAXARG_SBX || c.n + 1 >= MAXSTACK
    {
      j := 0;
      if e.k == VRELOCABLE && code[e.info].op == OP_NOT {
        st, j := JumpOnNot(e, cond, c, ts, fs);
      } else {
        CommittedLists(S(), F(), e, ts, fs);
        ghost var s0 := Committed(S(), e);
        var e1 :- Discharge2AnyReg(e, c, ts, fs);
        ghost var s1 := S();
        st, j := JumpOnReg(e1, cond, c, ts, fs);
        if st.Done? {
          ExtendsTrans(s0, s1, S(), {}, {});
        }
      }
    }

    // The jump of an added test joins its list.
    method JoinAdded(e: ExpDesc, cond: bool, j: nat, ghost c: Claim, ghost ts: seq<nat>, ghost fs: seq<nat>)
      returns (st: Status, l: int)
      requires Ready() && TestAdded(S(), F(), e, cond, j, c, ts, fs)
      modifies `code
      ensures st.Done? ==>
        && Ready()
        && Split(S(), F(), if cond then l else e.t, if cond then e.f else l, c, Known(!cond),
                 Joined(ts, j, cond), Joined(fs, j, !cond))
        && Extends(old(S()), S(), Elems(ts) + Elems(fs))
      ensures st.Failed? ==> |code| > MAXARG_SBX
    {
      ghost var s, js := S(), if cond then ts else fs;
      ListBounds(code, e.t, ts);
      ListBounds(code, e.f, fs);
      assert forall k :: k in js ==> k in (if cond then Joined(ts, j, cond) else Joined(fs, j, !cond));
      st, l := Concat(if cond then e.t else e.f, j, js, [j]);
      if st.Done? {
        LinkKeepsList(s.code, js, j, jpc, here);
        JoinSplit(s, S(), F(), e, cond, j, l, c, ts, fs);
      }
    }

    // invertjump, and luaK_concat on the test's own jump
    method JoinOwnTest(e: ExpDesc, cond: bool, ghost c: Claim, ghost ts: seq<nat>, ghost fs: seq<nat>)
      returns (st: Status, l: int)
      requires Ready() && Means(S(), F(), e, c, ts, fs) && e.k == VJMP
      modifies `code
      ensures st.Done? ==>
        && Ready()
        && Split(S(), F(), if cond then l else e.t, if cond then e.f else l, c, Known(!cond),
                 Joined(ts, e.info, cond), Joined(fs, e.info, !cond))
        && Extends(old(Committed(S(), e)), S(), Elems(ts) + Elems(fs))
      ensures st.Failed? ==> |code| > MAXARG_SBX
    {
      ghost var s, js := S(), if cond then ts else fs;
      st, l := JoinTest(e, cond, ts, fs);
      if st.Done? {
        KeptKnown(s, F(), e, cond, l, c, ts, fs, js);
        KeptExtendsBoth(s, F(), e, cond, ts, fs, js);
        assert here == [];
      }
    }

    // The switch of luaK_goiftrue (cond false) and luaK_goiffalse (cond true), and luaK_concat after it:
    // j, the jump taken when the value is cond, has joined the list of that sense.
    method JumpIf(e: ExpDesc, cond: bool, ghost c: Claim, ghost ts: seq<nat>, ghost fs: seq<nat>)
      returns (st: Status, l: int, ghost j: nat)
      requires Ready() && Means(S(), F(), e, c, ts, fs) && RegsOk(e, c.n) && e.k != VLOCAL && e.k != VUPVAL
      modifies `code, `jpc, `lasttarget, `freereg, `maxstacksize, `here, `open
      ensures st.Done? ==>
        && Ready() && freereg == c.n && j >= |old(Committed(S(), e)).code|
        && Split(S(), F(), if cond then l else e.t, if cond then e.f else l, c, Known(!cond),
                 Joined(ts, j, cond), Joined(fs, j, !cond))
        && Extends(old(Committed(S(), e)), S(), Elems(ts) + Elems(fs))
      ensures st.Failed? ==> |code| > MAXARG_SBX || c.n + 1 >= MAXSTACK
    {
      l, j := NO_JUMP, 0;
      if e.k == VJMP {
        j := e.info;
        st, l := JoinOwnTest(e, cond, c, ts, fs);
      } else {
        CommittedLists(S(), F(), e, ts, fs);
        ghost var s0, own := Committed(S(), e), Elems(ts) + Elems(fs);
        var pc;
        st, pc := JumpOnCond(e, cond, c, ts, fs);
        if st.Failed? {
          return;
        }
        j := pc;
        ghost var s1 := S();
        st, l := JoinAdded(e, cond, pc, c, ts, fs);
        if st.Done? {
          ExtendsWiden(s0, s1, {}, own);
          ExtendsTrans(s0, s1, S(), own, own);
        }
      }
    }

    // luaK_patchtohere on the list whose value lets control go on
    method GoOn(t: int, f: int, sense: bool, ghost c: Claim, ghost ts: seq<nat>, ghost fs: seq<nat>)
      returns (st: Status)
      requires Ready() && Split(S(), F(), t, f, c, Known(sense), ts, fs)
      modifies `code, `jpc, `lasttarget, `here, `open
      ensures st.Done? ==> Ready() && FirstDone(S(), F(), sense, if sense then f else t, c, if sense then fs else ts)
      ensures st.Done? ==> Extends(old(S()), S(), Elems(if sense then ts else fs))
      ensures st.Failed? ==> |code| > MAXARG_SBX
    {
      ghost var s := S();
      st := PatchToHere(if sense then t else f, if sense then ts else fs);
      if st.Done? {
        HereSplit(s, S(), F(), t, f, sense, c, ts, fs);
        HereSplitExtends(s, S(), F(), if sense then ts else fs, if sense then t else f);
      }
    }

    // luaK_goiftrue: fs' is what the f-list becomes.
    method GoIfTrue(e: ExpDesc, ghost c: Claim, ghost ts: seq<nat>, ghost fs: seq<nat>)
      returns (st: Status, e': ExpDesc, ghost fs': seq<nat>)
      requires Ready() && Means(S(), F(), e, c, ts, fs) && RegsOk(e, c.n)
      modifies `code, `jpc, `lasttarget, `freereg, `maxstacksize, `here, `open
      ensures st.Done? ==>
        && Ready() && freereg == c.n && e'.t == NO_JUMP && FirstDone(S(), F(), true, e'.f, c, fs')
        && (forall k :: k in fs' ==> k in fs || k >= |old(Committed(S(), e)).code|)
        && Extends(old(Committed(S(), e)), S(), Elems(ts) + Elems(fs))
      ensures st.Failed? ==> |code| > MAXARG_SBX || c.n + 1 >= MAXSTACK
    {
      hide Extends, WellMade, Sem, IsList, FirstDone;
      e', fs' := e, fs;
      CommittedLists(S(), F(), e, ts, fs);
      ghost var s0, own := Committed(S(), e), Elems(ts) + Elems(fs);
      var e1 :- DischargeVars(e, c, ts, fs);
      ghost var s1 := Committed(S(), e1);
      var l;
      ghost var j;
      st, l, j := JumpIf(e1, false, c, ts, fs);
      if st.Failed? {
        return;
      }
      ghost var s2 := S();
      fs' := fs + [j];
      st := GoOn(e1.t, l, true, c, ts, fs');
      e' := e1.(t := NO_JUMP, f := l);
      if st.Done? {
        Went(s0, s1, s2, S(), ts, fs, ts, j);
      }
    }

    // luaK_goiffalse: ts' is what the t-list becomes.
    method GoIfFalse(e: ExpDesc, ghost c: Claim, ghost ts: seq<nat>, ghost fs: seq<nat>)
      returns (st: Status, e': ExpDesc, ghost ts': seq<nat>)
      requires Ready() && Means(S(), F(), e, c, ts, fs) && RegsOk(e, c.n)
      modifies `code, `jpc, `lasttarget, `freereg, `maxstacksize, `here, `open
      ensures st.Done? ==>
        && Ready() && freereg == c.n && e'.f == NO_JUMP && FirstDone(S(), F(), false, e'.t, c, ts')
        && (forall k :: k in ts' ==> k in ts || k >= |old(Committed(S(), e)).code|)
        && Extends(old(Committed(S(), e)), S(), Elems(ts) + Elems(fs))
      ensures st.Failed? ==> |code| > MAXARG_SBX || c.n + 1 >= MAXSTACK
    {
      hide Extends, WellMade, Sem, IsList, FirstDone;
      e', ts' := e, ts;
      CommittedLists(S(), F(), e, ts, fs);
      ghost var s0, own := Committed(S(), e), Elems(ts) + Elems(fs);
      var e1 :- DischargeVars(e, c, ts, fs);
      ghost var s1 := Committed(S(), e1);
      var l;
      ghost var j;
      st, l, j := JumpIf(e1, true, c, ts, fs);
      if st.Failed? {
        return;
      }
      ghost var s2 := S();
      ts' := ts + [j];
      st := GoOn(l, e1.f, false, c, ts', fs);
      e' := e1.(t := l, f := NO_JUMP);
      if st.Done? {
        Went(s0, s1, s2, S(), ts, fs, fs, j);
      }
    }

    // ---- not ----

    // The lists change places and stop carrying values.
    method SwapLists(e: ExpDesc, ghost c: Claim, ghost src: Source, ghost ts: seq<nat>, ghost fs: seq<nat>)
      returns (e': ExpDesc)
      requires Ready() && Negating(S(), F(), e, c, src, ts, fs)
      modifies `code
      ensures Ready() && Means(S(), F(), e', c.(a := Not(c.a)), fs, ts) && e' == Swapped(e)
      ensures Extends(old(Committed(S(), e)), Committed(S(), e'), Elems(ts) + Elems(fs))
    {
      hide Committed, Means;
      ghost var s := S();
      e' := e.(t := e.f, f := e.t);
      RemoveValues(e'.f, ts);
      DropKeepsList(s.code, ts, e.f, fs);
      RemoveValues(e'.t, fs);
      DropTwice(s.code, ts, fs);
      assert here == [];
      Negated(s, F(), e, c, src, ts, fs);
    }

    method NotValue(e: ExpDesc, ghost c: Claim, ghost ts: seq<nat>, ghost fs: seq<nat>)
      returns (st: Status, e': ExpDesc)
      requires Ready() && Means(S(), F(), e, c, ts, fs) && e.k == VNONRELOC && RegsOk(e, c.n)
      modifies `code, `jpc, `here, `freereg
      ensures st.Done? ==>
        && Ready() && Negating(S(), F(), e', c, InReg(e.info), ts, fs) && RegsOk(e', c.n)
        && Extends(old(S()), Committed(S(), e'), {})
      ensures st.Failed? ==> |code| > MAXARG_SBX
    {
      hide Extends, Negating, WellMade, Sem;
      FreeExp(e);
      var pc;
      st, pc := Code(ABC(OP_NOT, 0, e.info, 0));
      e' := e.(k := VRELOCABLE, info := pc);
      if st.Done? {
        NotNegates(old(S()), S(), F(), e, e', c, ts, fs);
      }
    }

    // The switch of codenot
    method Negate(e: ExpDesc, ghost c: Claim, ghost ts: seq<nat>, ghost fs: seq<nat>)
      returns (st: Status, e': ExpDesc, ghost src: Source)
      requires Ready() && Means(S(), F(), e, c, ts, fs) && RegsOk(e, c.n) && e.k != VLOCAL && e.k != VUPVAL
      modifies `code, `jpc, `lasttarget, `freereg, `maxstacksize, `here, `open
      ensures st.Done? ==>
        && Ready() && Negating(S(), F(), e', c, src, ts, fs) && RegsOk(e', c.n)
        && Extends(old(Committed(S(), e)), Committed(S(), e'), {})
      ensures st.Failed? ==> |code| > MAXARG_SBX || c.n + 1 >= MAXSTACK
    {
      e', src := e, SourceOf(S(), e);
      ghost var s := S();
      CommittedLists(s, F(), e, ts, fs);
      if e.k == VJMP {
        TestArgument(s, F(), e, ts, fs);
        InvertJump(e);
        InvertedNegates(s, S(), F(), e, c, ts, fs);
        ExtendsSelf(Committed(s, e));
        assert here == [];
        return Done, e, src;
      } else {
        var e1 :- Discharge2AnyReg(e, c, ts, fs);
        ghost var s1 := S();
        src := InReg(e1.info);
        st, e' := NotValue(e1, c, ts, fs);
        if st.Done? {
          ExtendsTrans(Committed(s, e), s1, Committed(S(), e'), {}, {});
        }
      }
    }

    // codenot
    method CodeNot(e: ExpDesc, ghost c: Claim, ghost ts: seq<nat>, ghost fs: seq<nat>) returns (st: Status, e': ExpDesc)
      requires Ready() && Means(S(), F(), e, c, ts, fs) && RegsOk(e, c.n)
      modifies `code, `jpc, `lasttarget, `freereg, `maxstacksize, `here, `open
      ensures st.Done? ==>
        && Ready() && Means(S(), F(), e', c.(a := Not(c.a)), fs, ts) && RegsOk(e', c.n)
        && Extends(old(Committed(S(), e)), Committed(S(), e'), Elems(ts) + Elems(fs))
      ensures st.Failed? ==> |code| > MAXARG_SBX || c.n + 1 >= MAXSTACK
    {
      hide Extends, Sem, WellMade;
      e' := e;
      CommittedLists(S(), F(), e, ts, fs);
      ghost var s0, own := Committed(S(), e), Elems(ts) + Elems(fs);
      var e1 :- DischargeVars(e, c, ts, fs);
      ghost var s1 := Committed(S(), e1);
      ghost var src;
      st, e', src := Negate(e1, c, ts, fs);
      if st.Failed? {
        return;
      }
      ghost var s2 := Committed(S(), e');
      e' := SwapLists(e', c, src, ts, fs);
      ExtendsTrans(s0, s1, s2, {}, {});
      ExtendsWiden(s0, s2, {}, own);
      ExtendsTrans(s0, s2, Committed(S(), e'), own, own);
      return Done, e';
    }

    // ---- binary operators ----

    // luaK_posfix on `and' (sense true) and `or' (sense false); h is the list of the first operand.
    method PosfixLogical(sense: bool, h: int, e: ExpDesc, ghost s1: Snap, ghost f1: Frame, ghost c: Claim,
                         ghost js: seq<nat>,
                         ghost r: Expr, ghost ts: seq<nat>, ghost fs: seq<nat>) returns (st: Status, e': ExpDesc)
      requires Ready() && SecondDone(s1, f1, S(), F(), sense, h, c, js, r, e, ts, fs) && RegsOk(e, c.n)
      modifies `code, `jpc, `here, `outer
      ensures st.Done? ==>
        && Ready() && RegsOk(e', c.n)
        && Means(S(), F(), e', c.(a := Join(sense, c.a, r)), if sense then ts else js + ts, if sense then js + fs
          else fs)
        && Extends(s1, Committed(S(), e'), Elems(js))
      ensures st.Done? ==> outer == f1.outer
      ensures st.Failed? ==> |code| > MAXARG_SBX
    {
      e' := e;
      ghost var d := Committed(S(), e);
      var e1 :- DischargeVars(e, Follow(s1, c, c.n, r), ts, fs);
      WellMadeIsTidy(s1, f1.max, f1.nups);
      ExtendsTrans(s1, d, Committed(S(), e1), {}, {});
      assert SecondDone(s1, f1, S(), F(), sense, h, c, js, r, e1, ts, fs);
      st, e' := ConcatLogical(sense, h, e1, s1, f1, c, js, r, ts, fs);
    }

    method ConcatLogical(sense: bool, h: int, e: ExpDesc, ghost s1: Snap, ghost f1: Frame, ghost c: Claim,
                         ghost js: seq<nat>,
                         ghost r: Expr, ghost ts: seq<nat>, ghost fs: seq<nat>) returns (st: Status, e': ExpDesc)
      requires Ready() && SecondDone(s1, f1, S(), F(), sense, h, c, js, r, e, ts, fs) && RegsOk(e, c.n)
      modifies `code, `outer
      ensures st.Done? ==>
        && Ready() && RegsOk(e', c.n)
        && Means(S(), F(), e', c.(a := Join(sense, c.a, r)), if sense then ts else js + ts, if sense then js + fs
          else fs)
        && Extends(s1, Committed(S(), e'), Elems(js))
      ensures st.Done? ==> outer == f1.outer
      ensures st.Failed? ==> |code| > MAXARG_SBX
    {
      hide Untouched, FirstDone, Extends, Sem;
      ghost var s, f := S(), F();
      FirstList(s1, f1, s, f, sense, h, c, js, r, e, ts, fs);
      var l;
      st, l := ChainLists(h, if sense then e.f else e.t, js, if sense then fs else ts);
      e' := Longer(e, sense, l);
      if st.Done? {
        Sequenced(s1, f1, s, f, sense, h, c, js, r, e, ts, fs, l);
        SequencedExtends(s1, f1, s, f, sense, h, c, js, r, e, ts, fs, l);
        outer := f1.outer;
      }
    }

    // luaK_concat, seen as a change of the state
    method ChainLists(l1: int, l2: int, ghost js: seq<nat>, ghost ks: seq<nat>) returns (st: Status, l: int)
      requires IsList(code, l1, js) && IsList(code, l2, ks) && IsList(code, jpc, here)
      requires forall j :: j in js ==> j < |code| && j !in ks && j !in here
      modifies `code
      ensures st.Done? ==> S() == Chained(old(S()), js, l2) && IsList(code, l, js + ks) && IsList(code, jpc, here)
      ensures st.Failed? ==> |code| > MAXARG_SBX
    {
      st, l := Concat(l1, l2, js, ks);
      if st.Done? {
        LinkKeepsList(old(code), js, l2, jpc, here);
      }
    }

    // codecomp, after luaK_infix has put the first operand in a register: luaK_exp2RK has nothing left
    // to do for it.
    method CodeComp(rel: Relation, e1: ExpDesc, e2: ExpDesc, ghost s1: Snap, ghost f1: Frame, ghost c: Claim,
                    ghost n2: nat,
                    ghost r: Expr, ghost ts: seq<nat>, ghost fs: seq<nat>) returns (st: Status, e': ExpDesc)
      requires Ready() && Means(S(), F(), e2, Follow(s1, c, n2, r), ts, fs) && RegsOk(e2, n2)
      requires Means(s1, f1, e1, c, [], []) && e1.k == VNONRELOC && e1.info != c.x
      requires nactvar <= c.n && nactvar <= c.x && WellScoped(r, nactvar, nups)
      requires if e1.info >= nactvar then e1.info == c.n && n2 == c.n + 1 else n2 == c.n
      requires Extends(s1, Committed(S(), e2), {}) && forall k :: k in ts || k in fs ==> k >= |s1.code|
      modifies `code, `jpc, `lasttarget, `freereg, `maxstacksize, `here, `open
      ensures st.Done? ==>
        && Ready() && RegsOk(e', c.n) && Means(S(), F(), e', c.(a := Rel(rel, c.a, r)), [], [])
        && Extends(s1, Committed(S(), e'), {})
      ensures st.Failed? ==> |code| > MAXARG_SBX || n2 + 1 >= MAXSTACK
    {
      e' := e2;
      ghost var d, own := Committed(S(), e2), Elems(ts) + Elems(fs);
      e' :- Exp2RK(e2, Follow(s1, c, n2, r), ts, fs);
      WellMadeIsTidy(s1, f1.max, f1.nups);
      ExtendsTrans(s1, d, S(), {}, own);
      st, e' := CompareRegs(rel, e1, e', s1, f1, c, n2, r);
    }

    method CompareRegs(rel: Relation, e1: ExpDesc, e2: ExpDesc, ghost s1: Snap, ghost f1: Frame, ghost c: Claim,
                       ghost n2: nat,
                       ghost r: Expr) returns (st: Status, e': ExpDesc)
      requires Ready() && Means(S(), F(), e2, Follow(s1, c, n2, r), [], []) && RegsOk(e2, n2) && e2.k == VNONRELOC
      requires Means(s1, f1, e1, c, [], []) && e1.k == VNONRELOC && e1.info != c.x
      requires nactvar <= c.n && nactvar <= c.x && WellScoped(r, nactvar, nups)
      requires if e1.info >= nactvar then e1.info == c.n && n2 == c.n + 1 else n2 == c.n
      requires Extends(s1, S(), {})
      modifies `code, `jpc, `freereg, `here, `open
      ensures st.Done? ==>
        && Ready() && RegsOk(e', c.n) && Means(S(), F(), e', c.(a := Rel(rel, c.a, r)), [], [])
        && Extends(s1, Committed(S(), e'), {})
      ensures st.Failed? ==> |code| > MAXARG_SBX
    {
      hide Means, Follow, Extends, IsEmit;
      ghost var s2 := S();
      FreeExp(e2);
      FreeExp(e1);
      var pc;
      st, pc := EmitComparison(rel, e1.info, e2.info);
      e' := Loaded(VJMP, pc);
      if st.Done? {
        ComparedAfter(s1, s2, S(), f1, F(), c, n2, rel, r, e1, e2);
      }
    }

    // > and >= become < and <= on exchanged operands.
    method EmitComparison(rel: Relation, r1: Arg8, r2: Arg8) returns (st: Status, j: nat)
      requires IsList(code, jpc, here)
      modifies `code, `jpc, `here, `open
      ensures st.Done? ==>
        && IsEmit(old(S()), S(), [ComparisonOf(rel, r1, r2), MakeJump()]) && jpc == NO_JUMP && here == []
        && j == |old(code)| + 1 && open == old(open) + {j} && IsList(code, j, [j])
      ensures st.Failed? ==> |code| > MAXARG_SBX
    {
      var op, o1, o2 := ComparisonOp(rel), r1, r2;
      var cond := if rel == NotEqual || rel == Greater || rel == GreaterEqual then 0 else 1;
      if cond == 0 && op != OP_EQ {
        o1, o2, cond := o2, o1, 1;
      }
      assert ABC(op, cond, o1, o2) == ComparisonOf(rel, r1, r2);
      st, j := CondJump(op, cond, o1, o2);
    }

    // ---- expressions ----

    // e describes a, compiled from the state s0 on, with n0 registers in use.
    ghost predicate Compiled(e: ExpDesc, s0: Snap, n0: nat, a: Expr, ts: seq<nat>, fs: seq<nat>)
      reads this
    {
      && Ready() && Means(S(), F(), e, ClaimAt(s0, n0, a), ts, fs) && RegsOk(e, n0)
      && Extends(s0, Committed(S(), e), {})
      && forall k :: k in ts || k in fs ==> k >= |s0.code|
    }

    // subexpr: operands are compiled left to right, each operator's luaK_infix between them.
    method Subexpr(a: Expr) returns (st: Status, e: ExpDesc, ghost ts: seq<nat>, ghost fs: seq<nat>)
      requires Valid() && WellScoped(a, nactvar, nups)
      modifies this
      ensures st.Done? ==> outer == old(outer)
      ensures st.Done? ==> Compiled(e, old(S()), old(freereg), a, ts, fs)
      ensures st.Failed? ==> |code| > MAXARG_SBX || old(freereg) + Need(a) >= MAXSTACK
      decreases a, 1
    {
      ts, fs := [], [];
      match a
      case Local(reg) =>
        VariableMeans(S(), F(), freereg, a);
        ExtendsSelf(S());
        return Done, Loaded(VLOCAL, reg), [], [];
      case Upvalue(index) =>
        VariableMeans(S(), F(), freereg, a);
        ExtendsSelf(S());
        return Done, Loaded(VUPVAL, index), [], [];
      case Paren(b) =>
        st, e, ts, fs := Parenthesized(b);
      case Not(b) =>
        st, e, ts, fs := Negation(b);
      case And(l, r) =>
        st, e, ts, fs := Logical(true, l, r);
      case Or(l, r) =>
        st, e, ts, fs := Logical(false, l, r);
      case Rel(rel, l, r) =>
        st, e := Comparison(rel, l, r);
    }

    // prefixexp: the closing parenthesis discharges the variable.
    method Parenthesized(b: Expr) returns (st: Status, e: ExpDesc, ghost ts: seq<nat>, ghost fs: seq<nat>)
      requires Valid() && WellScoped(b, nactvar, nups)
      modifies this
      ensures st.Done? ==> outer == old(outer)
      ensures st.Done? ==> Compiled(e, old(S()), old(freereg), Paren(b), ts, fs)
      ensures st.Failed? ==> |code| > MAXARG_SBX || old(freereg) + Need(b) >= MAXSTACK
      decreases b, 2
    {
      ghost var s0, c := S(), ClaimAt(S(), freereg, b);
      WellMadeIsTidy(s0, maxstacksize, nups);
      st, e, ts, fs := Subexpr(b);
      if st.Failed? {
        return;
      }
      ghost var s1 := Committed(S(), e);
      st, e := DischargeVars(e, c, ts, fs);
      if st.Done? {
        ParenSem(Committed(S(), e), c, SourceOf(S(), e), ts, fs);
        ExtendsTrans(s0, s1, Committed(S(), e), {}, {});
      }
    }

    method Negation(b: Expr) returns (st: Status, e: ExpDesc, ghost ts: seq<nat>, ghost fs: seq<nat>)
      requires Valid() && WellScoped(b, nactvar, nups)
      modifies this
      ensures st.Done? ==> outer == old(outer)
      ensures st.Done? ==> Compiled(e, old(S()), old(freereg), Not(b), ts, fs)
      ensures st.Failed? ==> |code| > MAXARG_SBX || old(freereg) + Need(b) >= MAXSTACK
      decreases b, 2
    {
      ghost var s0, n0, c := S(), freereg, ClaimAt(S(), freereg, b);
      WellMadeIsTidy(s0, maxstacksize, nups);
      NeedsSome(b);
      st, e, ts, fs := Subexpr(b);
      if st.Failed? {
        return;
      }
      ghost var s1, own := Committed(S(), e), Elems(ts) + Elems(fs);
      st, e := CodeNot(e, c, ts, fs);
      ts, fs := fs, ts;
      if st.Done? {
        assert c.(a := Not(b)) == ClaimAt(s0, n0, Not(b));
        ExtendsTrans(s0, s1, Committed(S(), e), {}, own);
      }
    }

    // `and' (sense true) and `or' (sense false): the first operand and luaK_infix.
    method FirstOperand(sense: bool, l: Expr) returns (st: Status, h: int, ghost js: seq<nat>)
      requires Valid() && WellScoped(l, nactvar, nups)
      modifies this
      ensures st.Done? ==>
        && Ready() && freereg == old(freereg) && outer == old(outer)
        && FirstDone(S(), F(), sense, h, old(ClaimAt(S(), freereg, l)), js)
        && Extends(old(S()), S(), {}) && forall k :: k in js ==> k >= |old(code)|
      ensures st.Failed? ==> |code| > MAXARG_SBX || old(freereg) + Need(l) >= MAXSTACK
      decreases l, 2
    {
      ghost var s0, c := S(), ClaimAt(S(), freereg, l);
      WellMadeIsTidy(s0, maxstacksize, nups);
      NeedsSome(l);
      h, js := NO_JUMP, [];
      var e;
      ghost var ts, fs;
      st, e, ts, fs := Subexpr(l);
      if st.Failed? {
        return;
      }
      ghost var d, own := Committed(S(), e), Elems(ts) + Elems(fs);
      if sense {
        st, e, js := GoIfTrue(e, c, ts, fs);
        h := e.f;
      } else {
        st, e, js := GoIfFalse(e, c, ts, fs);
        h := e.t;
      }
      if st.Done? {
        ExtendsTrans(s0, d, S(), {}, own);
      }
    }

    // The second operand and luaK_posfix
    method SecondOperand(sense: bool, h: int, r: Expr, ghost c: Claim, ghost js: seq<nat>)
      returns (st: Status, e: ExpDesc, ghost ts: seq<nat>, ghost fs: seq<nat>)
      requires Ready() && freereg == c.n && FirstDone(S(), F(), sense, h, c, js) && c.x == NO_REG
      requires WellScoped(r, nactvar, nups)
      modifies this
      ensures st.Done? ==>
        && outer == old(outer) && Ready() && RegsOk(e, c.n) && Means(S(), F(), e, c.(a := Join(sense, c.a, r)), ts, fs)
        && Extends(old(S()), Committed(S(), e), Elems(js))
        && forall k :: k in ts || k in fs ==> k in js || k >= |old(code)|
      ensures st.Failed? ==> |code| > MAXARG_SBX || c.n + Need(r) >= MAXSTACK
      decreases r, 2
    {
      ghost var s1, f1 := S(), F();
      outer := outer + Elems(js);
      st, e, ts, fs := Subexpr(r);
      if st.Failed? {
        return;
      }
      assert ClaimAt(s1, c.n, r) == Follow(s1, c, c.n, r);
      st, e := PosfixLogical(sense, h, e, s1, f1, c, js, r, ts, fs);
      ts, fs := if sense then ts else js + ts, if sense then js + fs else fs;
    }

    method Logical(sense: bool, l: Expr, r: Expr)
      returns (st: Status, e: ExpDesc, ghost ts: seq<nat>, ghost fs: seq<nat>)
      requires Valid() && WellScoped(l, nactvar, nups) && WellScoped(r, nactvar, nups)
      modifies this
      ensures st.Done? ==> outer == old(outer)
      ensures st.Done? ==> Compiled(e, old(S()), old(freereg), Join(sense, l, r), ts, fs)
      ensures st.Failed? ==> |code| > MAXARG_SBX || old(freereg) + Need(Join(sense, l, r)) >= MAXSTACK
      decreases Join(sense, l, r), 0
    {
      hide Extends, Describes, Sem, FirstDone, SecondDone, IsList;
      ghost var s0, n0, c := S(), freereg, ClaimAt(S(), freereg, l);
      WellMadeIsTidy(s0, maxstacksize, nups);
      e, ts, fs := Loaded(VLOCAL, 0), [], [];
      var h;
      ghost var js;
      st, h, js := FirstOperand(sense, l);
      if st.Failed? {
        return;
      }
      ghost var s1 := S();
      st, e, ts, fs := SecondOperand(sense, h, r, c, js);
      if st.Done? {
        assert c.(a := Join(sense, l, r)) == ClaimAt(s0, n0, Join(sense, l, r));
        ExtendsGrows(s0, s1, {});
        ExtendsTrans(s0, s1, Committed(S(), e), {}, Elems(js));
      }
    }

    // The first operand of a comparison, and luaK_infix
    method ComparedOperand(l: Expr) returns (st: Status, e: ExpDesc)
      requires Valid() && WellScoped(l, nactvar, nups)
      modifies this
      ensures st.Done? ==> outer == old(outer)
      ensures st.Done? ==> Compiled(e, old(S()), old(freereg), l, [], []) && e.k == VNONRELOC
      ensures st.Failed? ==> |code| > MAXARG_SBX || old(freereg) + Need(l) >= MAXSTACK
      decreases l, 2
    {
      ghost var s0, c := S(), ClaimAt(S(), freereg, l);
      WellMadeIsTidy(s0, maxstacksize, nups);
      NeedsSome(l);
      ghost var ts, fs;
      st, e, ts, fs := Subexpr(l);
      if st.Failed? {
        return;
      }
      ghost var d, own := Committed(S(), e), Elems(ts) + Elems(fs);
      st, e := Exp2RK(e, c, ts, fs);
      if st.Done? {
        ExtendsTrans(s0, d, S(), {}, own);
      }
    }

    method Comparison(rel: Relation, l: Expr, r: Expr) returns (st: Status, e: ExpDesc)
      requires Valid() && WellScoped(l, nactvar, nups) && WellScoped(r, nactvar, nups)
      modifies this
      ensures st.Done? ==> outer == old(outer)
      ensures st.Done? ==> Compiled(e, old(S()), old(freereg), Rel(rel, l, r), [], [])
      ensures st.Failed? ==> |code| > MAXARG_SBX || old(freereg) + Need(Rel(rel, l, r)) >= MAXSTACK
      decreases Rel(rel, l, r), 0
    {
      ghost var s0, n0, c := S(), freereg, ClaimAt(S(), freereg, l);
      WellMadeIsTidy(s0, maxstacksize, nups);
      NeedsSome(r);
      st, e := ComparedOperand(l);
      if st.Failed? {
        return;
      }
      var e1 := e;
      ghost var s1, f1, n2 := S(), F(), freereg;
      ghost var ts, fs;
      st, e, ts, fs := Subexpr(r);
      if st.Failed? {
        return;
      }
      assert ClaimAt(s1, n2, r) == Follow(s1, c, n2, r);
      st, e := CodeComp(rel, e1, e, s1, f1, c, n2, r, ts, fs);
      if st.Done? {
        assert c.(a := Rel(rel, l, r)) == ClaimAt(s0, n0, Rel(rel, l, r));
        ExtendsTrans(s0, s1, Committed(S(), e), {}, {});
      }
    }
  }
}
