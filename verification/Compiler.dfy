// Functions whose body assigns boolean expressions to local variables and returns one (lparser.c).
module Compiler {
  import opened Instructions
  import opened JumpLists
  import opened Machine
  import opened Meaning
  import opened CommitLemmas
  import opened ExpressionLemmas
  import opened Emission
  import opened Descriptors
  import opened Operators
  import opened Status
  import opened CodeGenerator
  import opened Checker
  import opened Soundness

  datatype Assignment = Assignment(target: nat, e: Expr)

  // `target1 = e1; ...; return result', over nactvar local variables and nups upvalues
  datatype Function = Function(nactvar: nat, nups: nat, block: seq<Assignment>, result: Expr)

  predicate BlockScoped(block: seq<Assignment>, nactvar: nat, nups: nat) {
    forall i :: 0 <= i < |block| ==> block[i].target < nactvar && WellScoped(block[i].e, nactvar, nups)
  }

  // The language's own meaning of a block: the registers after its assignments.
  function Exec(w: World, r: Regs, block: seq<Assignment>): Regs
    decreases |block|
  {
    if block == [] then r
    else
      var last, before := block[|block| - 1], Exec(w, r, block[..|block| - 1]);
      if last.target < 256 then before[last.target := Eval(w, before, last.e)] else before
  }

  // In every completion, every run from the start comes to the end of s with the local variables as the
  // block leaves them.
  ghost predicate Arrives(w: World, code: seq<Instruction>, s: Snap, n: nat, r: Regs, want: Regs) {
    exists p: nat, r': Regs ::
      && Reaches(w, code, Config(0, r), Config(p, r')) && (p == |s.code| || p in s.here)
      && Agree(want, r', n, n, n)
  }

  ghost predicate Runs(s: Snap, n: nat, block: seq<Assignment>) {
    forall w: World, code, r: Regs {:trigger Arrives(w, code, s, n, r, Exec(w, r, block))} ::
      Fits(s, code) ==> Arrives(w, code, s, n, r, Exec(w, r, block))
  }

  lemma RunsNothing(s: Snap, n: nat)
    requires s.code == []
    ensures Runs(s, n, [])
  {
    forall w: World, code: seq<Instruction>, r: Regs | Fits(s, code)
      ensures Arrives(w, code, s, n, r, Exec(w, r, []))
    {
      ReachesSelf(w, code, Config(0, r));
    }
  }

  // From where a block arrives, an expression compiled next leaves its value.
  lemma RunsThen(s0: Snap, s: Snap, n: nat, nups: nat, block: seq<Assignment>, c: Claim, reg: nat,
                 w: World, code: seq<Instruction>, r: Regs) returns (p: nat, r': Regs)
    requires Runs(s0, n, block) && WellScoped(c.a, n, nups) && n <= 256
    requires c.entries == ClaimAt(s0, n, c.a).entries && c.n == n
    requires Narrows(s0, s) && Sem(s, c, InReg(reg), [], []) && Fits(s, code)
    ensures Reaches(w, code, Config(0, r), Config(p, r')) && (p == |s.code| || p in s.here)
    ensures reg < 256 && r'[reg] == Eval(w, Exec(w, r, block), c.a)
    ensures Agree(Exec(w, r, block), r', n, c.x, c.x)
  {
    NarrowsFits(s0, s, code);
    var want := Exec(w, r, block);
    assert Arrives(w, code, s0, n, r, want);
    var p0: nat, r0: Regs :| Reaches(w, code, Config(0, r), Config(p0, r0)) && (p0 == |s0.code| || p0 in s0.here) &&
      Agree(want, r0, n, n, n);
    EvalAgree(w, want, r0, c.a, n, nups);
    p, r' := Exit(w, code, s, p0, r0, c, InReg(reg), [], []);
    ReachesTrans(w, code, Config(0, r), Config(p0, r0), Config(p, r'));
  }

  lemma RunsAssignment(s0: Snap, s: Snap, n: nat, nups: nat, block: seq<Assignment>, a: Assignment)
    requires Runs(s0, n, block) && WellScoped(a.e, n, nups) && a.target < n <= 256
    requires Narrows(s0, s) && Sem(s, ClaimAt(s0, n, a.e).(x := a.target), InReg(a.target), [], [])
    ensures Runs(s, n, block + [a])
  {
    forall w: World, code: seq<Instruction>, r: Regs | Fits(s, code)
      ensures Arrives(w, code, s, n, r, Exec(w, r, block + [a]))
    {
      var p, r' := RunsThen(s0, s, n, nups, block, ClaimAt(s0, n, a.e).(x := a.target), a.target, w, code, r);
      hide Sem, Narrows, Fits, Reaches, Exec;
      ExecAgrees(w, r, r', n, block, a);
    }
  }

  lemma ExecAgrees(w: World, r: Regs, r': Regs, n: nat, block: seq<Assignment>, a: Assignment)
    requires a.target < n <= 256 && r'[a.target] == Eval(w, Exec(w, r, block), a.e)
    requires Agree(Exec(w, r, block), r', n, a.target, a.target)
    ensures Agree(Exec(w, r, block + [a]), r', n, n, n)
  {
    assert (block + [a])[..|block|] == block;
  }

  // ---- statements ----

  // luaK_storevar on a local variable
  method StoreVar(fs: FuncState, target: nat, e: ExpDesc, ghost c: Claim, ghost ts: seq<nat>, ghost fls: seq<nat>)
    returns (st: Status)
    requires fs.Ready() && Means(fs.S(), fs.F(), e, c, ts, fls) && fs.RegsOk(e, c.n)
    requires target < fs.nactvar && c.x >= c.n
    modifies fs
    ensures st.Done? ==>
      && fs.Ready() && Means(fs.S(), fs.F(), InRegister(target), c.(x := target), [], [])
      && Extends(old(Committed(fs.S(), e)), fs.S(), Elems(ts) + Elems(fls)) && fs.outer == old(fs.outer) &&
        fs.freereg == c.n
    ensures st.Failed? ==> |fs.code| > MAXARG_SBX
  {
    fs.FreeExp(e);
    Weaken(Committed(fs.S(), e), c, c.(x := target), SourceOf(fs.S(), e), SourceOf(fs.S(), e), ts, fls);
    var e';
    st, e' := fs.Exp2Reg(e, target, c.(x := target), ts, fls);
  }

  // assignment
  method Assign(fs: FuncState, a: Assignment, ghost block: seq<Assignment>) returns (st: Status)
    requires fs.Valid() && fs.open == fs.outer == {} && fs.freereg == fs.nactvar && Runs(fs.S(), fs.nactvar, block)
    requires a.target < fs.nactvar && WellScoped(a.e, fs.nactvar, fs.nups)
    modifies fs
    ensures st.Done? ==>
      fs.Valid() && fs.open == fs.outer == {} && fs.freereg == fs.nactvar && Runs(fs.S(), fs.nactvar, block + [a])
    ensures st.Failed? ==> |fs.code| > MAXARG_SBX || fs.nactvar + Need(a.e) >= MAXSTACK
  {
    hide Extends, Sem, Runs, WellMade;
    ghost var s0, c := fs.S(), ClaimAt(fs.S(), fs.freereg, a.e);
    var e;
    ghost var ts, fls;
    st, e, ts, fls := fs.Subexpr(a.e);
    if st.Failed? {
      return;
    }
    ghost var s1 := Committed(fs.S(), e);
    st := StoreVar(fs, a.target, e, c, ts, fls);
    if st.Done? {
      WellMadeIsTidy(s0, old(fs.maxstacksize), fs.nups);
      ExtendsTrans(s0, s1, fs.S(), {}, Elems(ts) + Elems(fls));
      RunsAssignment(s0, fs.S(), fs.nactvar, fs.nups, block, a);
      fs.freereg := fs.nactvar;
    }
  }

  // ---- returning ----

  // The run from the start stops at a RETURN of the one value v.
  ghost predicate Returns(w: World, code: seq<Instruction>, r: Regs, v: Value) {
    exists p: nat, r': Regs ::
      && Reaches(w, code, Config(0, r), Config(p, r')) && p < |code|
      && code[p].op == OP_RETURN && code[p].b == 2 && r'[code[p].a] == v
  }

  // What the bytecode checker needs to know about finished code.
  ghost predicate Finished(code: seq<Instruction>, max: nat, nups: nat) {
    && |code| >= 1 && code[|code| - 1].op == OP_RETURN
    && forall i :: 0 <= i < |code| ==> Settled(code, max, nups, i)
  }

  ghost predicate Settled(code: seq<Instruction>, max: nat, nups: nat, i: nat)
    requires i < |code|
  {
    var x := code[i];
    && FieldsOk(x, max, nups)
    && (TestTMode(x.op) ==> i + 1 < |code| && code[i + 1].op == OP_JMP)
    && (x.op == OP_LOADBOOL && x.c != 0 ==> i + 2 < |code|)
    && (x.op == OP_JMP ==> 0 <= i + 1 + SBx(x) < |code|)
    && (x.op == OP_TESTSET ==> x.a < max)
  }

  lemma FinishedByReturn(s: Snap, s': Snap, ret: Instruction, max: nat, nups: nat)
    requires WellMade(s, max, nups) && s.open == {} && s'.open == {} && IsEmit(s, s', [ret])
    requires ret.op == OP_RETURN && FieldsOk(ret, max, nups)
    ensures Finished(s'.code, max, nups)
  {
    var d := Discharged(s);
    DischargedWellMade(s, max, nups);
    forall i | 0 <= i < |s'.code|
      ensures Settled(s'.code, max, nups, i)
    {
      if i < |d.code| {
        assert SlotOk(d, max, nups, i);
        assert s'.code[i] == d.code[i];
        if i + 1 < |d.code| {
          assert s'.code[i + 1] == d.code[i + 1];
        }
      }
    }
  }

  lemma Returned(s0: Snap, s: Snap, s1: Snap, s2: Snap, n: nat, nups: nat, block: seq<Assignment>, a: Expr, reg: Arg8,
                 last: Instruction)
    requires Runs(s0, n, block) && WellScoped(a, n, nups) && n <= 256
    requires Narrows(s0, s) && Sem(s, ClaimAt(s0, n, a), InReg(reg), [], []) && Tidy(s)
    requires IsEmit(s, s1, [ABC(OP_RETURN, reg, 2, 0)]) && s1.open == s.open == {} && IsEmit(s1, s2, [last]) &&
             s2.open == {}
    ensures forall w: World, r: Regs :: Returns(w, s2.code, r, Eval(w, Exec(w, r, block), a))
  {
    var d := Discharged(s);
    DischargeSem(s, ClaimAt(s0, n, a), InReg(reg), [], []);
    assert s1.code[|d.code|] == ABC(OP_RETURN, reg, 2, 0) && Discharged(s1).code == s1.code;
    assert Fits(d, s2.code) by {
      forall i | 0 <= i < |d.code|
        ensures s2.code[i] == d.code[i]
      {
        assert s2.code[i] == s1.code[i];
      }
    }
    forall w: World, r: Regs
      ensures Returns(w, s2.code, r, Eval(w, Exec(w, r, block), a))
    {
      var p, r' := RunsThen(s0, d, n, nups, block, ClaimAt(s0, n, a), reg, w, s2.code, r);
      assert s2.code[p] == s1.code[p];
    }
  }

  // luaK_ret
  method Ret(fs: FuncState, first: Arg8, nret: nat) returns (st: Status)
    requires IsList(fs.code, fs.jpc, fs.here) && nret < 511
    modifies fs`code, fs`jpc, fs`here
    ensures st.Done? ==> IsEmit(old(fs.S()), fs.S(), [ABC(OP_RETURN, first, nret + 1, 0)]) && fs.jpc == NO_JUMP
    ensures st.Failed? ==> |fs.code| > MAXARG_SBX
  {
    var pc;
    st, pc := fs.Code(ABC(OP_RETURN, first, nret + 1, 0));
  }

  // The operand of retstat with one value
  method ReturnOperand(fs: FuncState, result: Expr) returns (st: Status, first: Arg8)
    requires fs.Valid() && fs.open == fs.outer == {} && fs.freereg == fs.nactvar &&
             WellScoped(result, fs.nactvar, fs.nups)
    modifies fs
    ensures st.Done? ==>
      && fs.Valid() && fs.open == {} && first < fs.maxstacksize && Narrows(old(fs.S()), fs.S())
      && Sem(fs.S(), ClaimAt(old(fs.S()), fs.nactvar, result), InReg(first), [], [])
    ensures st.Failed? ==> |fs.code| > MAXARG_SBX || fs.nactvar + Need(result) >= MAXSTACK
  {
    hide Sem, Accounted, IsList;
    ghost var s0, c := fs.S(), ClaimAt(fs.S(), fs.freereg, result);
    first := 0;
    NeedsSome(result);
    var e;
    ghost var ts, fls;
    st, e, ts, fls := fs.Subexpr(result);
    if st.Failed? {
      return;
    }
    ghost var s1 := Committed(fs.S(), e);
    st, e := fs.Exp2AnyReg(e, c, ts, fls);
    if st.Done? {
      first := e.info;
      NothingOpen(fs.S(), fs.F(), e);
      WellMadeIsTidy(s0, old(fs.maxstacksize), fs.nups);
      ExtendsTrans(s0, s1, fs.S(), {}, Elems(ts) + Elems(fls));
    }
  }

  // retstat, and the final return of close_func
  method Close(fs: FuncState, result: Expr, ghost block: seq<Assignment>) returns (st: Status)
    requires fs.Valid() && fs.open == fs.outer == {} && fs.freereg == fs.nactvar && Runs(fs.S(), fs.nactvar, block)
    requires WellScoped(result, fs.nactvar, fs.nups)
    modifies fs
    ensures st.Done? ==>
      && Finished(fs.code, fs.maxstacksize, fs.nups) && 2 <= fs.maxstacksize < MAXSTACK && fs.nactvar <= fs.maxstacksize
      && forall w: World, r: Regs :: Returns(w, fs.code, r, Eval(w, Exec(w, r, block), result))
    ensures st.Failed? ==> |fs.code| > MAXARG_SBX || fs.nactvar + Need(result) >= MAXSTACK
  {
    hide Sem, Narrows, Extends, Runs, Returns, Finished, WellMade;
    ghost var s0 := fs.S();
    var first;
    st, first := ReturnOperand(fs, result);
    if st.Failed? {
      return;
    }
    ghost var s := fs.S();
    WellMadeIsTidy(s, fs.maxstacksize, fs.nups);
    st := Ret(fs, first, 1);
    if st.Failed? {
      return;
    }
    ghost var s1 := fs.S();
    EmitOne(s, s1, fs.F(), ABC(OP_RETURN, first, 2, 0));
    st := Ret(fs, 0, 0);
    if st.Done? {
      FinishedByReturn(s1, fs.S(), ABC(OP_RETURN, 0, 1, 0), fs.maxstacksize, fs.nups);
      Returned(s0, s, s1, fs.S(), fs.nactvar, fs.nups, block, result, first, ABC(OP_RETURN, 0, 1, 0));
    }
  }

  function BlockNeed(block: seq<Assignment>): nat {
    if block == [] then 1
    else
      var before, last := BlockNeed(block[..|block| - 1]), Need(block[|block| - 1].e);
      if before >= last then before else last
  }

  // A block needs no more than one of its assignments does.
  lemma {:induction false} BlockNeedsOne(block: seq<Assignment>) returns (i: nat)
    ensures if i < |block| then BlockNeed(block) == Need(block[i].e) else BlockNeed(block) == 1
  {
    if block == [] {
      i := 0;
    } else {
      i := BlockNeedsOne(block[..|block| - 1]);
      if i >= |block| - 1 || BlockNeed(block[..|block| - 1]) < Need(block[|block| - 1].e) {
        NeedsSome(block[|block| - 1].e);
        i := |block| - 1;
      }
    }
  }

  lemma {:induction false} BlockNeedsAll(block: seq<Assignment>, i: nat)
    requires i < |block|
    ensures Need(block[i].e) <= BlockNeed(block)
  {
    if i < |block| - 1 {
      BlockNeedsAll(block[..|block| - 1], i);
    }
  }

  lemma SettledPasses(pt: Proto, pc: nat)
    requires pc < |pt.code| && Settled(pt.code, pt.maxstacksize, pt.nups, pc) && 2 <= pt.maxstacksize <= MAXSTACK
    requires TestTMode(pt.code[pc].op) ==> pc + 2 < |pt.code|
    requires forall q :: 0 <= q < |pt.code| ==> !LongSetList(pt.code[q])
    ensures CheckAt(pt, pc)
  {
  }

  // The generator meets the checker.
  lemma FinishedIsAccepted(pt: Proto)
    requires Finished(pt.code, pt.maxstacksize, pt.nups) && 2 <= pt.maxstacksize <= MAXSTACK
    requires pt.sizeupvalues <= pt.nups && (pt.sizelineinfo == |pt.code| || pt.sizelineinfo == 0)
    ensures Accepted(pt) && ShortSetLists(pt.code)
  {
    forall q | 0 <= q < |pt.code|
      ensures !LongSetList(pt.code[q])
    {
      assert Settled(pt.code, pt.maxstacksize, pt.nups, q);
    }
    forall pc | 0 <= pc < |pt.code|
      ensures CheckAt(pt, pc)
    {
      assert Settled(pt.code, pt.maxstacksize, pt.nups, pc);
      SettledPasses(pt, pc);
    }
  }

  // The whole function.  Compiled code, from any registers, returns what the language says the function
  // returns, and the checker accepts it; compilation fails only when the code or the frame is too big.
  method CompileFunction(f: Function) returns (st: Status, pt: Proto)
    requires f.nactvar < MAXSTACK && f.nups < 256
    requires BlockScoped(f.block, f.nactvar, f.nups) && WellScoped(f.result, f.nactvar, f.nups)
    ensures st.Done? ==> forall w: World, r: Regs :: Returns(w, pt.code, r, Eval(w, Exec(w, r, f.block), f.result))
    ensures st.Done? ==> Accepted(pt) && ShortSetLists(pt.code) && pt.nups == f.nups && f.nactvar <= pt.maxstacksize
    ensures st.Failed? ==>
      |pt.code| > MAXARG_SBX || f.nactvar + BlockNeed(f.block) >= MAXSTACK || f.nactvar + Need(f.result) >= MAXSTACK
  {
    var fs := new FuncState(f.nactvar, f.nups);
    RunsNothing(fs.S(), f.nactvar);
    assert f.block[..0] == [];
    var i := 0;
    while i < |f.block|
      invariant 0 <= i <= |f.block|
      invariant fresh(fs) && fs.nactvar == f.nactvar && fs.nups == f.nups
      invariant fs.Valid() && fs.open == fs.outer == {} && fs.freereg == fs.nactvar &&
                Runs(fs.S(), fs.nactvar, f.block[..i])
    {
      BlockNeedsAll(f.block, i);
      st := Assign(fs, f.block[i], f.block[..i]);
      if st.Failed? {
        pt := MakeProto(fs);
        return;
      }
      assert f.block[..i] + [f.block[i]] == f.block[..i + 1];
      i := i + 1;
    }
    assert f.block[..i] == f.block;
    st := Close(fs, f.result, f.block);
    pt := MakeProto(fs);
    if st.Done? {
      FinishedIsAccepted(pt);
      var accepted := CheckCode(pt);
      assert accepted;
    }
  }

  method MakeProto(fs: FuncState) returns (pt: Proto)
    ensures pt == Proto(fs.code, [], [], fs.nups, fs.maxstacksize, false, false, fs.nups, |fs.code|)
  {
    return Proto(fs.code, [], [], fs.nups, fs.maxstacksize, false, false, fs.nups, |fs.code|);
  }

  // The two sides together: a compiled function runs safely at every step, on the machine as well as in
  // the checker's view of it.
  lemma CompiledRunsSafely(pt: Proto, w: World, r: Regs, n: nat, last: Config)
    requires Accepted(pt) && ShortSetLists(pt.code) && Steps(w, pt.code, n, Config(0, r)) == Goes(last)
    ensures 0 <= last.pc < |pt.code| && Safe(pt, last.pc)
  {
    MachineConfined(pt, w, n, Config(0, r), last);
  }
}
