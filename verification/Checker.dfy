// The bytecode checker (ldebug.c): one pass over the code of a function.
module Checker {
  import opened Instructions

  // A constant, for the checker, is a string or something else; a nested function, how many upvalues it has.
  datatype Constant = StringConstant | OtherConstant
  datatype Proto = Proto(code: seq<Instruction>, k: seq<Constant>, p: seq<nat>, nups: nat, maxstacksize: nat,
                         isVararg: bool, needsArg: bool, sizeupvalues: nat, sizelineinfo: nat)

  predicate CheckReg(pt: Proto, reg: int) {
    reg < pt.maxstacksize
  }

  predicate Precheck(pt: Proto)
    requires |pt.code| > 0
  {
    && pt.maxstacksize <= MAXSTACK
    && pt.sizeupvalues <= pt.nups
    && (pt.sizelineinfo == |pt.code| || pt.sizelineinfo == 0)
    && pt.code[|pt.code| - 1].op == OP_RETURN
  }

  // luaG_checkopenop: may i follow an instruction that leaves the top of the stack open?
  predicate CheckOpenOp(i: Instruction) {
    match i.op
    case OP_CALL | OP_TAILCALL | OP_RETURN | OP_SETLIST => i.b == 0
    case _ => false
  }

  predicate CheckArgMode(pt: Proto, r: Arg9, mode: OpArgMask) {
    match mode
    case ArgN => r == 0
    case ArgU => true
    case ArgR => CheckReg(pt, r)
    case ArgK => if IsK(r) then IndexK(r) < |pt.k| else r < pt.maxstacksize
  }

  // A SETLIST whose count is in the next word
  predicate LongSetList(i: Instruction) {
    i.op == OP_SETLIST && i.c == 0
  }

  // The checks on the operands of the instruction at pc, by its mode
  predicate CheckMode(pt: Proto, pc: nat)
    requires pc < |pt.code|
  {
    var i := pt.code[pc];
    match GetOpMode(i.op)
    case IABC => CheckArgMode(pt, i.b, GetBMode(i.op)) && CheckArgMode(pt, i.c, GetCMode(i.op))
    case IABx => GetBMode(i.op) == ArgK ==> i.bx < |pt.k|
    case IAsBx =>
      var dest := pc + 1 + SBx(i);
      0 <= dest < |pt.code| && (dest > 0 ==> !LongSetList(pt.code[dest - 1]))
  }

  predicate CheckNextIsOpen(pt: Proto, pc: nat) {
    pc + 1 < |pt.code| && CheckOpenOp(pt.code[pc + 1])
  }

  // The words after a CLOSURE name its upvalues.
  predicate CheckClosure(pt: Proto, pc: nat, nup: nat) {
    && pc + nup < |pt.code|
    && forall j :: pc < j <= pc + nup ==> pt.code[j].op == OP_GETUPVAL || pt.code[j].op == OP_MOVE
  }

  // The checks of the second switch of symbexec
  predicate CheckOp(pt: Proto, pc: nat)
    requires pc < |pt.code|
  {
    var i := pt.code[pc];
    match i.op
    case OP_LOADBOOL => i.c == 0 || pc + 2 < |pt.code|
    case OP_GETUPVAL | OP_SETUPVAL => i.b < pt.nups
    case OP_GETGLOBAL | OP_SETGLOBAL => i.bx < |pt.k| && pt.k[i.bx] == StringConstant
    case OP_SELF => CheckReg(pt, i.a + 1)
    case OP_CONCAT => i.b < i.c
    case OP_TFORLOOP => i.c >= 1 && CheckReg(pt, i.a + 2 + i.c)
    case OP_FORLOOP | OP_FORPREP => CheckReg(pt, i.a + 3)
    case OP_CALL | OP_TAILCALL =>
      && (i.b != 0 ==> CheckReg(pt, i.a + i.b - 1))
      && (if i.c == 0 then CheckNextIsOpen(pt, pc) else if i.c != 1 then CheckReg(pt, i.a + i.c - 2) else true)
    case OP_RETURN => i.b > 1 ==> CheckReg(pt, i.a + i.b - 2)
    case OP_SETLIST => i.b > 0 ==> CheckReg(pt, i.a + i.b)
    case OP_CLOSURE => i.bx < |pt.p| && CheckClosure(pt, pc, pt.p[i.bx])
    case OP_VARARG =>
      && pt.isVararg && !pt.needsArg
      && (i.b == 0 ==> CheckNextIsOpen(pt, pc))
      && CheckReg(pt, i.a + i.b - 2)
    case _ => true
  }

  predicate CheckTest(pt: Proto, pc: nat)
    requires pc < |pt.code|
  {
    TestTMode(pt.code[pc].op) ==> pc + 2 < |pt.code| && pt.code[pc + 1].op == OP_JMP
  }

  // Everything symbexec checks at pc
  predicate CheckAt(pt: Proto, pc: nat)
    requires pc < |pt.code|
  {
    && pt.code[pc].op != OP_UNDEFINED
    && CheckReg(pt, pt.code[pc].a)
    && CheckMode(pt, pc) && CheckTest(pt, pc) && CheckOp(pt, pc)
  }

  // Is the word at pc the count of a SETLIST rather than an instruction?
  predicate IsCount(code: seq<Instruction>, pc: nat) {
    0 < pc <= |code| && LongSetList(code[pc - 1]) && !IsCount(code, pc - 1)
  }

  // What acceptance means: every instruction passes.
  predicate Accepted(pt: Proto) {
    && |pt.code| > 0 && Precheck(pt)
    && forall pc: nat :: pc < |pt.code| && !IsCount(pt.code, pc) ==> CheckAt(pt, pc)
  }

  // ---- symbolic execution ----

  // May the instruction change register reg?
  predicate Changes(i: Instruction, reg: nat) {
    || (TestAMode(i.op) && i.a == reg)
    || (i.op == OP_LOADNIL && i.a <= reg <= i.b)
    || (i.op == OP_SELF && reg == i.a + 1)
    || (i.op == OP_TFORLOOP && reg >= i.a + 2)
    || ((i.op == OP_CALL || i.op == OP_TAILCALL) && reg >= i.a)
  }

  predicate IsJump(op: OpCode) {
    op == OP_JMP || op == OP_FORLOOP || op == OP_FORPREP
  }

  // Where the pass goes after pc: past the count of a SETLIST, and, when it looks for a register, along
  // forward jumps that do not skip lastpc.
  function Advance(code: seq<Instruction>, pc: nat, lastpc: nat, reg: nat): nat
    requires pc < |code|
  {
    var i := code[pc];
    if LongSetList(i) then pc + 2
    else if IsJump(i.op) && reg != NO_REG && pc < pc + 1 + SBx(i) <= lastpc then pc + 1 + SBx(i)
    else pc + 1
  }

  // The positions that the pass visits
  predicate IsPass(code: seq<Instruction>, lastpc: nat, reg: nat, visited: seq<nat>) {
    && (visited != [] ==> visited[0] == 0)
    && (forall i :: 0 <= i < |visited| ==> visited[i] < lastpc <= |code|)
    && (forall i :: 0 <= i < |visited| - 1 ==> visited[i + 1] == Advance(code, visited[i], lastpc, reg))
  }

  // Where the pass is after these positions
  function After(code: seq<Instruction>, lastpc: nat, reg: nat, visited: seq<nat>): nat
    requires IsPass(code, lastpc, reg, visited)
  {
    if visited == [] then 0 else Advance(code, visited[|visited| - 1], lastpc, reg)
  }

  // last is the last visited position that changes reg, or the final return when none does.
  predicate IsLastChange(code: seq<Instruction>, reg: nat, visited: seq<nat>, last: nat) {
    || (last == |code| - 1 && forall i :: 0 <= i < |visited| && visited[i] < |code| ==> !Changes(code[visited[i]], reg))
    || exists m :: 0 <= m < |visited| && visited[m] == last < |code| && Changes(code[last], reg)
         && forall i :: m < i < |visited| && visited[i] < |code| ==> !Changes(code[visited[i]], reg)
  }

  lemma ChangeHere(code: seq<Instruction>, reg: nat, visited: seq<nat>, last: nat, pc: nat)
    requires IsLastChange(code, reg, visited, last) && pc < |code|
    ensures IsLastChange(code, reg, visited + [pc], if Changes(code[pc], reg) then pc else last)
  {
    var now := visited + [pc];
    if Changes(code[pc], reg) {
      assert now[|visited|] == pc;
    } else if exists m :: 0 <= m < |visited| && visited[m] == last < |code| && Changes(code[last], reg)
                            && forall i :: m < i < |visited| && visited[i] < |code| ==>
                              !Changes(code[visited[i]], reg) {
      var m :| 0 <= m < |visited| && visited[m] == last < |code| && Changes(code[last], reg)
               && forall i :: m < i < |visited| && visited[i] < |code| ==> !Changes(code[visited[i]], reg);
      assert now[m] == last;
    }
  }

  lemma PassHere(code: seq<Instruction>, lastpc: nat, reg: nat, visited: seq<nat>)
    requires IsPass(code, lastpc, reg, visited) && After(code, lastpc, reg, visited) < lastpc <= |code|
    ensures var pc := After(code, lastpc, reg, visited);
            IsPass(code, lastpc, reg, visited + [pc]) &&
              After(code, lastpc, reg, visited + [pc]) == Advance(code, pc, lastpc, reg)
  {
  }

  // symbexec: checks the code before lastpc and finds the last change of register reg.
  method Symbexec(pt: Proto, lastpc: nat, reg: nat) returns (ok: bool, last: nat, ghost visited: seq<nat>)
    requires lastpc <= |pt.code| && |pt.code| > 0
    ensures IsPass(pt.code, lastpc, reg, visited)
    ensures ok ==> Precheck(pt) && After(pt.code, lastpc, reg, visited) >= lastpc
    ensures ok ==> forall i :: 0 <= i < |visited| ==> CheckAt(pt, visited[i])
    ensures !ok ==> !Precheck(pt) || (|visited| > 0 && !CheckAt(pt, visited[|visited| - 1]))
    ensures ok ==> IsLastChange(pt.code, reg, visited, last)
    ensures Accepted(pt) ==> ok
  {
    last, visited := |pt.code| - 1, [];
    if !Precheck(pt) {
      return false, last, visited;
    }
    var pc := 0;
    while pc < lastpc
      invariant IsPass(pt.code, lastpc, reg, visited) && pc == After(pt.code, lastpc, reg, visited)
      invariant forall i :: 0 <= i < |visited| ==> CheckAt(pt, visited[i])
      invariant IsLastChange(pt.code, reg, visited, last)
    {
      ChangeHere(pt.code, reg, visited, last, pc);
      PassHere(pt.code, lastpc, reg, visited);
      visited := visited + [pc];
      var i := pt.code[pc];
      if !CheckAt(pt, pc) {
        if Accepted(pt) {
          PassOnInstructions(pt, lastpc, reg, visited);
          assert false;
        }
        return false, last, visited;
      }
      if Changes(i, reg) {
        last := pc;
      }
      if IsJump(i.op) {
        var dest := pc + 1 + SBx(i);
        if reg != NO_REG && pc < dest <= lastpc {
          pc := pc + SBx(i);
        }
      } else if LongSetList(i) {
        pc := pc + 1;
      }
      pc := pc + 1;
    }
    return true, last, visited;
  }

  // Without a register to look for, the pass visits the instructions and nothing else.
  lemma {:induction false} PassCovers(code: seq<Instruction>, lastpc: nat, reg: nat, visited: seq<nat>, pc: nat)
    requires IsPass(code, lastpc, reg, visited) && reg == NO_REG && pc < After(code, lastpc, reg, visited)
    ensures pc in visited <==> !IsCount(code, pc)
    ensures forall q :: q in visited ==> q < After(code, lastpc, reg, visited)
    ensures !IsCount(code, After(code, lastpc, reg, visited))
    decreases |visited|
  {
    var before := visited[..|visited| - 1];
    var q := visited[|visited| - 1];
    assert After(code, lastpc, reg, before) == q;
    assert visited == before + [q];
    if q > 0 {
      PassCovers(code, lastpc, reg, before, if pc < q then pc else 0);
    }
  }

  // Along jumps the pass still stays on instructions, once those it has seen are accepted.
  lemma {:induction false} PassOnInstructions(pt: Proto, lastpc: nat, reg: nat, visited: seq<nat>)
    requires Accepted(pt) && IsPass(pt.code, lastpc, reg, visited)
    ensures forall i :: 0 <= i < |visited| ==> !IsCount(pt.code, visited[i])
    ensures !IsCount(pt.code, After(pt.code, lastpc, reg, visited))
    decreases |visited|
  {
    if visited != [] {
      var before, q := visited[..|visited| - 1], visited[|visited| - 1];
      assert visited == before + [q];
      PassOnInstructions(pt, lastpc, reg, before);
      assert After(pt.code, lastpc, reg, before) == q;
      assert CheckAt(pt, q) && CheckMode(pt, q);
      AdvanceStays(pt, q, lastpc, reg);
    }
  }

  lemma AdvanceStays(pt: Proto, pc: nat, lastpc: nat, reg: nat)
    requires pc < |pt.code| && CheckMode(pt, pc) && !IsCount(pt.code, pc)
    ensures !IsCount(pt.code, Advance(pt.code, pc, lastpc, reg))
  {
  }

  // luaG_checkcode
  method CheckCode(pt: Proto) returns (ok: bool)
    requires |pt.code| > 0
    ensures ok <==> Accepted(pt)
  {
    var last;
    ghost var visited;
    ok, last, visited := Symbexec(pt, |pt.code|, NO_REG);
    if ok {
      forall pc: nat | pc < |pt.code| && !IsCount(pt.code, pc)
        ensures CheckAt(pt, pc)
      {
        PassCovers(pt.code, |pt.code|, NO_REG, visited, pc);
      }
    }
  }

  // last is what the whole pass up to lastpc finds.
  ghost predicate IsLastBefore(code: seq<Instruction>, lastpc: nat, reg: nat, last: nat) {
    exists visited :: IsWholePass(code, lastpc, reg, visited) && IsLastChange(code, reg, visited, last)
  }

  predicate IsWholePass(code: seq<Instruction>, lastpc: nat, reg: nat, visited: seq<nat>) {
    IsPass(code, lastpc, reg, visited) && After(code, lastpc, reg, visited) >= lastpc
  }

  // The code determines it.
  lemma OneLastChange(code: seq<Instruction>, lastpc: nat, reg: nat, last: nat, last': nat)
    requires IsLastBefore(code, lastpc, reg, last) && IsLastBefore(code, lastpc, reg, last')
    ensures last == last'
  {
    var v :| IsWholePass(code, lastpc, reg, v) && IsLastChange(code, reg, v, last);
    var v' :| IsWholePass(code, lastpc, reg, v') && IsLastChange(code, reg, v', last');
    if |v| <= |v'| {
      PassPrefix(code, lastpc, reg, v, v');
    } else {
      PassPrefix(code, lastpc, reg, v', v);
    }
    assert v == v';
  }

  // A whole pass visits all that another one does.
  lemma {:induction false} PassPrefix(code: seq<Instruction>, lastpc: nat, reg: nat, v: seq<nat>, v': seq<nat>)
    requires IsPass(code, lastpc, reg, v) && IsPass(code, lastpc, reg, v') && |v| <= |v'|
    ensures v == v'[..|v|]
    ensures IsWholePass(code, lastpc, reg, v) ==> |v| == |v'|
    decreases |v|
  {
    if v != [] {
      PassPrefix(code, lastpc, reg, v[..|v| - 1], v');
      if |v| > 1 {
        assert v[|v| - 2] == v'[|v| - 2];
      }
      assert v[|v| - 1] == v'[|v| - 1];
    }
    if |v| < |v'| {
      assert v != [] ==> v'[|v| - 1 + 1] == Advance(code, v'[|v| - 1], lastpc, reg);
      assert v'[|v|] == After(code, lastpc, reg, v);
    }
  }

  // getobjname's use of symbexec: on accepted code it never fails.
  method LastChange(pt: Proto, lastpc: nat, reg: nat) returns (last: nat)
    requires Accepted(pt) && lastpc <= |pt.code|
    ensures IsLastBefore(pt.code, lastpc, reg, last)
  {
    var ok;
    ghost var visited;
    ok, last, visited := Symbexec(pt, lastpc, reg);
    assert IsWholePass(pt.code, lastpc, reg, visited);
  }
}
