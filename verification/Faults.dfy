// Exactly which functions the checker rejects, said in terms of what the interpreter does with an instruction
// (lvm.c, lopcodes.h) and not of the tests of the checker.
module Faults {
  import opened Instructions
  import opened Checker
  import opened Soundness

  datatype Fault =
    | UndefinedOpcode
    | RegisterOutside
    | ConstantOutside
    | GlobalNotString
    | UpvalueOutside
    | FunctionOutside
    | SuccessorOutside
    | JumpBehindCount
    | WrongWordAfter
    | OpenListNotTaken
    | TooFewOperands
    | UnusedNotZero
    | NoVarargs

  // Registers of the frame that an instruction takes up: those it touches, and some that the checker counts although
  // the interpreter does not look at them: A of every instruction, B of a TEST, and the fourth register of a FORPREP.
  predicate TakesUp(i: Instruction, reg: nat) {
    Touches(i, reg) || reg == i.a || (i.op == OP_TEST && reg == i.b) || (i.op == OP_FORPREP && reg == i.a + 3)
  }

  // The instruction promises a list of values up to the top of the stack.
  predicate PromisesOpen(i: Instruction) {
    ((i.op == OP_CALL || i.op == OP_TAILCALL) && i.c == 0) || (i.op == OP_VARARG && i.b == 0)
  }

  // The instruction takes its operands up to the top of the stack.
  predicate TakesOpen(i: Instruction) {
    (i.op == OP_CALL || i.op == OP_TAILCALL || i.op == OP_RETURN || i.op == OP_SETLIST) && i.b == 0
  }

  // Operands that mean nothing to the instruction
  predicate NoB(op: OpCode) {
    op == OP_TFORLOOP || op == OP_CLOSE
  }

  predicate NoC(op: OpCode) {
    || op == OP_MOVE || op == OP_LOADNIL || op == OP_GETUPVAL || op == OP_SETUPVAL || op == OP_UNM || op == OP_NOT
    || op == OP_LEN || op == OP_RETURN || op == OP_CLOSE || op == OP_VARARG
  }

  // The word after a test is its jump; those after a CLOSURE name its upvalues.
  predicate FitsAfter(i: Instruction, word: Instruction) {
    if i.op == OP_CLOSURE then word.op == OP_GETUPVAL || word.op == OP_MOVE else word.op == OP_JMP
  }

  // The word at pc has this fault.
  ghost predicate Has(pt: Proto, pc: nat, f: Fault)
    requires pc < |pt.code|
  {
    var i := pt.code[pc];
    match f
    case UndefinedOpcode => i.op == OP_UNDEFINED
    case RegisterOutside => exists reg: nat :: TakesUp(i, reg) && reg >= pt.maxstacksize
    case ConstantOutside => exists k: nat :: UsesConstant(i, k) && k >= |pt.k|
    case GlobalNotString => exists k: nat :: NamesGlobal(i, k) && k < |pt.k| && pt.k[k] != StringConstant
    case UpvalueOutside =>
      i.op != OP_CLOSURE && exists u: nat :: UsesUpvalue(pt, pc, u) && u >= pt.nups
    case FunctionOutside => i.op == OP_CLOSURE && i.bx >= |pt.p|
    case SuccessorOutside =>
      !LongSetList(i) && exists next: int :: Moves(pt, pc, next) && !(0 <= next < |pt.code|)
    case JumpBehindCount =>
      IsJump(i.op) && exists next: int :: Moves(pt, pc, next) && 0 < next <= |pt.code| && LongSetList(pt.code[next - 1])
    case WrongWordAfter =>
      !LongSetList(i) && exists q: nat :: Fetches(pt, pc, q) && !(q < |pt.code| && FitsAfter(i, pt.code[q]))
    case OpenListNotTaken => PromisesOpen(i) && !(pc + 1 < |pt.code| && TakesOpen(pt.code[pc + 1]))
    case TooFewOperands => (i.op == OP_CONCAT && i.b >= i.c) || (i.op == OP_TFORLOOP && i.c == 0)
    case UnusedNotZero => (NoB(i.op) && i.b != 0) || (NoC(i.op) && i.c != 0)
    case NoVarargs => i.op == OP_VARARG && !(pt.isVararg && !pt.needsArg)
  }

  // The header of the function: its sizes agree and its code ends with a return.
  predicate HeaderOk(pt: Proto) {
    && pt.maxstacksize <= 250 && pt.sizeupvalues <= pt.nups && pt.sizelineinfo in {0, |pt.code|}
    && |pt.code| > 0 && pt.code[|pt.code| - 1].op == OP_RETURN
  }

  ghost predicate Faultless(pt: Proto) {
    forall pc: nat, f {:trigger Has(pt, pc, f)} :: pc < |pt.code| && !IsCount(pt.code, pc) ==> !Has(pt, pc, f)
  }

  // The checker accepts a function if and only if its header is right and no instruction has a fault.
  lemma AcceptedExactly(pt: Proto)
    requires |pt.code| > 0
    ensures Accepted(pt) <==> HeaderOk(pt) && Faultless(pt)
  {
    if Accepted(pt) {
      forall pc: nat, f | pc < |pt.code| && !IsCount(pt.code, pc)
        ensures !Has(pt, pc, f)
      {
        NoFault(pt, pc, f);
      }
    }
    if HeaderOk(pt) && Faultless(pt) {
      forall pc: nat | pc < |pt.code| && !IsCount(pt.code, pc)
        ensures CheckAt(pt, pc)
      {
        FaultlessChecked(pt, pc);
      }
    }
  }

  // ---- what is accepted has no fault ----

  lemma NoFault(pt: Proto, pc: nat, f: Fault)
    requires Accepted(pt) && pc < |pt.code| && !IsCount(pt.code, pc)
    ensures !Has(pt, pc, f)
  {
    if f.SuccessorOutside? || f.JumpBehindCount? {
      if Has(pt, pc, f) {
        var next: int :| Moves(pt, pc, next)
          && if f.SuccessorOutside? then !(0 <= next < |pt.code|)
             else 0 < next <= |pt.code| && LongSetList(pt.code[next - 1]);
        SuccessorChecked(pt, pc, next);
      }
    } else {
      CheckedAt(pt, pc);
      if f.RegisterOutside? || f.ConstantOutside? || f.GlobalNotString? {
        OperandsFaultless(pt, pc, f);
      } else {
        WordsFaultless(pt, pc, f);
      }
    }
  }

  lemma OperandsFaultless(pt: Proto, pc: nat, f: Fault)
    requires pc < |pt.code| && CheckAt(pt, pc) && (f.RegisterOutside? || f.ConstantOutside? || f.GlobalNotString?)
    ensures !Has(pt, pc, f)
  {
    if f.RegisterOutside? && Has(pt, pc, f) {
      var reg: nat :| TakesUp(pt.code[pc], reg) && reg >= pt.maxstacksize;
      if Touches(pt.code[pc], reg) {
        OperandsInFrame(pt, pc, reg);
      }
    }
  }

  lemma WordsFaultless(pt: Proto, pc: nat, f: Fault)
    requires pc < |pt.code| && CheckAt(pt, pc)
    requires !f.RegisterOutside? && !f.ConstantOutside? && !f.GlobalNotString?
    requires !f.SuccessorOutside? && !f.JumpBehindCount?
    ensures !Has(pt, pc, f)
  {
    hide Touches, Moves, UsesConstant;
  }

  lemma SuccessorChecked(pt: Proto, pc: nat, next: int)
    requires Accepted(pt) && pc < |pt.code| && !IsCount(pt.code, pc) && !LongSetList(pt.code[pc]) && Moves(pt, pc, next)
    ensures 0 <= next < |pt.code|
    ensures IsJump(pt.code[pc].op) && next > 0 ==> !LongSetList(pt.code[next - 1])
  {
    var i := pt.code[pc];
    CheckedAt(pt, pc);
    assert i.op != OP_RETURN ==> pc < |pt.code| - 1;
    if TestTMode(i.op) {
      TestStays(pt, pc, next);
    } else if i.op == OP_CLOSURE {
      ClosureStays(pt, pc, next);
    } else {
      hide Accepted;
      PlainSuccessor(pt, pc, next);
    }
  }

  lemma PlainSuccessor(pt: Proto, pc: nat, next: int)
    requires pc < |pt.code| - 1 && CheckAt(pt, pc) && !LongSetList(pt.code[pc]) && Moves(pt, pc, next)
    requires !TestTMode(pt.code[pc].op) && pt.code[pc].op != OP_CLOSURE
    ensures 0 <= next < |pt.code|
    ensures IsJump(pt.code[pc].op) && next > 0 ==> !LongSetList(pt.code[next - 1])
  {
    hide CheckTest, CheckClosure, CheckArgMode;
  }

  // ---- what has no fault is accepted ----

  lemma FaultlessChecked(pt: Proto, pc: nat)
    requires HeaderOk(pt) && pc < |pt.code| && forall f :: !Has(pt, pc, f)
    ensures CheckAt(pt, pc)
  {
    assert !Has(pt, pc, UndefinedOpcode);
    RegistersInside(pt, pc);
    assert TakesUp(pt.code[pc], pt.code[pc].a);
    ModeChecked(pt, pc);
    WordsAfter(pt, pc);
    OperandsChecked(pt, pc);
  }

  ghost predicate Inside(pt: Proto, i: Instruction) {
    && (forall reg: nat :: TakesUp(i, reg) ==> reg < pt.maxstacksize)
    && (forall k: nat :: UsesConstant(i, k) ==> k < |pt.k|)
    && (forall k: nat :: NamesGlobal(i, k) && k < |pt.k| ==> pt.k[k] == StringConstant)
  }

  lemma RegistersInside(pt: Proto, pc: nat)
    requires pc < |pt.code| && forall f :: !Has(pt, pc, f)
    ensures Inside(pt, pt.code[pc])
  {
    assert !Has(pt, pc, RegisterOutside) && !Has(pt, pc, ConstantOutside) && !Has(pt, pc, GlobalNotString);
  }

  lemma ModeChecked(pt: Proto, pc: nat)
    requires HeaderOk(pt) && pc < |pt.code| && (forall f :: !Has(pt, pc, f)) && Inside(pt, pt.code[pc])
    ensures CheckMode(pt, pc)
  {
    var i := pt.code[pc];
    match GetOpMode(i.op)
    case IABC =>
      assert !Has(pt, pc, UnusedNotZero) && !Has(pt, pc, UndefinedOpcode) && !Has(pt, pc, TooFewOperands);
      ArgumentB(pt, i);
      ArgumentC(pt, i);
    case IABx =>
      assert GetBMode(i.op) == ArgK ==> UsesConstant(i, i.bx);
    case IAsBx =>
      var dest := pc + 1 + SBx(i);
      assert Moves(pt, pc, dest);
      assert !Has(pt, pc, SuccessorOutside) && !Has(pt, pc, JumpBehindCount);
  }

  lemma ArgumentB(pt: Proto, i: Instruction)
    requires Inside(pt, i) && GetOpMode(i.op) == IABC && (NoB(i.op) ==> i.b == 0)
    requires i.op == OP_CONCAT ==> i.b < i.c
    ensures CheckArgMode(pt, i.b, GetBMode(i.op))
  {
    if GetBMode(i.op) == ArgR {
      assert TakesUp(i, i.b);
    } else if GetBMode(i.op) == ArgK {
      assert if IsK(i.b) then UsesConstant(i, IndexK(i.b)) else TakesUp(i, i.b);
    }
  }

  lemma ArgumentC(pt: Proto, i: Instruction)
    requires Inside(pt, i) && GetOpMode(i.op) == IABC && i.op != OP_UNDEFINED && (NoC(i.op) ==> i.c == 0)
    requires i.op == OP_CONCAT ==> i.b < i.c
    ensures CheckArgMode(pt, i.c, GetCMode(i.op))
  {
    if GetCMode(i.op) == ArgR {
      assert TakesUp(i, i.c);
    } else if GetCMode(i.op) == ArgK {
      assert if IsK(i.c) then UsesConstant(i, IndexK(i.c)) else TakesUp(i, i.c);
    }
  }

  // The words after the instruction
  lemma WordsAfter(pt: Proto, pc: nat)
    requires HeaderOk(pt) && pc < |pt.code| && forall f :: !Has(pt, pc, f)
    ensures CheckTest(pt, pc)
    ensures pt.code[pc].op == OP_CLOSURE ==> pt.code[pc].bx < |pt.p| && CheckClosure(pt, pc, pt.p[pt.code[pc].bx])
    ensures PromisesOpen(pt.code[pc]) ==> CheckNextIsOpen(pt, pc)
    ensures pt.code[pc].op == OP_LOADBOOL && pt.code[pc].c != 0 ==> pc + 2 < |pt.code|
  {
    var i := pt.code[pc];
    assert !Has(pt, pc, OpenListNotTaken) && !Has(pt, pc, FunctionOutside);
    if TestTMode(i.op) {
      assert Fetches(pt, pc, pc + 1) && Moves(pt, pc, pc + 2);
      assert !Has(pt, pc, WrongWordAfter) && !Has(pt, pc, SuccessorOutside);
    }
    if i.op == OP_LOADBOOL && i.c != 0 {
      assert Moves(pt, pc, pc + 2);
      assert !Has(pt, pc, SuccessorOutside);
    }
    if i.op == OP_CLOSURE {
      var nup := pt.p[i.bx];
      assert !Has(pt, pc, WrongWordAfter);
      forall q: nat | pc < q <= pc + nup
        ensures q < |pt.code| && (pt.code[q].op == OP_GETUPVAL || pt.code[q].op == OP_MOVE)
      {
        assert Fetches(pt, pc, q);
      }
      assert nup > 0 ==> pc + nup < |pt.code|;
    }
  }

  lemma OperandsChecked(pt: Proto, pc: nat)
    requires pc < |pt.code| && (forall f :: !Has(pt, pc, f)) && Inside(pt, pt.code[pc]) && CheckMode(pt, pc)
    requires pt.code[pc].op == OP_CLOSURE ==> pt.code[pc].bx < |pt.p| && CheckClosure(pt, pc, pt.p[pt.code[pc].bx])
    requires PromisesOpen(pt.code[pc]) ==> CheckNextIsOpen(pt, pc)
    requires pt.code[pc].op == OP_LOADBOOL && pt.code[pc].c != 0 ==> pc + 2 < |pt.code|
    ensures CheckOp(pt, pc)
  {
    var i := pt.code[pc];
    assert !Has(pt, pc, UpvalueOutside) && !Has(pt, pc, TooFewOperands) && !Has(pt, pc, NoVarargs);
    assert TakesUp(i, i.a);
    match i.op
    case OP_GETUPVAL => assert UsesUpvalue(pt, pc, i.b);
    case OP_SETUPVAL => assert UsesUpvalue(pt, pc, i.b);
    case OP_GETGLOBAL => assert NamesGlobal(i, i.bx) && UsesConstant(i, i.bx);
    case OP_SETGLOBAL => assert NamesGlobal(i, i.bx) && UsesConstant(i, i.bx);
    case OP_SELF => assert TakesUp(i, i.a + 1);
    case OP_TFORLOOP => assert TakesUp(i, i.a + 2 + i.c);
    case OP_FORLOOP => assert TakesUp(i, i.a + 3);
    case OP_FORPREP => assert TakesUp(i, i.a + 3);
    case OP_CALL => CallOperands(pt, i);
    case OP_TAILCALL => CallOperands(pt, i);
    case OP_RETURN => assert i.b > 1 ==> TakesUp(i, i.a + i.b - 2);
    case OP_SETLIST => assert TakesUp(i, i.a + i.b);
    case OP_VARARG => assert i.b > 1 ==> TakesUp(i, i.a + i.b - 2);
    case _ =>
  }

  lemma CallOperands(pt: Proto, i: Instruction)
    requires Inside(pt, i) && (i.op == OP_CALL || i.op == OP_TAILCALL)
    ensures i.b != 0 ==> i.a + i.b - 1 < pt.maxstacksize
    ensures i.c > 1 ==> i.a + i.c - 2 < pt.maxstacksize
  {
    assert i.b != 0 ==> TakesUp(i, i.a + i.b - 1);
    assert i.c > 1 ==> TakesUp(i, i.a + i.c - 2);
  }
}
