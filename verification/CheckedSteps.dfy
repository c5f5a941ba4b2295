// The steps that the model of the call stack allows a Lua function include all that its checked code can make.
module CheckedSteps {
  import opened Instructions
  import Checker
  import opened CallMeaning

  // The frame of a checked function: its registers are those the checker counts.
  predicate FrameFor(pt: Checker.Proto, fr: Frame) {
    fr.lua && fr.limit == pt.maxstacksize && fr.vararg == pt.isVararg
  }

  // OP_CALL: the function and its arguments are in registers that hold a value.
  lemma CallAllowed(pt: Checker.Proto, pc: nat, fr: Frame, callee: Callee)
    requires pc < |pt.code| && Checker.CheckAt(pt, pc) && pt.code[pc].op == OP_CALL && FrameFor(pt, fr)
    requires var i := pt.code[pc]; if i.b == 0 then fr.open && i.a < |fr.regs| else !fr.open && i.a + i.b <= |fr.regs|
    ensures var i := pt.code[pc]; Allowed(Invoke(i.a, i.b - 1, callee, i.c - 1), fr)
  {
  }

  lemma TailCallAllowed(pt: Checker.Proto, pc: nat, fr: Frame, callee: Callee)
    requires pc < |pt.code| && Checker.CheckAt(pt, pc) && pt.code[pc].op == OP_TAILCALL && FrameFor(pt, fr)
    requires var i := pt.code[pc]; if i.b == 0 then fr.open && i.a < |fr.regs| else !fr.open && i.a + i.b <= |fr.regs|
    requires ProperCall(callee, Arguments(fr, pt.code[pc].a, pt.code[pc].b - 1), true)
    ensures var i := pt.code[pc]; Proper(Tail(i.a, i.b - 1, callee), fr, true)
  {
  }

  lemma ReturnAllowed(pt: Checker.Proto, pc: nat, fr: Frame)
    requires pc < |pt.code| && Checker.CheckAt(pt, pc) && pt.code[pc].op == OP_RETURN && FrameFor(pt, fr)
    requires var i := pt.code[pc];
             if i.b == 0 then fr.open && i.a <= |fr.regs| else !fr.open && i.a + i.b - 1 <= |fr.regs|
    ensures var i := pt.code[pc]; Proper(Return(i.a, i.b - 1), fr, true)
  {
  }

  lemma VarargAllowed(pt: Checker.Proto, pc: nat, fr: Frame)
    requires pc < |pt.code| && Checker.CheckAt(pt, pc) && pt.code[pc].op == OP_VARARG && FrameFor(pt, fr)
    requires !fr.open && pt.code[pc].a <= |fr.regs|
    ensures var i := pt.code[pc]; Allowed(Varargs(i.a, i.b - 1), fr)
  {
  }

  lemma MoveAllowed(pt: Checker.Proto, pc: nat, fr: Frame)
    requires pc < |pt.code| && Checker.CheckAt(pt, pc) && pt.code[pc].op == OP_MOVE && FrameFor(pt, fr)
    requires !fr.open && pt.code[pc].a <= |fr.regs| && pt.code[pc].b < |fr.regs|
    ensures var i := pt.code[pc]; Allowed(Copy(i.a, i.b), fr)
  {
  }
}
