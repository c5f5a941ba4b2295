// The paths through the code that runs take: how the successors of an instruction hang together with the words it
// reads and with those of its jump.
module Paths {
  import opened Instructions
  import opened Checker
  import opened Soundness

  // A test goes past its jump, or where the jump goes.
  lemma TestGoesWithJump(pt: Proto, pc: nat, next: int)
    requires pc + 1 < |pt.code| && TestTMode(pt.code[pc].op) && pt.code[pc + 1].op == OP_JMP
    ensures Moves(pt, pc, next) <==> next == pc + 2 || Moves(pt, pc + 1, next)
  {
  }

  // Control passes over exactly the words that an instruction reads, unless it jumps, tests or skips.
  lemma PassesWords(pt: Proto, pc: nat, next: int)
    requires pc < |pt.code| && !TestTMode(pt.code[pc].op) && !IsJump(pt.code[pc].op)
    requires pt.code[pc].op != OP_RETURN && !(pt.code[pc].op == OP_LOADBOOL && pt.code[pc].c != 0)
    ensures Moves(pt, pc, next) <==>
            next > pc && !Fetches(pt, pc, next) && forall q: nat :: pc < q < next ==> Fetches(pt, pc, q)
  {
    var i := pt.code[pc];
    if next > pc && !Fetches(pt, pc, next) && forall q: nat :: pc < q < next ==> Fetches(pt, pc, q) {
      if LongSetList(i) {
        assert !Fetches(pt, pc, pc + 2) && Fetches(pt, pc, pc + 1);
      } else if i.op == OP_CLOSURE && i.bx < |pt.p| {
        assert !Fetches(pt, pc, pc + pt.p[i.bx] + 1);
        assert pt.p[i.bx] > 0 ==> Fetches(pt, pc, pc + 1);
      } else {
        assert !Fetches(pt, pc, pc + 1);
      }
    }
  }

  // Only a return ends a path.
  lemma OnlyReturnsEnd(pt: Proto, pc: nat)
    requires pc < |pt.code|
    ensures (exists next :: Moves(pt, pc, next)) <==> pt.code[pc].op != OP_RETURN
  {
    MovesOn(pt, pc);
    if pt.code[pc].op == OP_TAILCALL {
      assert Moves(pt, pc, pc + 1);
    }
  }

  // Each word after a CLOSURE captures the register or the upvalue it names.
  lemma WordCaptures(pt: Proto, pc: nat, j: nat)
    requires pc < |pt.code| && pt.code[pc].op == OP_CLOSURE && pt.code[pc].bx < |pt.p|
    requires 1 <= j <= pt.p[pt.code[pc].bx] && pc + j < |pt.code|
    ensures var word := pt.code[pc + j];
            && (word.op == OP_MOVE ==> CapturesRegister(pt, pc, word.b))
            && (word.op == OP_GETUPVAL ==> UsesUpvalue(pt, pc, word.b))
  {
    assert Fetches(pt, pc, pc + j);
  }
}
