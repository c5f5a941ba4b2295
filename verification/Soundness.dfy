// What acceptance by the checker guarantees about every run of the function.
module Soundness {
  import opened Instructions
  import opened Machine
  import opened Checker

  // ---- what the interpreter does with an instruction, as far as safety is concerned (lvm.c) ----

  // Control may go from pc to next.  Conditional instructions read the jump offset in the word after them.
  predicate Moves(pt: Proto, pc: nat, next: int)
    requires pc < |pt.code|
  {
    var i := pt.code[pc];
    match i.op
    case OP_RETURN => false
    case OP_LOADBOOL => next == if i.c != 0 then pc + 2 else pc + 1
    case OP_JMP | OP_FORPREP => next == pc + 1 + SBx(i)
    case OP_FORLOOP => next == pc + 1 || next == pc + 1 + SBx(i)
    case OP_EQ | OP_LT | OP_LE | OP_TEST | OP_TESTSET | OP_TFORLOOP =>
      next == pc + 2 || (pc + 1 < |pt.code| && next == pc + 2 + SBx(pt.code[pc + 1]))
    case OP_SETLIST => next == if i.c == 0 then pc + 2 else pc + 1
    case OP_CLOSURE => next == pc + 1 + (if i.bx < |pt.p| then pt.p[i.bx] else 0)
    case _ => next == pc + 1
  }

  // The function can be left at pc.
  predicate Leaves(i: Instruction) {
    i.op == OP_RETURN || i.op == OP_TAILCALL
  }

  // Words of the code, other than the one at pc, that the instruction at pc reads
  predicate Fetches(pt: Proto, pc: nat, q: nat)
    requires pc < |pt.code|
  {
    var i := pt.code[pc];
    || (TestTMode(i.op) && q == pc + 1)
    || (LongSetList(i) && q == pc + 1)
    || (i.op == OP_CLOSURE && i.bx < |pt.p| && pc < q <= pc + pt.p[i.bx])
  }

  predicate IsRK(x: Arg9, reg: nat) {
    !IsK(x) && reg == x
  }

  // Registers that the operands of the instruction name: those it reads or writes.  Ranges that end at
  // the top of the stack (B or C is 0) have no end here.
  predicate Touches(i: Instruction, reg: nat) {
    match i.op
    case OP_MOVE | OP_UNM | OP_NOT | OP_LEN | OP_TESTSET => reg == i.a || reg == i.b
    case OP_LOADK | OP_LOADBOOL | OP_GETUPVAL | OP_GETGLOBAL | OP_SETGLOBAL | OP_SETUPVAL | OP_NEWTABLE
       | OP_TEST | OP_CLOSE | OP_CLOSURE => reg == i.a
    case OP_LOADNIL => reg == i.b || i.a <= reg <= i.b
    case OP_GETTABLE => reg == i.a || reg == i.b || IsRK(i.c, reg)
    case OP_SETTABLE | OP_ADD | OP_SUB | OP_MUL | OP_DIV | OP_MOD | OP_POW =>
      reg == i.a || IsRK(i.b, reg) || IsRK(i.c, reg)
    case OP_SELF => reg == i.a || reg == i.a + 1 || reg == i.b || IsRK(i.c, reg)
    case OP_CONCAT => reg == i.a || i.b <= reg <= i.c
    case OP_EQ | OP_LT | OP_LE => IsRK(i.b, reg) || IsRK(i.c, reg)
    case OP_CALL | OP_TAILCALL => reg == i.a || i.a <= reg < i.a + i.b || i.a <= reg < i.a + i.c - 1
    case OP_RETURN => i.a <= reg < i.a + i.b - 1
    case OP_FORLOOP => i.a <= reg <= i.a + 3
    case OP_FORPREP => i.a <= reg <= i.a + 2
    case OP_TFORLOOP => i.a <= reg <= i.a + 2 + i.c
    case OP_SETLIST => i.a <= reg <= i.a + i.b
    case OP_VARARG => i.a <= reg < i.a + i.b - 1
    case OP_JMP | OP_UNDEFINED => false
  }

  // TFORLOOP builds its call in three registers of its own, whatever the number of results.
  predicate Scratch(i: Instruction, reg: nat) {
    i.op == OP_TFORLOOP && i.a + 3 <= reg <= i.a + 5
  }

  predicate UsesConstant(i: Instruction, k: nat) {
    match i.op
    case OP_LOADK | OP_GETGLOBAL | OP_SETGLOBAL => k == i.bx
    case OP_GETTABLE | OP_SELF => IsK(i.c) && k == IndexK(i.c)
    case OP_SETTABLE | OP_ADD | OP_SUB | OP_MUL | OP_DIV | OP_MOD | OP_POW | OP_EQ | OP_LT | OP_LE =>
      (IsK(i.b) && k == IndexK(i.b)) || (IsK(i.c) && k == IndexK(i.c))
    case _ => false
  }

  predicate NamesGlobal(i: Instruction, k: nat) {
    (i.op == OP_GETGLOBAL || i.op == OP_SETGLOBAL) && k == i.bx
  }

  // Upvalues and enclosing registers that a CLOSURE at pc captures are named by the words after it.
  predicate UsesUpvalue(pt: Proto, pc: nat, u: nat)
    requires pc < |pt.code|
  {
    var i := pt.code[pc];
    || ((i.op == OP_GETUPVAL || i.op == OP_SETUPVAL) && u == i.b)
    || (i.op == OP_CLOSURE && exists q ::
      pc < q < |pt.code| && Fetches(pt, pc, q) && pt.code[q].op == OP_GETUPVAL && u == pt.code[q].b)
  }

  predicate CapturesRegister(pt: Proto, pc: nat, reg: nat)
    requires pc < |pt.code|
  {
    pt.code[pc].op == OP_CLOSURE && exists q ::
      pc < q < |pt.code| && Fetches(pt, pc, q) && pt.code[q].op == OP_MOVE && reg == pt.code[q].b
  }

  // Executing the instruction at pc stays within the code, the frame, the constants, the upvalues and the
  // nested functions, and control either moves on or leaves by a return or tail call.
  ghost predicate Safe(pt: Proto, pc: nat)
    requires pc < |pt.code|
  {
    var i := pt.code[pc];
    && i.op != OP_UNDEFINED
    && (forall q: nat :: Fetches(pt, pc, q) ==> q < |pt.code|)
    && (forall reg: nat :: Touches(i, reg) || CapturesRegister(pt, pc, reg) ==> reg < pt.maxstacksize)
    && (forall reg: nat :: Scratch(i, reg) ==> reg < pt.maxstacksize + 2)
    && (forall k: nat :: UsesConstant(i, k) ==> k < |pt.k|)
    && (forall k: nat :: NamesGlobal(i, k) ==> k < |pt.k| && pt.k[k] == StringConstant)
    && (forall u: nat :: UsesUpvalue(pt, pc, u) ==> u < pt.nups)
    && (i.op == OP_CLOSURE ==> i.bx < |pt.p|)
    && (Leaves(i) || exists next :: Moves(pt, pc, next))
  }

  // ---- one instruction ----

  lemma OperandsInFrame(pt: Proto, pc: nat, reg: nat)
    requires pc < |pt.code| && CheckAt(pt, pc) && Touches(pt.code[pc], reg)
    ensures reg < pt.maxstacksize
  {
  }

  lemma ConstantsInTable(pt: Proto, pc: nat, k: nat)
    requires pc < |pt.code| && CheckAt(pt, pc) && UsesConstant(pt.code[pc], k)
    ensures k < |pt.k|
  {
  }

  // The words after a CLOSURE are instructions that have been checked themselves.
  lemma CheckedAt(pt: Proto, pc: nat)
    requires Accepted(pt) && pc < |pt.code| && !IsCount(pt.code, pc)
    ensures CheckAt(pt, pc)
  {
  }

  lemma {:induction false} ClosureWords(pt: Proto, pc: nat, q: nat)
    requires Accepted(pt) && pc < |pt.code| && !IsCount(pt.code, pc) && pt.code[pc].op == OP_CLOSURE &&
             Fetches(pt, pc, q)
    ensures q < |pt.code| && !IsCount(pt.code, q) && CheckAt(pt, q)
    ensures pt.code[q].op == OP_GETUPVAL || pt.code[q].op == OP_MOVE
    decreases q
  {
    hide Accepted;
    CheckedAt(pt, pc);
    assert CheckClosure(pt, pc, pt.p[pt.code[pc].bx]);
    assert q > pc + 1 ==> Fetches(pt, pc, q - 1);
    hide CheckAt, CheckClosure, Fetches;
    if q > pc + 1 {
      ClosureWords(pt, pc, q - 1);
    }
    assert !LongSetList(pt.code[q - 1]);
    CheckedAt(pt, q);
  }

  // Where the checker itself steps over a count: is that all the code does with it?
  predicate Guarded(pt: Proto, pc: int)
    requires 0 <= pc < |pt.code|
  {
    && (pt.code[pc].op == OP_LOADBOOL && pt.code[pc].c != 0 && pc + 1 < |pt.code| ==> !LongSetList(pt.code[pc + 1]))
    && (LongSetList(pt.code[pc]) ==> pc + 2 < |pt.code|)
  }

  lemma FetchesInCode(pt: Proto, pc: nat, q: nat)
    requires pc < |pt.code| && CheckAt(pt, pc) && Fetches(pt, pc, q) &&
             (LongSetList(pt.code[pc]) ==> pc + 1 < |pt.code|)
    ensures q < |pt.code|
  {
  }

  lemma CapturedInFrame(pt: Proto, pc: nat, reg: nat)
    requires Accepted(pt) && pc < |pt.code| && !IsCount(pt.code, pc) && CapturesRegister(pt, pc, reg)
    ensures reg < pt.maxstacksize
  {
    var q :| pc < q < |pt.code| && Fetches(pt, pc, q) && pt.code[q].op == OP_MOVE && reg == pt.code[q].b;
    ClosureWords(pt, pc, q);
  }

  lemma UpvaluesExist(pt: Proto, pc: nat, u: nat)
    requires Accepted(pt) && pc < |pt.code| && !IsCount(pt.code, pc) && UsesUpvalue(pt, pc, u)
    ensures u < pt.nups
  {
    assert CheckAt(pt, pc);
    if pt.code[pc].op == OP_CLOSURE {
      var q :| pc < q < |pt.code| && Fetches(pt, pc, q) && pt.code[q].op == OP_GETUPVAL && u == pt.code[q].b;
      ClosureWords(pt, pc, q);
    }
  }

  lemma AcceptedIsSafe(pt: Proto, pc: nat)
    requires Accepted(pt) && pc < |pt.code| && !IsCount(pt.code, pc)
    requires LongSetList(pt.code[pc]) ==> pc + 1 < |pt.code|
    ensures Safe(pt, pc)
  {
    var i := pt.code[pc];
    assert CheckAt(pt, pc);
    forall q: nat | Fetches(pt, pc, q)
      ensures q < |pt.code|
    {
      FetchesInCode(pt, pc, q);
    }
    forall reg: nat | Touches(i, reg) || CapturesRegister(pt, pc, reg)
      ensures reg < pt.maxstacksize
    {
      if Touches(i, reg) {
        OperandsInFrame(pt, pc, reg);
      } else {
        CapturedInFrame(pt, pc, reg);
      }
    }
    forall k: nat | UsesConstant(i, k)
      ensures k < |pt.k|
    {
      ConstantsInTable(pt, pc, k);
    }
    forall u: nat | UsesUpvalue(pt, pc, u)
      ensures u < pt.nups
    {
      UpvaluesExist(pt, pc, u);
    }
    RestIsSafe(pt, pc);
    MovesOn(pt, pc);
  }

  lemma RestIsSafe(pt: Proto, pc: nat)
    requires pc < |pt.code| && CheckAt(pt, pc)
    ensures forall reg: nat :: Scratch(pt.code[pc], reg) ==> reg < pt.maxstacksize + 2
    ensures forall k: nat :: NamesGlobal(pt.code[pc], k) ==> k < |pt.k| && pt.k[k] == StringConstant
    ensures pt.code[pc].op == OP_CLOSURE ==> pt.code[pc].bx < |pt.p|
  {
  }

  lemma MovesOn(pt: Proto, pc: nat)
    requires pc < |pt.code|
    ensures Leaves(pt.code[pc]) || exists next :: Moves(pt, pc, next)
  {
    var i := pt.code[pc];
    match i.op
    case OP_LOADBOOL => assert Moves(pt, pc, if i.c != 0 then pc + 2 else pc + 1);
    case OP_JMP => assert Moves(pt, pc, pc + 1 + SBx(i));
    case OP_FORPREP => assert Moves(pt, pc, pc + 1 + SBx(i));
    case OP_EQ => assert Moves(pt, pc, pc + 2);
    case OP_LT => assert Moves(pt, pc, pc + 2);
    case OP_LE => assert Moves(pt, pc, pc + 2);
    case OP_TEST => assert Moves(pt, pc, pc + 2);
    case OP_TESTSET => assert Moves(pt, pc, pc + 2);
    case OP_TFORLOOP => assert Moves(pt, pc, pc + 2);
    case OP_SETLIST => assert Moves(pt, pc, if i.c == 0 then pc + 2 else pc + 1);
    case OP_CLOSURE => assert Moves(pt, pc, pc + 1 + (if i.bx < |pt.p| then pt.p[i.bx] else 0));
    case OP_RETURN =>
    case _ => assert Moves(pt, pc, pc + 1);
  }

  // Control moves from an accepted, guarded instruction to another instruction.
  lemma MoveStays(pt: Proto, pc: nat, next: int)
    requires Accepted(pt) && pc < |pt.code| && !IsCount(pt.code, pc) && Guarded(pt, pc) && Moves(pt, pc, next)
    ensures 0 <= next < |pt.code| && !IsCount(pt.code, next)
  {
    var i := pt.code[pc];
    assert pc < |pt.code| - 1;
    if i.op == OP_CLOSURE {
      ClosureStays(pt, pc, next);
    } else if TestTMode(i.op) {
      TestStays(pt, pc, next);
    } else if IsJump(i.op) {
      assert CheckAt(pt, pc);
      JumpStays(pt, pc, next);
    } else {
      assert CheckAt(pt, pc);
      PlainStays(pt, pc, next);
    }
  }

  lemma PlainStays(pt: Proto, pc: nat, next: int)
    requires pc < |pt.code| - 1 && CheckAt(pt, pc) && !IsCount(pt.code, pc) && Guarded(pt, pc) && Moves(pt, pc, next)
    requires pt.code[pc].op != OP_CLOSURE && !TestTMode(pt.code[pc].op) && !IsJump(pt.code[pc].op)
    ensures 0 <= next < |pt.code| && !IsCount(pt.code, next)
  {
    if next == pc + 2 && pt.code[pc].op == OP_LOADBOOL {
      assert !LongSetList(pt.code[pc + 1]);
    } else if next == pc + 2 {
      assert IsCount(pt.code, pc + 1);
    }
  }

  lemma JumpStays(pt: Proto, pc: nat, next: int)
    requires pc < |pt.code| - 1 && CheckMode(pt, pc) && Moves(pt, pc, next) && IsJump(pt.code[pc].op)
    ensures 0 <= next < |pt.code| && !IsCount(pt.code, next)
  {
  }

  lemma TestStays(pt: Proto, pc: nat, next: int)
    requires Accepted(pt) && pc < |pt.code| && !IsCount(pt.code, pc) && Moves(pt, pc, next) && TestTMode(pt.code[pc].op)
    ensures 0 <= next < |pt.code| && !IsCount(pt.code, next)
  {
    assert CheckAt(pt, pc) && CheckTest(pt, pc);
    assert pt.code[pc + 1].op == OP_JMP && !IsCount(pt.code, pc + 1);
    if next != pc + 2 {
      assert CheckAt(pt, pc + 1);
      JumpStays(pt, pc + 1, next);
    }
  }

  lemma ClosureStays(pt: Proto, pc: nat, next: int)
    requires Accepted(pt) && pc < |pt.code| && !IsCount(pt.code, pc) && pt.code[pc].op == OP_CLOSURE &&
             Moves(pt, pc, next)
    ensures 0 <= next < |pt.code| && !IsCount(pt.code, next)
  {
    assert CheckAt(pt, pc);
    if next > pc + 1 {
      assert Fetches(pt, pc, next - 1);
      ClosureWords(pt, pc, next - 1);
    }
  }

  // ---- runs ----

  // The positions a run goes through, from the entry on
  ghost predicate IsRun(pt: Proto, run: seq<int>) {
    && |run| > 0 && run[0] == 0
    && forall i :: 0 <= i < |run| - 1 ==> 0 <= run[i] < |pt.code| && Moves(pt, run[i], run[i + 1])
  }

  // The run stays on instructions that the checker has seen.
  ghost predicate Confined(pt: Proto, run: seq<int>) {
    forall i :: 0 <= i < |run| ==> 0 <= run[i] < |pt.code| && !IsCount(pt.code, run[i])
  }

  ghost predicate GuardedAlong(pt: Proto, run: seq<int>) {
    forall i :: 0 <= i < |run| && 0 <= run[i] < |pt.code| ==> Guarded(pt, run[i])
  }

  lemma RunPrefix(pt: Proto, run: seq<int>, n: nat)
    requires IsRun(pt, run) && 0 < n <= |run|
    ensures IsRun(pt, run[..n])
  {
    var prefix := run[..n];
    forall i | 0 <= i < n - 1
      ensures 0 <= prefix[i] < |pt.code| && Moves(pt, prefix[i], prefix[i + 1])
    {
      assert prefix[i] == run[i] && prefix[i + 1] == run[i + 1];
    }
  }

  lemma EntryChecked(pt: Proto)
    requires Accepted(pt)
    ensures |pt.code| > 0 && !IsCount(pt.code, 0)
  {
  }

  lemma {:induction false} GuardedRunConfined(pt: Proto, run: seq<int>)
    requires Accepted(pt) && IsRun(pt, run) && GuardedAlong(pt, run[..|run| - 1])
    ensures Confined(pt, run)
    decreases |run|
  {
    hide Accepted;
    EntryChecked(pt);
    if |run| > 1 {
      var before := run[..|run| - 1];
      RunPrefix(pt, run, |run| - 1);
      assert forall i :: 0 <= i < |before| ==> before[i] == run[i];
      assert GuardedAlong(pt, before[..|before| - 1]);
      GuardedRunConfined(pt, before);
      var q := before[|before| - 1];
      assert q == run[|run| - 2];
      MoveStays(pt, q, run[|run| - 1]);
      forall i | 0 <= i < |run|
        ensures 0 <= run[i] < |pt.code| && !IsCount(pt.code, run[i])
      {
        if i < |run| - 1 {
          assert run[i] == before[i];
        }
      }
    }
  }

  // An unguarded instruction takes its run off the checked code.
  lemma UnguardedEscapes(pt: Proto, run: seq<int>) returns (longer: seq<int>)
    requires Accepted(pt) && IsRun(pt, run) && Confined(pt, run) && !Guarded(pt, run[|run| - 1])
    ensures IsRun(pt, longer) && !Confined(pt, longer)
  {
    hide CheckTest, CheckMode, CheckReg, Precheck;
    var pc := run[|run| - 1];
    assert CheckAt(pt, pc);
    longer := run + [pc + 2];
    assert longer[|run|] == pc + 2;
    if LongSetList(pt.code[pc]) {
      assert !IsCount(pt.code, pc);
      assert pc + 2 >= |pt.code|;
    } else {
      assert LongSetList(pt.code[pc + 1]) && !IsCount(pt.code, pc + 1) && IsCount(pt.code, pc + 2);
    }
  }

  // Exactly when every run stays on checked instructions.
  lemma ConfinedExactly(pt: Proto)
    requires Accepted(pt)
    ensures (forall run :: IsRun(pt, run) ==> Confined(pt, run)) <==>
            (forall run :: IsRun(pt, run) ==> GuardedAlong(pt, run))
  {
    if forall run :: IsRun(pt, run) ==> GuardedAlong(pt, run) {
      forall run | IsRun(pt, run)
        ensures Confined(pt, run)
      {
        assert GuardedAlong(pt, run);
        assert GuardedAlong(pt, run[..|run| - 1]);
        GuardedRunConfined(pt, run);
      }
    }
    if forall run :: IsRun(pt, run) ==> Confined(pt, run) {
      forall run | IsRun(pt, run)
        ensures GuardedAlong(pt, run)
      {
        forall i | 0 <= i < |run| && 0 <= run[i] < |pt.code|
          ensures Guarded(pt, run[i])
        {
          var prefix := run[..i + 1];
          RunPrefix(pt, run, i + 1);
          if !Guarded(pt, run[i]) {
            var longer := UnguardedEscapes(pt, prefix);
          }
        }
      }
    }
  }

  // No SETLIST keeps its count in the next word.
  predicate ShortSetLists(code: seq<Instruction>) {
    forall pc :: 0 <= pc < |code| ==> !LongSetList(code[pc])
  }

  // Soundness: a run of an accepted function that meets only guarded instructions is safe at every step.
  lemma CheckerSound(pt: Proto, run: seq<int>, i: nat)
    requires Accepted(pt) && IsRun(pt, run) && GuardedAlong(pt, run) && i < |run|
    ensures 0 <= run[i] < |pt.code| && Safe(pt, run[i])
  {
    hide Accepted, Safe;
    assert GuardedAlong(pt, run[..|run| - 1]);
    GuardedRunConfined(pt, run);
    assert Guarded(pt, run[i]);
    AcceptedIsSafe(pt, run[i]);
  }

  // The usual case: there is nothing to guard.
  lemma CheckerSoundShort(pt: Proto, run: seq<int>, i: nat)
    requires Accepted(pt) && ShortSetLists(pt.code) && IsRun(pt, run) && i < |run|
    ensures 0 <= run[i] < |pt.code| && Safe(pt, run[i])
  {
    hide Accepted, Safe;
    CheckerSound(pt, run, i);
  }

  ghost predicate SafeAlong(pt: Proto, run: seq<int>) {
    forall i :: 0 <= i < |run| ==> 0 <= run[i] < |pt.code| && Safe(pt, run[i])
  }

  lemma GuardedIsSafe(pt: Proto, run: seq<int>)
    requires Accepted(pt) && IsRun(pt, run) && GuardedAlong(pt, run)
    ensures SafeAlong(pt, run)
  {
    hide Accepted, Safe, Guarded, IsRun;
    forall i: int | 0 <= i < |run|
      ensures 0 <= run[i] < |pt.code|
      ensures Safe(pt, run[i])
    {
      CheckerSound(pt, run, i);
    }
  }

  // Exactly when the checker is sound: no run meets an unguarded instruction.
  lemma SoundExactly(pt: Proto)
    requires Accepted(pt)
    ensures (forall run :: IsRun(pt, run) ==> Confined(pt, run) && SafeAlong(pt, run))
            <==> (forall run :: IsRun(pt, run) ==> GuardedAlong(pt, run))
  {
    hide Accepted, Safe, Guarded, Confined;
    ConfinedExactly(pt);
    if forall run :: IsRun(pt, run) ==> GuardedAlong(pt, run) {
      forall run | IsRun(pt, run)
        ensures SafeAlong(pt, run)
      {
        assert GuardedAlong(pt, run);
        GuardedIsSafe(pt, run);
      }
    }
  }

  // Without the guard soundness fails: the skip of LOADBOOL enters a count that nobody has checked.
  lemma UnguardedCounterexample() returns (pt: Proto, run: seq<int>)
    ensures Accepted(pt) && IsRun(pt, run)
    ensures var pc := run[|run| - 1]; 0 <= pc < |pt.code| && !Safe(pt, pc)
  {
    hide Accepted, Safe;
    pt, run := Unguarded(), [0, 2];
    UnguardedAccepted();
    UnguardedUnsafe();
  }

  function Unguarded(): Proto {
    var code := [ABC(OP_LOADBOOL, 0, 1, 1), ABC(OP_SETLIST, 0, 1, 0), ABC(OP_MOVE, 200, 0, 0), ABC(OP_RETURN, 0, 1, 0)];
    Proto(code, [], [], 0, 2, false, false, 0, 0)
  }

  lemma UnguardedChecked(pc: nat)
    requires pc < 4 && pc != 2
    ensures CheckAt(Unguarded(), pc)
  {
  }

  lemma UnguardedAccepted()
    ensures Accepted(Unguarded())
  {
    hide CheckAt;
    var pt := Unguarded();
    assert LongSetList(pt.code[1]) && !IsCount(pt.code, 1) && IsCount(pt.code, 2);
    forall pc: nat | pc < |pt.code| && !IsCount(pt.code, pc)
      ensures CheckAt(pt, pc)
    {
      UnguardedChecked(pc);
    }
  }

  lemma UnguardedUnsafe()
    ensures !Safe(Unguarded(), 2)
  {
    assert Touches(Unguarded().code[2], 200);
  }

  // ---- the open top ----

  // Instructions after which the top of the stack marks the last of several results
  predicate LeavesOpen(i: Instruction) {
    || (i.op == OP_CALL && i.c == 0)
    || i.op == OP_TAILCALL            // when it called a C function
    || (i.op == OP_VARARG && i.b == 0)
  }

  predicate ResetsTop(i: Instruction) {
    (i.op == OP_CALL && i.c != 0) || (i.op == OP_SETLIST && i.b == 0) || i.op == OP_TFORLOOP
  }

  // Is the top open when the run comes to its last position?
  ghost predicate OpenAfter(pt: Proto, run: seq<int>)
    requires forall i :: 0 <= i < |run| - 1 ==> 0 <= run[i] < |pt.code|
    decreases |run|
  {
    |run| > 1 &&
    var i := pt.code[run[|run| - 2]];
    LeavesOpen(i) || (!ResetsTop(i) && OpenAfter(pt, run[..|run| - 1]))
  }

  // What luaV_execute asserts before each instruction: the top is where the frame ends, or the
  // instruction is one that uses an open top.
  ghost predicate Disciplined(pt: Proto, run: seq<int>)
    requires IsRun(pt, run)
  {
    var pc := run[|run| - 1];
    OpenAfter(pt, run) ==> 0 <= pc < |pt.code| && CheckOpenOp(pt.code[pc])
  }

  // After a TAILCALL that came back from a C function, the next instruction uses the open top.
  ghost predicate TailCallFollowed(pt: Proto, run: seq<int>) {
    |run| > 0 &&
    var pc := run[|run| - 1];
    0 <= pc < |pt.code| && pt.code[pc].op == OP_TAILCALL ==> CheckNextIsOpen(pt, pc)
  }

  lemma {:induction false} OpenRun(pt: Proto, run: seq<int>)
    requires Accepted(pt) && IsRun(pt, run) && GuardedAlong(pt, run)
    requires forall r :: IsRun(pt, r) && |r| < |run| ==> TailCallFollowed(pt, r)
    ensures Disciplined(pt, run)
    decreases |run|
  {
    hide Accepted, Guarded, Disciplined, TailCallFollowed, Moves;
    if |run| == 1 {
      EntryDisciplined(pt, run);
    } else {
      var before := run[..|run| - 1];
      RunPrefix(pt, run, |run| - 1);
      OpenRun(pt, before);
      OpenLast(pt, before, run[|run| - 1]);
      assert run == before + [run[|run| - 1]];
    }
  }

  lemma EntryDisciplined(pt: Proto, run: seq<int>)
    requires IsRun(pt, run) && |run| == 1
    ensures Disciplined(pt, run)
  {
  }

  lemma OpenLast(pt: Proto, before: seq<int>, next: int)
    requires Accepted(pt) && IsRun(pt, before) && IsRun(pt, before + [next]) && GuardedAlong(pt, before)
    requires Disciplined(pt, before) && TailCallFollowed(pt, before)
    ensures Disciplined(pt, before + [next])
  {
    var run := before + [next];
    assert GuardedAlong(pt, before[..|before| - 1]);
    GuardedRunConfined(pt, before);
    assert run[|before| - 1] == before[|before| - 1] && run[|before|] == next;
    OpenStep(pt, before, next);
  }

  lemma OpenStep(pt: Proto, before: seq<int>, next: int)
    requires Accepted(pt) && IsRun(pt, before) && Confined(pt, before) && Disciplined(pt, before) &&
             TailCallFollowed(pt, before)
    requires Moves(pt, before[|before| - 1], next)
    ensures OpenAfter(pt, before + [next]) ==> 0 <= next < |pt.code| && CheckOpenOp(pt.code[next])
  {
    var pc := before[|before| - 1];
    var i := pt.code[pc];
    assert CheckAt(pt, pc);
    assert (before + [next])[..|before|] == before;
    if LeavesOpen(i) {
      assert next == pc + 1 && CheckNextIsOpen(pt, pc);
    }
  }

  // Exactly when the discipline holds on every run.  For calls and varargs the checker sees to it, but it
  // lets a TAILCALL through whose C promises a fixed number of results.
  lemma DisciplineExactly(pt: Proto)
    requires Accepted(pt) && forall run :: IsRun(pt, run) ==> GuardedAlong(pt, run)
    ensures (forall run :: IsRun(pt, run) ==> Disciplined(pt, run)) <==>
            (forall run :: IsRun(pt, run) ==> TailCallFollowed(pt, run))
  {
    hide Accepted, Guarded;
    if forall run :: IsRun(pt, run) ==> TailCallFollowed(pt, run) {
      forall run | IsRun(pt, run)
        ensures Disciplined(pt, run)
      {
        OpenRun(pt, run);
      }
    }
    if forall run :: IsRun(pt, run) ==> Disciplined(pt, run) {
      forall run | IsRun(pt, run)
        ensures TailCallFollowed(pt, run)
      {
        DisciplineFollows(pt, run);
      }
    }
  }

  lemma DisciplineFollows(pt: Proto, run: seq<int>)
    requires IsRun(pt, run) && forall r :: IsRun(pt, r) ==> Disciplined(pt, r)
    ensures TailCallFollowed(pt, run)
  {
    hide CheckOpenOp;
    var pc := run[|run| - 1];
    if 0 <= pc < |pt.code| && pt.code[pc].op == OP_TAILCALL {
      var longer := run + [pc + 1];
      assert longer[..|run|] == run && longer[|run|] == pc + 1;
      assert IsRun(pt, longer);
      assert Disciplined(pt, longer) && OpenAfter(pt, longer);
    }
  }

  lemma DisciplineCounterexample() returns (pt: Proto, run: seq<int>)
    ensures Accepted(pt) && (forall r :: IsRun(pt, r) ==> GuardedAlong(pt, r))
    ensures IsRun(pt, run) && !Disciplined(pt, run)
  {
    pt, run := Undisciplined(), [0, 1];
    UndisciplinedAccepted();
    hide Accepted, CheckOpenOp;
    assert run[..1] == [0] && OpenAfter(pt, run);
    assert !CheckOpenOp(pt.code[1]) by {
      UndisciplinedReturn();
    }
  }

  function Undisciplined(): Proto {
    Proto([ABC(OP_TAILCALL, 0, 1, 2), ABC(OP_RETURN, 0, 1, 0)], [], [], 0, 2, false, false, 0, 0)
  }

  lemma UndisciplinedAccepted()
    ensures Accepted(Undisciplined())
  {
  }

  lemma UndisciplinedReturn()
    ensures !CheckOpenOp(Undisciplined().code[1])
  {
  }

  // ---- the machine of the boolean fragment ----

  // A step of the machine stays on checked instructions and changes only registers that the instruction
  // names.  The machine takes a test and its jump as two steps.
  lemma StepStays(pt: Proto, w: World, cfg: Config, next: Config)
    requires Accepted(pt) && 0 <= cfg.pc < |pt.code| && !IsCount(pt.code, cfg.pc)
    requires Guarded(pt, cfg.pc) && Step(w, pt.code, cfg) == Goes(next)
    ensures 0 <= next.pc < |pt.code| && !IsCount(pt.code, next.pc)
  {
    StepMoves(pt, w, cfg, next);
    if TestTMode(pt.code[cfg.pc].op) && next.pc == cfg.pc + 1 {
      assert CheckAt(pt, cfg.pc);
      assert !LongSetList(pt.code[cfg.pc]);
    } else {
      hide Step, Accepted;
      MoveStays(pt, cfg.pc, next.pc);
    }
  }

  lemma StepMoves(pt: Proto, w: World, cfg: Config, next: Config)
    requires 0 <= cfg.pc < |pt.code| && Step(w, pt.code, cfg) == Goes(next)
    ensures Moves(pt, cfg.pc, next.pc) || (TestTMode(pt.code[cfg.pc].op) && next.pc == cfg.pc + 1)
    ensures forall reg :: 0 <= reg < 256 && next.regs[reg] != cfg.regs[reg] ==> Touches(pt.code[cfg.pc], reg)
  {
  }

  lemma {:induction false} MachineConfined(pt: Proto, w: World, n: nat, cfg: Config, last: Config)
    requires Accepted(pt) && ShortSetLists(pt.code)
    requires 0 <= cfg.pc < |pt.code| && !IsCount(pt.code, cfg.pc) && Steps(w, pt.code, n, cfg) == Goes(last)
    ensures 0 <= last.pc < |pt.code| && Safe(pt, last.pc)
    decreases n
  {
    if n == 0 {
      assert Guarded(pt, cfg.pc);
      AcceptedIsSafe(pt, cfg.pc);
    } else {
      var next := Step(w, pt.code, cfg).config;
      StepStays(pt, w, cfg, next);
      MachineConfined(pt, w, n - 1, next, last);
    }
  }
}
