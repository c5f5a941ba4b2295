// The registers an instruction writes (lvm.c), and how far the checker's search for the last change of a register
// agrees with them.
module LastWrites {
  import opened Instructions
  import opened Machine
  import opened Checker

  // The interpreter writes the register, or leaves a value there that is of no further use: calls overwrite what is
  // above them, and a concatenation works in its operands.
  predicate Writes(i: Instruction, reg: nat) {
    match i.op
    case OP_MOVE | OP_LOADK | OP_LOADBOOL | OP_GETUPVAL | OP_GETGLOBAL | OP_GETTABLE | OP_NEWTABLE
       | OP_ADD | OP_SUB | OP_MUL | OP_DIV | OP_MOD | OP_POW | OP_UNM | OP_NOT | OP_LEN | OP_TESTSET | OP_CLOSURE =>
      reg == i.a
    case OP_LOADNIL => i.a <= reg <= i.b || reg == i.b
    case OP_SELF => reg == i.a || reg == i.a + 1
    case OP_CONCAT => reg == i.a || i.b <= reg <= i.c
    case OP_CALL | OP_TAILCALL => i.a <= reg
    case OP_FORLOOP => reg == i.a || reg == i.a + 3
    case OP_FORPREP => i.a <= reg <= i.a + 2
    case OP_TFORLOOP => i.a + 2 <= reg
    case OP_VARARG => if i.b == 0 then i.a <= reg else i.a <= reg < i.a + i.b - 1
    case OP_SETGLOBAL | OP_SETUPVAL | OP_SETTABLE | OP_JMP | OP_EQ | OP_LT | OP_LE | OP_TEST | OP_RETURN | OP_SETLIST
       | OP_CLOSE | OP_UNDEFINED => false
  }

  // Instructions of which the search knows only register A
  predicate OnlyFirst(op: OpCode) {
    op == OP_TEST || op == OP_CONCAT || op == OP_FORLOOP || op == OP_FORPREP || op == OP_VARARG
  }

  // The search takes an instruction for a change of a register exactly when the interpreter writes it, except for
  // those five, where it looks at register A only.
  lemma ChangesExactly(i: Instruction, reg: nat)
    requires i.op == OP_LOADNIL ==> i.a <= i.b
    ensures Changes(i, reg) <==> if OnlyFirst(i.op) then reg == i.a else Writes(i, reg)
  {
  }

  // So a varargs expression hides the last change of all its registers but the first.
  lemma MissedChange()
    ensures var i := ABC(OP_VARARG, 0, 3, 0); Writes(i, 1) && !Changes(i, 1)
  {
  }

  // What the machine of the boolean fragment changes is written.
  lemma StepWrites(w: World, code: seq<Instruction>, cfg: Config, next: Config, reg: nat)
    requires 0 <= cfg.pc < |code| && Step(w, code, cfg) == Goes(next) && reg < 256
    requires next.regs[reg] != cfg.regs[reg]
    ensures Writes(code[cfg.pc], reg)
  {
  }
}
