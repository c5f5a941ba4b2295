// Virtual-machine instructions: fields, limits and the mode table of the opcodes.
// An instruction word is represented by its decoded fields.  In the word, B and C are the two halves of
// Bx; every opcode uses either the pair or the whole, so here they are separate components.
module Instructions {

  const NO_REG := 255          // invalid register that fits in the 8 bits of A
  const MAXARG_SBX := 131071
  const MAXSTACK := 250        // maximum stack of a Lua function
  const BITRK := 256           // operands from here on denote constants

  type Arg8 = x: nat | x < 256
  type Arg9 = x: nat | x < 512
  type Arg18 = x: nat | x < 262144

  // OP_UNDEFINED stands for the six-bit values that are not below NUM_OPCODES.
  datatype OpCode =
    | OP_MOVE | OP_LOADK | OP_LOADBOOL | OP_LOADNIL | OP_GETUPVAL
    | OP_GETGLOBAL | OP_GETTABLE | OP_SETGLOBAL | OP_SETUPVAL | OP_SETTABLE
    | OP_NEWTABLE | OP_SELF | OP_ADD | OP_SUB | OP_MUL | OP_DIV | OP_MOD | OP_POW
    | OP_UNM | OP_NOT | OP_LEN | OP_CONCAT | OP_JMP | OP_EQ | OP_LT | OP_LE
    | OP_TEST | OP_TESTSET | OP_CALL | OP_TAILCALL | OP_RETURN | OP_FORLOOP
    | OP_FORPREP | OP_TFORLOOP | OP_SETLIST | OP_CLOSE | OP_CLOSURE | OP_VARARG
    | OP_UNDEFINED

  datatype Instruction = Instruction(op: OpCode, a: Arg8, b: Arg9, c: Arg9, bx: Arg18)

  datatype OpMode = IABC | IABx | IAsBx
  datatype OpArgMask = ArgN | ArgU | ArgR | ArgK

  function ABC(op: OpCode, a: Arg8, b: Arg9, c: Arg9): Instruction {
    Instruction(op, a, b, c, 0)
  }

  // A signed argument is stored in excess K, K being MAXARG_sBx.
  function SBx(i: Instruction): int {
    i.bx - MAXARG_SBX
  }

  // SETARG_sBx: the excess-K value is masked to 18 bits.
  function WithSBx(i: Instruction, v: int): (r: Instruction)
    ensures r.op == i.op && r.a == i.a
    ensures -MAXARG_SBX <= v <= MAXARG_SBX ==> SBx(r) == v
  {
    var u := v + MAXARG_SBX;
    i.(bx := if 0 <= u < 262144 then u else u % 262144)
  }

  // A jump as luaK_jump emits it: the link marks the end of a list.
  function MakeJump(): Instruction {
    WithSBx(ABC(OP_JMP, 0, 0, 0), -1)
  }

  predicate IsK(x: Arg9) {
    x >= BITRK
  }

  function IndexK(x: Arg9): nat
    requires IsK(x)
  {
    x - BITRK
  }

  function GetOpMode(op: OpCode): OpMode {
    match op
    case OP_LOADK | OP_GETGLOBAL | OP_SETGLOBAL | OP_CLOSURE => IABx
    case OP_JMP | OP_FORLOOP | OP_FORPREP => IAsBx
    case _ => IABC
  }

  function GetBMode(op: OpCode): OpArgMask {
    match op
    case OP_MOVE | OP_LOADNIL | OP_GETTABLE | OP_SELF | OP_UNM | OP_NOT | OP_LEN | OP_CONCAT
       | OP_JMP | OP_TEST | OP_TESTSET | OP_FORLOOP | OP_FORPREP => ArgR
    case OP_LOADK | OP_GETGLOBAL | OP_SETGLOBAL | OP_SETTABLE | OP_ADD | OP_SUB | OP_MUL
       | OP_DIV | OP_MOD | OP_POW | OP_EQ | OP_LT | OP_LE => ArgK
    case OP_TFORLOOP | OP_CLOSE => ArgN
    case _ => ArgU
  }

  function GetCMode(op: OpCode): OpArgMask {
    match op
    case OP_LOADBOOL | OP_NEWTABLE | OP_TEST | OP_TESTSET | OP_CALL | OP_TAILCALL
       | OP_TFORLOOP | OP_SETLIST => ArgU
    case OP_GETTABLE | OP_SETTABLE | OP_SELF | OP_ADD | OP_SUB | OP_MUL | OP_DIV | OP_MOD
       | OP_POW | OP_EQ | OP_LT | OP_LE => ArgK
    case OP_CONCAT => ArgR
    case _ => ArgN
  }

  // testAMode: the instruction sets register A.
  predicate TestAMode(op: OpCode) {
    match op
    case OP_SETGLOBAL | OP_SETUPVAL | OP_SETTABLE | OP_JMP | OP_EQ | OP_LT | OP_LE | OP_RETURN
       | OP_TFORLOOP | OP_SETLIST | OP_CLOSE | OP_UNDEFINED => false
    case _ => true
  }

  // testTMode: the instruction is a test; the next one must be a jump.
  predicate TestTMode(op: OpCode) {
    op == OP_EQ || op == OP_LT || op == OP_LE || op == OP_TEST || op == OP_TESTSET || op == OP_TFORLOOP
  }

  predicate IsComparison(op: OpCode) {
    op == OP_EQ || op == OP_LT || op == OP_LE
  }
}
