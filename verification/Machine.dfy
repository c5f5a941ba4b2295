// The part of the virtual machine that the boolean-expression fragment uses, one instruction at a time,
// as lopcodes.h describes the opcodes and lvm.c executes them.
module Machine {
  import opened Instructions

  // Any value other than nil and the booleans counts as true; Other carries its identity.
  datatype Value = Nil | Boolean(b: bool) | Other(id: int)

  type Regs = s: seq<Value> | |s| == 256 witness seq(256, _ => Nil)

  // What the code cannot change: upvalues, constants, and the results of comparisons.
  datatype World = World(upvalue: nat -> Value, constant: nat -> Value,
                         eq: (Value, Value) -> bool, lt: (Value, Value) -> bool, le: (Value, Value) -> bool)

  datatype Config = Config(pc: int, regs: Regs)
  datatype Next = Goes(config: Config) | Stops

  predicate IsFalse(v: Value) {
    v == Nil || v == Boolean(false)
  }

  // l_isfalse as the C integer that TEST and TESTSET compare with C
  function FalseBit(v: Value): nat {
    if IsFalse(v) then 1 else 0
  }

  function RK(w: World, r: Regs, x: Arg9): Value {
    if IsK(x) then w.constant(IndexK(x)) else r[x]
  }

  function Compare(w: World, op: OpCode, x: Value, y: Value): bool
    requires IsComparison(op)
  {
    match op
    case OP_EQ => w.eq(x, y)
    case OP_LT => w.lt(x, y)
    case OP_LE => w.le(x, y)
  }

  // Does the comparison i accept, that is, does the jump after it take place?
  predicate Accepts(w: World, i: Instruction, r: Regs)
    requires IsComparison(i.op)
  {
    (if Compare(w, i.op, RK(w, r, i.b), RK(w, r, i.c)) then 1 else 0) == i.a
  }

  function Step(w: World, code: seq<Instruction>, cfg: Config): Next {
    var Config(pc, r) := cfg;
    if !(0 <= pc < |code|) then Stops
    else
      var i := code[pc];
      match i.op
      case OP_MOVE => Goes(Config(pc + 1, r[i.a := RK(w, r, i.b)]))
      case OP_LOADBOOL => Goes(Config(if i.c != 0 then pc + 2 else pc + 1, r[i.a := Boolean(i.b != 0)]))
      case OP_GETUPVAL => Goes(Config(pc + 1, r[i.a := w.upvalue(i.b)]))
      case OP_NOT => Goes(Config(pc + 1, r[i.a := Boolean(IsFalse(RK(w, r, i.b)))]))
      case OP_JMP => Goes(Config(pc + 1 + SBx(i), r))
      case OP_EQ | OP_LT | OP_LE => Goes(Config(if Accepts(w, i, r) then pc + 1 else pc + 2, r))
      case OP_TEST => Goes(Config(if FalseBit(r[i.a]) != i.c then pc + 1 else pc + 2, r))
      case OP_TESTSET =>
        var v := RK(w, r, i.b);
        Goes(if FalseBit(v) != i.c then Config(pc + 1, r[i.a := v]) else Config(pc + 2, r))
      case _ => Stops
  }

  function Steps(w: World, code: seq<Instruction>, n: nat, cfg: Config): Next {
    if n == 0 then Goes(cfg)
    else
      match Step(w, code, cfg)
      case Stops => Stops
      case Goes(next) => Steps(w, code, n - 1, next)
  }

  ghost predicate Reaches(w: World, code: seq<Instruction>, from: Config, to: Config) {
    exists n: nat :: Steps(w, code, n, from) == Goes(to)
  }

  lemma ReachesSelf(w: World, code: seq<Instruction>, c: Config)
    ensures Reaches(w, code, c, c)
  {
    assert Steps(w, code, 0, c) == Goes(c);
  }

  lemma {:induction false} StepsCompose(w: World, code: seq<Instruction>, m: nat, n: nat, c0: Config, c1: Config)
    requires Steps(w, code, m, c0) == Goes(c1)
    ensures Steps(w, code, m + n, c0) == Steps(w, code, n, c1)
  {
    if m > 0 {
      StepsCompose(w, code, m - 1, n, Step(w, code, c0).config, c1);
    }
  }

  lemma ReachesTrans(w: World, code: seq<Instruction>, c0: Config, c1: Config, c2: Config)
    requires Reaches(w, code, c0, c1) && Reaches(w, code, c1, c2)
    ensures Reaches(w, code, c0, c2)
  {
    var m: nat :| Steps(w, code, m, c0) == Goes(c1);
    var n: nat :| Steps(w, code, n, c1) == Goes(c2);
    StepsCompose(w, code, m, n, c0, c1);
  }

  lemma ReachesStep(w: World, code: seq<Instruction>, c0: Config, c1: Config, c2: Config)
    requires Reaches(w, code, c0, c1) && Step(w, code, c1) == Goes(c2)
    ensures Reaches(w, code, c0, c2)
  {
    assert Steps(w, code, 1, c1) == Goes(c2) by {
      assert Steps(w, code, 0, c2) == Goes(c2);
    }
    ReachesTrans(w, code, c0, c1, c2);
  }

  lemma ReachesJump(w: World, code: seq<Instruction>, from: Config, pc: nat, r: Regs, target: int)
    requires Reaches(w, code, from, Config(pc, r))
    requires pc < |code| && code[pc].op == OP_JMP && pc + 1 + SBx(code[pc]) == target
    ensures Reaches(w, code, from, Config(target, r))
  {
    ReachesStep(w, code, from, Config(pc, r), Config(target, r));
  }

  lemma ReachesMove(w: World, code: seq<Instruction>, from: Config, pc: nat, r: Regs)
    requires Reaches(w, code, from, Config(pc, r))
    requires pc < |code| && code[pc].op == OP_MOVE && code[pc].b < 256
    ensures Reaches(w, code, from, Config(pc + 1, r[code[pc].a := r[code[pc].b]]))
  {
    ReachesStep(w, code, from, Config(pc, r), Config(pc + 1, r[code[pc].a := r[code[pc].b]]));
  }

  lemma ReachesNot(w: World, code: seq<Instruction>, from: Config, pc: nat, r: Regs)
    requires Reaches(w, code, from, Config(pc, r))
    requires pc < |code| && code[pc].op == OP_NOT && code[pc].b < 256
    ensures Reaches(w, code, from, Config(pc + 1, r[code[pc].a := Boolean(IsFalse(r[code[pc].b]))]))
  {
    ReachesStep(w, code, from, Config(pc, r), Config(pc + 1, r[code[pc].a := Boolean(IsFalse(r[code[pc].b]))]));
  }

  lemma ReachesGetUpval(w: World, code: seq<Instruction>, from: Config, pc: nat, r: Regs)
    requires Reaches(w, code, from, Config(pc, r))
    requires pc < |code| && code[pc].op == OP_GETUPVAL
    ensures Reaches(w, code, from, Config(pc + 1, r[code[pc].a := w.upvalue(code[pc].b)]))
  {
    ReachesStep(w, code, from, Config(pc, r), Config(pc + 1, r[code[pc].a := w.upvalue(code[pc].b)]));
  }

  lemma ReachesLoadBool(w: World, code: seq<Instruction>, from: Config, pc: nat, r: Regs)
    requires Reaches(w, code, from, Config(pc, r))
    requires pc < |code| && code[pc].op == OP_LOADBOOL
    ensures Reaches(w, code, from, Config(if code[pc].c != 0 then pc + 2
            else pc + 1, r[code[pc].a := Boolean(code[pc].b != 0)]))
  {
    ReachesStep(w, code, from, Config(pc, r),
                Config(if code[pc].c != 0 then pc + 2 else pc + 1, r[code[pc].a := Boolean(code[pc].b != 0)]));
  }

  lemma ReachesComparison(w: World, code: seq<Instruction>, from: Config, pc: nat, r: Regs)
    requires Reaches(w, code, from, Config(pc, r))
    requires pc < |code| && IsComparison(code[pc].op)
    ensures Reaches(w, code, from, Config(if Accepts(w, code[pc], r) then pc + 1 else pc + 2, r))
  {
    ReachesStep(w, code, from, Config(pc, r), Config(if Accepts(w, code[pc], r) then pc + 1 else pc + 2, r));
  }

  lemma ReachesTest(w: World, code: seq<Instruction>, from: Config, pc: nat, r: Regs)
    requires Reaches(w, code, from, Config(pc, r))
    requires pc < |code| && code[pc].op == OP_TEST
    ensures Reaches(w, code, from, Config(if FalseBit(r[code[pc].a]) != code[pc].c then pc + 1 else pc + 2, r))
  {
    ReachesStep(w, code, from, Config(pc, r), Config(if FalseBit(r[code[pc].a]) != code[pc].c then pc + 1
      else pc + 2, r));
  }

  lemma ReachesTestSet(w: World, code: seq<Instruction>, from: Config, pc: nat, r: Regs)
    requires Reaches(w, code, from, Config(pc, r))
    requires pc < |code| && code[pc].op == OP_TESTSET && code[pc].b < 256
    ensures FalseBit(r[code[pc].b]) != code[pc].c ==>
            Reaches(w, code, from, Config(pc + 1, r[code[pc].a := r[code[pc].b]]))
    ensures FalseBit(r[code[pc].b]) == code[pc].c ==> Reaches(w, code, from, Config(pc + 2, r))
  {
    if FalseBit(r[code[pc].b]) != code[pc].c {
      ReachesStep(w, code, from, Config(pc, r), Config(pc + 1, r[code[pc].a := r[code[pc].b]]));
    } else {
      ReachesStep(w, code, from, Config(pc, r), Config(pc + 2, r));
    }
  }
}
