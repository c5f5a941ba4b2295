// What partially patched code means.
//
// While an expression is being compiled some jumps have no target yet and some TESTSETs have no target
// register.  A completion of such code is any program that agrees with it wherever it is already decided.
// A claim about a piece of partial code is a claim about the runs of all its completions, so it survives
// everything the generator does later: patching only makes the set of completions smaller.
module Meaning {
  import opened Instructions
  import opened JumpLists
  import opened Machine

  // ---- source expressions ----

  datatype Relation = Equal | NotEqual | Less | LessEqual | Greater | GreaterEqual

  datatype Expr =
    | Local(reg: nat)
    | Upvalue(index: nat)
    | Paren(e: Expr)
    | Not(e: Expr)
    | And(l: Expr, r: Expr)
    | Or(l: Expr, r: Expr)
    | Rel(rel: Relation, l: Expr, r: Expr)

  predicate WellScoped(a: Expr, nactvar: nat, nups: nat) {
    match a
    case Local(reg) => reg < nactvar
    case Upvalue(index) => index < nups
    case Paren(e) => WellScoped(e, nactvar, nups)
    case Not(e) => WellScoped(e, nactvar, nups)
    case And(l, r) => WellScoped(l, nactvar, nups) && WellScoped(r, nactvar, nups)
    case Or(l, r) => WellScoped(l, nactvar, nups) && WellScoped(r, nactvar, nups)
    case Rel(_, l, r) => WellScoped(l, nactvar, nups) && WellScoped(r, nactvar, nups)
  }

  function Relate(w: World, rel: Relation, x: Value, y: Value): bool {
    match rel
    case Equal => w.eq(x, y)
    case NotEqual => !w.eq(x, y)
    case Less => w.lt(x, y)
    case LessEqual => w.le(x, y)
    case Greater => w.lt(y, x)
    case GreaterEqual => w.le(y, x)
  }

  // The language's own meaning of an expression, with short-circuit `and' and `or'.
  function Eval(w: World, r: Regs, a: Expr): Value {
    match a
    case Local(reg) => if reg < 256 then r[reg] else Nil
    case Upvalue(index) => w.upvalue(index)
    case Paren(e) => Eval(w, r, e)
    case Not(e) => Boolean(IsFalse(Eval(w, r, e)))
    case And(l, r') => var v := Eval(w, r, l); if IsFalse(v) then v else Eval(w, r, r')
    case Or(l, r') => var v := Eval(w, r, l); if IsFalse(v) then Eval(w, r, r') else v
    case Rel(rel, l, r') => Boolean(Relate(w, rel, Eval(w, r, l), Eval(w, r, r')))
  }

  // Only nil and false count as false.
  lemma Truth(w: World, r: Regs, a: Expr, b: Expr)
    ensures var v := Eval(w, r, a);
            && Eval(w, r, Not(a)) == Boolean(v in {Nil, Boolean(false)})
            && Eval(w, r, And(a, b)) == (if v in {Nil, Boolean(false)} then v else Eval(w, r, b))
            && Eval(w, r, Or(a, b)) == (if v in {Nil, Boolean(false)} then Eval(w, r, b) else v)
  {
  }

  // ---- partial code and its completions ----

  // open: jumps on the lists of expressions under construction; here: jumps pending to the next position.
  datatype Snap = Snap(code: seq<Instruction>, open: set<nat>, here: seq<nat>)

  // May a completion of s have x at position i?
  ghost predicate Allows(s: Snap, i: nat, x: Instruction)
    requires i < |s.code|
  {
    if i in s.open || i in s.here then x.op == OP_JMP
    else if s.code[i].op == OP_TESTSET && i + 1 in s.here then x == ResolveTest(s.code[i], NO_REG)
    else if s.code[i].op == OP_TESTSET && i + 1 in s.open then
      x == ResolveTest(s.code[i], NO_REG) || (x.op == OP_TESTSET && x.b == s.code[i].b && x.c == s.code[i].c)
    else x == s.code[i]
  }

  ghost predicate Fits(s: Snap, code: seq<Instruction>) {
    && |s.code| <= |code|
    && forall i {:trigger code[i]} :: 0 <= i < |s.code| ==> Allows(s, i, code[i])
  }

  // Every completion of s1 is one of s0.
  ghost predicate Narrows(s0: Snap, s1: Snap) {
    && |s0.code| <= |s1.code|
    && forall i: nat, x {:trigger Allows(s1, i, x)} {:trigger Allows(s0, i, x)} ::
         i < |s0.code| && Allows(s1, i, x) ==> Allows(s0, i, x)
  }

  lemma NarrowsFits(s0: Snap, s1: Snap, code: seq<Instruction>)
    requires Narrows(s0, s1) && Fits(s1, code)
    ensures Fits(s0, code)
  {
    forall i | 0 <= i < |s0.code|
      ensures Allows(s0, i, code[i])
    {
      assert Allows(s1, i, code[i]);
    }
  }

  // ---- the claim about a compiled expression ----

  // Where the value is when control arrives just past the committed code.
  datatype Source =
    | InReg(reg: nat)                // VLOCAL, VNONRELOC
    | InUpvalue(index: nat)          // VUPVAL
    | Computed(i: Instruction)       // VRELOCABLE: the next instruction computes it
    | Tested(i: Instruction)         // VJMP: the next instruction accepts iff it is true
    | Exactly(b: bool)               // a boolean, known from the path
    | Known(b: bool)                 // only its truth is known, from the path

  predicate Holds(w: World, src: Source, r: Regs, v: Value) {
    match src
    case InReg(reg) => reg < 256 && r[reg] == v
    case InUpvalue(index) => w.upvalue(index) == v
    case Computed(i) =>
      (i.op == OP_NOT && i.b < 256 && v == Boolean(IsFalse(r[i.b]))) || (i.op == OP_GETUPVAL && v == w.upvalue(i.b))
    case Tested(i) => IsComparison(i.op) && i.a <= 1 && v == Boolean(Accepts(w, i, r))
    case Exactly(b) => v == Boolean(b)
    case Known(b) => IsFalse(v) == !b
  }

  // Registers below n, except x and y, are unchanged.
  predicate Agree(r: Regs, r': Regs, n: nat, x: nat, y: nat) {
    forall i :: 0 <= i < n && i < 256 && i != x && i != y ==> r'[i] == r[i]
  }

  // The claim: from each of the entries, the code leaves the value of a, touching no register below n
  // other than x.
  datatype Claim = Claim(entries: set<nat>, n: nat, x: nat, a: Expr)

  // Control is at a jump of a t-list (sense true) or of an f-list (sense false).
  ghost predicate LeavesBy(code: seq<Instruction>, s: Snap, p: nat, r: Regs, r': Regs, c: Claim, v: Value,
                           sense: bool) {
    && IsFalse(v) == !sense
    && if HasValue(s.code, p) then
         && p <= |code|
         && r'[code[p - 1].a] == v
         && Agree(r, r', c.n, c.x, if code[p - 1].op == OP_TESTSET then code[p - 1].a else c.x)
       else
         v == Boolean(sense) && Agree(r, r', c.n, c.x, c.x)
  }

  ghost predicate ExitAt(w: World, code: seq<Instruction>, s: Snap, p: nat, r: Regs, r': Regs, c: Claim,
                         src: Source, ts: seq<nat>, fs: seq<nat>)
  {
    var v := Eval(w, r, c.a);
    || ((p == |s.code| || p in s.here) && Holds(w, src, r', v) && Agree(r, r', c.n, c.x, c.x))
    || (p in ts && LeavesBy(code, s, p, r, r', c, v, true))
    || (p in fs && LeavesBy(code, s, p, r, r', c, v, false))
  }

  ghost predicate Exits(w: World, code: seq<Instruction>, s: Snap, p: nat, r: Regs, c: Claim,
                        src: Source, ts: seq<nat>, fs: seq<nat>)
  {
    exists p': nat, r': Regs ::
      Reaches(w, code, Config(p, r), Config(p', r')) && ExitAt(w, code, s, p', r, r', c, src, ts, fs)
  }

  // In every completion, every run from an entry leaves the expression properly: past its end with the
  // value where src says, or at a jump of ts (the value is true) or of fs (it is false).
  ghost predicate Sem(s: Snap, c: Claim, src: Source, ts: seq<nat>, fs: seq<nat>) {
    forall w: World, code, p: nat, r: Regs {:trigger Exits(w, code, s, p, r, c, src, ts, fs)} ::
      Fits(s, code) && p in c.entries ==> Exits(w, code, s, p, r, c, src, ts, fs)
  }

  lemma Exit(w: World, code: seq<Instruction>, s: Snap, p: nat, r: Regs, c: Claim,
             src: Source, ts: seq<nat>, fs: seq<nat>) returns (p': nat, r': Regs)
    requires Sem(s, c, src, ts, fs) && Fits(s, code) && p in c.entries
    ensures Reaches(w, code, Config(p, r), Config(p', r'))
    ensures ExitAt(w, code, s, p', r, r', c, src, ts, fs)
  {
    assert Exits(w, code, s, p, r, c, src, ts, fs);
    p', r' :| Reaches(w, code, Config(p, r), Config(p', r')) && ExitAt(w, code, s, p', r, r', c, src, ts, fs);
  }

  // Jumps on the lists of an expression are open jumps of s.
  ghost predicate Lists(s: Snap, ts: seq<nat>, fs: seq<nat>) {
    && (forall j :: j in ts ==> j in s.open && j < |s.code|)
    && (forall j :: j in fs ==> j in s.open && j < |s.code|)
    && (forall j :: j in ts ==> j !in fs)
  }

  // Pending and open jumps are distinct jumps of the code, every test is followed by its jump, and
  // TESTSET tests a register.
  ghost predicate Tidy(s: Snap) {
    && (forall j :: j in s.here ==> j < |s.code| && s.code[j].op == OP_JMP && j !in s.open)
    && (forall j :: j in s.open && j < |s.code| ==> s.code[j].op == OP_JMP)
    && (forall i :: 0 <= i < |s.code| && TestTMode(s.code[i].op) ==> i + 1 < |s.code|)
    && (forall i :: 0 <= i < |s.code| && s.code[i].op == OP_TESTSET ==> s.code[i].b < 256)
  }

  // Every jump of js is near enough to target for its offset to fit in sBx.
  predicate Near(js: seq<nat>, target: int) {
    forall j :: j in js ==> -MAXARG_SBX <= target - (j + 1) <= MAXARG_SBX
  }

  // ---- emission ----

  // dischargejpc
  function Discharged(s: Snap): Snap {
    Snap(Patch(s.code, s.here, |s.code|, NO_REG, |s.code|), s.open, [])
  }

  lemma DischargeSem(s: Snap, c: Claim, src: Source, ts: seq<nat>, fs: seq<nat>)
    requires Tidy(s) && Lists(s, ts, fs) && Near(s.here, |s.code|) && Sem(s, c, src, ts, fs)
    ensures Narrows(s, Discharged(s))
    ensures Sem(Discharged(s), c, src, ts, fs)
  {
    var s' := Discharged(s);
    forall w: World, code, p: nat, r: Regs | Fits(s', code) && p in c.entries
      ensures Exits(w, code, s', p, r, c, src, ts, fs)
    {
      NarrowsFits(s, s', code);
      var p', r' := Exit(w, code, s, p, r, c, src, ts, fs);
      if p' in s.here {
        PatchedTarget(s.code, s.here, p', |s.code|, NO_REG, |s.code|);
        assert Allows(s', p', code[p']);
        ReachesJump(w, code, Config(p, r), p', r', |s.code|);
        assert ExitAt(w, code, s', |s.code|, r, r', c, src, ts, fs);
      } else {
        assert ExitAt(w, code, s', p', r, r', c, src, ts, fs);
      }
    }
  }
}
