// How claims about operands combine into the claim about the whole expression.
module ExpressionLemmas {
  import opened Instructions
  import opened JumpLists
  import opened Machine
  import opened Meaning

  lemma {:induction false} EvalAgree(w: World, r: Regs, r': Regs, a: Expr, nactvar: nat, nups: nat)
    requires WellScoped(a, nactvar, nups)
    requires forall i :: 0 <= i < nactvar && i < 256 ==> r'[i] == r[i]
    ensures Eval(w, r', a) == Eval(w, r, a)
  {
    match a
    case Local(_) =>
    case Upvalue(_) =>
    case Paren(e) => EvalAgree(w, r, r', e, nactvar, nups);
    case Not(e) => EvalAgree(w, r, r', e, nactvar, nups);
    case And(x, y) => EvalAgree(w, r, r', x, nactvar, nups); EvalAgree(w, r, r', y, nactvar, nups);
    case Or(x, y) => EvalAgree(w, r, r', x, nactvar, nups); EvalAgree(w, r, r', y, nactvar, nups);
    case Rel(_, x, y) => EvalAgree(w, r, r', x, nactvar, nups); EvalAgree(w, r, r', y, nactvar, nups);
  }

  // The claim about a second operand: it is entered where the first one falls through.
  function Follow(s: Snap, c: Claim, n: nat, a: Expr): Claim {
    Claim({|s.code|} + (set j | j in s.here), n, c.x, a)
  }

  // `and' (sense true) and `or' (sense false)
  function Join(sense: bool, l: Expr, r: Expr): Expr {
    if sense then And(l, r) else Or(l, r)
  }

  // An exit of the second operand is one of the whole expression.
  lemma ExitOfWhole(w: World, code: seq<Instruction>, s: Snap, p: nat, r0: Regs, r1: Regs, r2: Regs, c: Claim,
                    c': Claim,
                    src: Source, ts: seq<nat>, fs: seq<nat>, ts': seq<nat>, fs': seq<nat>)
    requires ExitAt(w, code, s, p, r1, r2, c, src, ts, fs)
    requires Agree(r0, r1, c'.n, c'.x, c'.x) && c'.n <= c.n && c'.x == c.x
    requires Eval(w, r0, c'.a) == Eval(w, r1, c.a)
    requires forall j :: j in ts ==> j in ts'
    requires forall j :: j in fs ==> j in fs'
    ensures ExitAt(w, code, s, p, r0, r2, c', src, ts', fs')
  {
  }

  lemma SequenceRun(w: World, code: seq<Instruction>, s1: Snap, s2: Snap, c: Claim, r2: Expr, sense: bool, js: seq<nat>,
                    src: Source, ts: seq<nat>, fs: seq<nat>, p1: nat, r: Regs, r1: Regs, nactvar: nat, nups: nat)
    requires WellScoped(r2, nactvar, nups) && nactvar <= c.n && nactvar <= c.x
    requires p1 == |s1.code| || p1 in s1.here
    requires IsFalse(Eval(w, r, c.a)) == !sense && Agree(r, r1, c.n, c.x, c.x)
    requires Fits(s2, code) && Sem(s2, Follow(s1, c, c.n, r2), src, ts, fs)
    ensures exists p2: nat, r2': Regs :: Reaches(w, code, Config(p1, r1), Config(p2, r2')) &&
              ExitAt(w, code, s2, p2, r, r2', c.(a := Join(sense, c.a, r2)), src,
                     if sense then ts else js + ts, if sense then js + fs else fs)
  {
    EvalAgree(w, r, r1, r2, nactvar, nups);
    var c2 := Follow(s1, c, c.n, r2);
    var p2, r2' := Exit(w, code, s2, p1, r1, c2, src, ts, fs);
    ExitOfWhole(w, code, s2, p2, r, r1, r2', c2, c.(a := Join(sense, c.a, r2)), src, ts, fs,
                if sense then ts else js + ts, if sense then js + fs else fs);
  }

  lemma SequenceSem(s1: Snap, s2: Snap, c: Claim, r2: Expr, sense: bool, js: seq<nat>,
                    src: Source, ts: seq<nat>, fs: seq<nat>, nactvar: nat, nups: nat)
    requires WellScoped(r2, nactvar, nups) && nactvar <= c.n && nactvar <= c.x
    requires Narrows(s1, s2)
    requires forall j :: j in js ==> HasValue(s1.code, j) == HasValue(s2.code, j)
    requires Sem(s1, c, Known(sense), if sense then [] else js, if sense then js else [])
    requires Sem(s2, Follow(s1, c, c.n, r2), src, ts, fs)
    ensures Sem(s2, c.(a := Join(sense, c.a, r2)), src, if sense then ts else js + ts, if sense then js + fs else fs)
  {
    var c' := c.(a := Join(sense, c.a, r2));
    var ts', fs' := if sense then ts else js + ts, if sense then js + fs else fs;
    forall w: World, code: seq<Instruction>, p: nat, r: Regs | Fits(s2, code) && p in c'.entries
      ensures Exits(w, code, s2, p, r, c', src, ts', fs')
    {
      NarrowsFits(s1, s2, code);
      var p1, r1 := Exit(w, code, s1, p, r, c, Known(sense), if sense then [] else js, if sense then js else []);
      if p1 in js && LeavesBy(code, s1, p1, r, r1, c, Eval(w, r, c.a), !sense) {
        assert LeavesBy(code, s2, p1, r, r1, c', Eval(w, r, c'.a), !sense);
        assert ExitAt(w, code, s2, p1, r, r1, c', src, ts', fs');
      } else {
        SequenceRun(w, code, s1, s2, c, r2, sense, js, src, ts, fs, p1, r, r1, nactvar, nups);
        var p2: nat, r2': Regs :| Reaches(w, code, Config(p1, r1), Config(p2, r2')) &&
          ExitAt(w, code, s2, p2, r, r2', c', src, ts', fs');
        ReachesTrans(w, code, Config(p, r), Config(p1, r1), Config(p2, r2'));
      }
    }
  }

  // Both operands of a comparison are in registers; i is the instruction that compares them.
  lemma RelSem(s1: Snap, s2: Snap, c: Claim, n2: nat, rel: Relation, r2: Expr, o1: nat, o2: nat, i: Instruction,
               nactvar: nat, nups: nat)
    requires WellScoped(r2, nactvar, nups) && nactvar <= c.n <= n2 && nactvar <= c.x
    requires Narrows(s1, s2) && o1 < n2 && o1 != c.x && o1 < 256 && o2 < 256
    requires Sem(s1, c, InReg(o1), [], [])
    requires Sem(s2, Follow(s1, c, n2, r2), InReg(o2), [], [])
    requires IsComparison(i.op) && i.a <= 1
    requires forall w: World, r: Regs {:trigger Accepts(w, i, r)} :: Accepts(w, i, r) == Relate(w, rel, r[o1], r[o2])
    ensures Sem(s2, c.(a := Rel(rel, c.a, r2)), Tested(i), [], [])
  {
    hide Narrows;
    var c' := c.(a := Rel(rel, c.a, r2));
    var c2 := Follow(s1, c, n2, r2);
    forall w: World, code: seq<Instruction>, p: nat, r: Regs | Fits(s2, code) && p in c'.entries
      ensures Exits(w, code, s2, p, r, c', Tested(i), [], [])
    {
      NarrowsFits(s1, s2, code);
      var p1, r1 := Exit(w, code, s1, p, r, c, InReg(o1), [], []);
      EvalAgree(w, r, r1, r2, nactvar, nups);
      var p2, r2' := Exit(w, code, s2, p1, r1, c2, InReg(o2), [], []);
      ReachesTrans(w, code, Config(p, r), Config(p1, r1), Config(p2, r2'));
      assert ExitAt(w, code, s2, p2, r, r2', c', Tested(i), [], []);
    }
  }

  // ---- exp2reg ----

  // The code after both lists have been sent to their ends.
  function Resolved(code: seq<Instruction>, ts: seq<nat>, fs: seq<nat>, reg: Arg8, pf: int, pt: int): seq<Instruction> {
    Patch(Patch(code, fs, |code|, reg, pf), ts, |code|, reg, pt)
  }

  // Everything else stays as it was.
  lemma ResolvedAt(code: seq<Instruction>, ts: seq<nat>, fs: seq<nat>, reg: Arg8, pf: int, pt: int, i: nat)
    requires i < |code|
    requires forall k :: k in ts ==> k < |code| && k !in fs && code[k].op == OP_JMP
    requires forall k :: k in fs ==> k < |code| && code[k].op == OP_JMP
    ensures |Resolved(code, ts, fs, reg, pf, pt)| == |code|
    ensures var x := Resolved(code, ts, fs, reg, pf, pt)[i];
            x == if i in ts then WithSBx(code[i], (if HasValue(code, i) then |code| else pt) - (i + 1))
                 else if i in fs then WithSBx(code[i], (if HasValue(code, i) then |code| else pf) - (i + 1))
                 else if (i + 1 in ts || i + 1 in fs) && code[i].op == OP_TESTSET then ResolveTest(code[i], reg)
                 else code[i]
  {
    var mid := Patch(code, fs, |code|, reg, pf);
    assert mid[i] == PatchSlot(code, fs, i, |code|, reg, pf);
    if i in ts && i >= 1 {
      assert mid[i - 1] == PatchSlot(code, fs, i - 1, |code|, reg, pf);
    }
  }

  // s' is s with its lists resolved, after some instructions may have been appended.
  ghost predicate IsResolution(code0: seq<Instruction>, s: Snap, s': Snap, ts: seq<nat>, fs: seq<nat>, reg: Arg8,
                               pf: int, pt: int) {
    && Tidy(s) && Lists(s, ts, fs)
    && |s.code| <= |code0|
    && (forall j :: j in ts || j in fs ==>
          -MAXARG_SBX <= (if HasValue(s.code, j) then |code0| else if j in ts then pt else pf) - (j + 1) <= MAXARG_SBX)
    && (forall i :: 0 <= i < |s.code| ==> code0[i] == s.code[i])
    && s'.code == Resolved(code0, ts, fs, reg, pf, pt)
    && s'.open == s.open - Elems(ts) - Elems(fs)
    && (forall k :: k in s'.here ==> k in s.here || k >= |s.code|)
    && (forall k :: k in s.here ==> k in s'.here)
  }

  lemma ResolutionNarrows(code0: seq<Instruction>, s: Snap, s': Snap, ts: seq<nat>, fs: seq<nat>, reg: Arg8, pf: int,
                          pt: int)
    requires IsResolution(code0, s, s', ts, fs, reg, pf, pt) && reg < NO_REG
    ensures Narrows(s, s')
  {
    forall i: nat, x | i < |s.code| && Allows(s', i, x)
      ensures Allows(s, i, x)
    {
      ResolvedAllows(code0, s, s', ts, fs, reg, pf, pt, i, x);
    }
  }

  lemma ResolvedAllows(code0: seq<Instruction>, s: Snap, s': Snap, ts: seq<nat>, fs: seq<nat>, reg: Arg8, pf: int,
                       pt: int,
                       i: nat, x: Instruction)
    requires IsResolution(code0, s, s', ts, fs, reg, pf, pt) && reg < NO_REG
    requires i < |s.code| && i < |s'.code| && Allows(s', i, x)
    ensures Allows(s, i, x)
  {
    ResolvedAt(code0, ts, fs, reg, pf, pt, i);
  }

  lemma ResolvedJump(code0: seq<Instruction>, s: Snap, s': Snap, ts: seq<nat>, fs: seq<nat>, reg: Arg8, pf: int,
                     pt: int,
                     code: seq<Instruction>, j: nat)
    requires IsResolution(code0, s, s', ts, fs, reg, pf, pt) && Fits(s', code) && (j in ts || j in fs)
    requires !HasValue(s.code, j) ==> 0 <= (if j in ts then pt else pf) <= |code0|
    ensures j < |code| && code[j].op == OP_JMP
    ensures j + 1 + SBx(code[j]) == if HasValue(s.code, j) then |code0| else if j in ts then pt else pf
  {
    ResolvedAt(code0, ts, fs, reg, pf, pt, j);
    assert Allows(s', j, code[j]);
  }

  lemma ResolvedTest(code0: seq<Instruction>, s: Snap, s': Snap, ts: seq<nat>, fs: seq<nat>, reg: Arg8, pf: int,
                     pt: int,
                     code: seq<Instruction>, j: nat)
    requires IsResolution(code0, s, s', ts, fs, reg, pf, pt) && Fits(s', code) && (j in ts || j in fs)
    requires HasValue(s.code, j) && reg < NO_REG
    ensures code[j - 1].a == reg
  {
    ResolvedAt(code0, ts, fs, reg, pf, pt, j - 1);
    assert s.code[j].op == OP_JMP;
    assert Allows(s', j - 1, code[j - 1]);
  }

  // Every jump carries its value: all of them go to the end.
  lemma ValuesSem(s: Snap, s': Snap, c: Claim, reg: Arg8, ts: seq<nat>, fs: seq<nat>)
    requires IsResolution(s.code, s, s', ts, fs, reg, NO_JUMP, NO_JUMP) && s'.here == s.here
    requires reg < NO_REG && (reg >= c.n || reg == c.x)
    requires forall j :: j in ts || j in fs ==> HasValue(s.code, j)
    requires Sem(s, c, InReg(reg), ts, fs)
    ensures Narrows(s, s')
    ensures Sem(s', c, InReg(reg), [], [])
  {
    ResolutionNarrows(s.code, s, s', ts, fs, reg, NO_JUMP, NO_JUMP);
    forall w: World, code: seq<Instruction>, p: nat, r: Regs | Fits(s', code) && p in c.entries
      ensures Exits(w, code, s', p, r, c, InReg(reg), [], [])
    {
      NarrowsFits(s, s', code);
      var p', r' := Exit(w, code, s, p, r, c, InReg(reg), ts, fs);
      if p' in ts || p' in fs {
        ResolvedJump(s.code, s, s', ts, fs, reg, NO_JUMP, NO_JUMP, code, p');
        ResolvedTest(s.code, s, s', ts, fs, reg, NO_JUMP, NO_JUMP, code, p');
        ReachesJump(w, code, Config(p, r), p', r', |s'.code|);
        assert ExitAt(w, code, s', |s'.code|, r, r', c, InReg(reg), [], []);
      } else {
        assert ExitAt(w, code, s', p', r, r', c, InReg(reg), [], []);
      }
    }
  }

  function Labels(reg: Arg8): seq<Instruction> {
    [ABC(OP_LOADBOOL, reg, 0, 1), ABC(OP_LOADBOOL, reg, 1, 0)]
  }

  // A run that arrives at one of the labels leaves with its boolean in reg.
  lemma RunLabel(w: World, code: seq<Instruction>, end: nat, reg: Arg8, c: Config, r: Regs, b: bool)
    requires 2 <= end <= |code| && code[end - 2] == Labels(reg)[0] && code[end - 1] == Labels(reg)[1]
    requires Reaches(w, code, c, Config(if b then end - 1 else end - 2, r))
    ensures Reaches(w, code, c, Config(end, r[reg := Boolean(b)]))
  {
    ReachesLoadBool(w, code, c, if b then end - 1 else end - 2, r);
  }

  lemma LabelsStay(code0: seq<Instruction>, s: Snap, s': Snap, ts: seq<nat>, fs: seq<nat>, reg: Arg8,
                   over: seq<Instruction>, code: seq<Instruction>)
    requires |over| <= 1 && (over != [] ==> over[0].op == OP_JMP) && code0 == s.code + over + Labels(reg)
    requires IsResolution(code0, s, s', ts, fs, reg, |code0| - 2, |code0| - 1) && Fits(s', code)
    requires forall i :: |s.code| <= i <= |s.code| + 3 ==> i !in s.open
    requires forall k :: k in s'.here ==> k < |code0| - 2
    ensures |code0| <= |code| && code[|code0| - 2] == Labels(reg)[0] && code[|code0| - 1] == Labels(reg)[1]
  {
    var end := |code0|;
    ResolvedAt(code0, ts, fs, reg, end - 2, end - 1, end - 2);
    ResolvedAt(code0, ts, fs, reg, end - 2, end - 1, end - 1);
    assert Allows(s', end - 1, code[end - 1]) && Allows(s', end - 2, code[end - 2]);
  }

  lemma FallsOnlyAtEnd(code0: seq<Instruction>, s: Snap, s': Snap, ts: seq<nat>, fs: seq<nat>, reg: Arg8, pf: int,
                       pt: int, j: nat)
    requires IsResolution(code0, s, s', ts, fs, reg, pf, pt) && (j in ts || j in fs)
    ensures j < |s.code| && j !in s.here && !(j in ts && j in fs)
  {
  }

  lemma ValueInReg(code0: seq<Instruction>, s: Snap, s': Snap, ts: seq<nat>, fs: seq<nat>, reg: Arg8, pf: int,
                   pt: int, code: seq<Instruction>, p: nat, c: Claim, r: Regs, r': Regs, v: Value)
    requires IsResolution(code0, s, s', ts, fs, reg, pf, pt) && Fits(s', code) && (p in ts || p in fs)
    requires HasValue(s.code, p) && reg < NO_REG && (reg >= c.n || reg == c.x)
    requires LeavesBy(code, s, p, r, r', c, v, p in ts)
    ensures r'[reg] == v && Agree(r, r', c.n, c.x, c.x)
  {
    ResolvedTest(code0, s, s', ts, fs, reg, pf, pt, code, p);
    hide IsResolution, Fits;
  }

  lemma PlainExit(code: seq<Instruction>, s: Snap, p: nat, r: Regs, r': Regs, c: Claim, v: Value, b: bool)
    requires LeavesBy(code, s, p, r, r', c, v, b) && !HasValue(s.code, p)
    ensures v == Boolean(b) && Agree(r, r', c.n, c.x, c.x)
  {
  }

  // From a jump of the lists on.
  lemma ListExitRun(w: World, code: seq<Instruction>, code0: seq<Instruction>, s: Snap, s': Snap, c: Claim, reg: Arg8,
                    ts: seq<nat>, fs: seq<nat>, from: Config, p: nat, r: Regs, r': Regs)
    requires reg < NO_REG && (reg >= c.n || reg == c.x) && |code0| >= 2
    requires IsResolution(code0, s, s', ts, fs, reg, |code0| - 2, |code0| - 1) && Fits(s', code)
    requires |code0| <= |code| && code[|code0| - 2] == Labels(reg)[0] && code[|code0| - 1] == Labels(reg)[1]
    requires p in ts || p in fs
    requires Reaches(w, code, from, Config(p, r')) && LeavesBy(code, s, p, r, r', c, Eval(w, r, c.a), p in ts)
    ensures exists r'' :: Reaches(w, code, from, Config(|code0|, r'')) &&
              r''[reg] == Eval(w, r, c.a) && Agree(r, r'', c.n, c.x, c.x)
  {
    hide Fits, Reaches, Labels, Eval, IsResolution, LeavesBy, HasValue;
    var end, b := |code0|, p in ts;
    var target := if HasValue(s.code, p) then end else if b then end - 1 else end - 2;
    FallsOnlyAtEnd(code0, s, s', ts, fs, reg, end - 2, end - 1, p);
    ResolvedJump(code0, s, s', ts, fs, reg, end - 2, end - 1, code, p);
    ReachesJump(w, code, from, p, r', target);
    if HasValue(s.code, p) {
      ValueInReg(code0, s, s', ts, fs, reg, end - 2, end - 1, code, p, c, r, r', Eval(w, r, c.a));
    } else {
      PlainExit(code, s, p, r, r', c, Eval(w, r, c.a), b);
      RunLabel(w, code, end, reg, from, r', b);
      var r'' := r'[reg := Boolean(b)];
      assert Reaches(w, code, from, Config(end, r''));
    }
  }

  // What one run does of the code with the labels
  lemma LabelsExit(s: Snap, s': Snap, c: Claim, reg: Arg8, over: seq<Instruction>, ts: seq<nat>, fs: seq<nat>,
                   w: World, code: seq<Instruction>, p: nat, r: Regs)
    requires reg < NO_REG && (reg >= c.n || reg == c.x)
    requires |over| <= 1 && (over != [] ==> over[0].op == OP_JMP) && (over == [] ==> s.here == [])
    requires forall i :: |s.code| <= i <= |s.code| + 3 ==> i !in s.open
    requires s'.here == (if over == [] then [] else [|s.code|]) + s.here
    requires var code0 := s.code + over + Labels(reg);
             IsResolution(code0, s, s', ts, fs, reg, |code0| - 2, |code0| - 1)
    requires Sem(s, c, if over == [] then Exactly(false) else InReg(reg), ts, fs)
    requires Narrows(s, s') && Fits(s', code) && p in c.entries
    ensures Exits(w, code, s', p, r, c, InReg(reg), [], [])
  {
    hide Reaches, Lists, Allows, HasValue, Fits, Narrows, Sem;
    var code0 := s.code + over + Labels(reg);
    var end := |code0|;
    var src := if over == [] then Exactly(false) else InReg(reg);
    NarrowsFits(s, s', code);
    var p', r' := Exit(w, code, s, p, r, c, src, ts, fs);
    LabelsStay(code0, s, s', ts, fs, reg, over, code);
    if p' in ts || p' in fs {
      LabelsByList(code0, s, s', c, reg, src, ts, fs, w, code, p, r, p', r');
      hide IsResolution;
      var r'' :| Reaches(w, code, Config(p, r), Config(end, r'')) && r''[reg] == Eval(w, r, c.a) &&
        Agree(r, r'', c.n, c.x, c.x);
      assert ExitAt(w, code, s', end, r, r'', c, InReg(reg), [], []);
    } else if over == [] {
      hide IsResolution;
      RunLabel(w, code, end, reg, Config(p, r), r', false);
      assert ExitAt(w, code, s', end, r, r'[reg := Boolean(false)], c, InReg(reg), [], []);
    } else {
      hide IsResolution, Labels;
      assert p' in s'.here by {
        if p' == |s.code| { assert s'.here[0] == p'; }
      }
      assert ExitAt(w, code, s', p', r, r', c, InReg(reg), [], []);
    }
  }

  lemma ListLeaves(w: World, code: seq<Instruction>, s: Snap, p: nat, r: Regs, r': Regs, c: Claim, src: Source,
                   ts: seq<nat>, fs: seq<nat>)
    requires ExitAt(w, code, s, p, r, r', c, src, ts, fs) && (p in ts || p in fs)
    requires p < |s.code| && p !in s.here && !(p in ts && p in fs)
    ensures LeavesBy(code, s, p, r, r', c, Eval(w, r, c.a), p in ts)
  {
  }

  // A jump of a list: its value, or the label it goes to, puts the value of the expression into the register.
  lemma LabelsByList(code0: seq<Instruction>, s: Snap, s': Snap, c: Claim, reg: Arg8, src: Source, ts: seq<nat>,
                     fs: seq<nat>, w: World, code: seq<Instruction>, p: nat, r: Regs, p': nat, r': Regs)
    requires reg < NO_REG && (reg >= c.n || reg == c.x) && |code0| >= 2
    requires IsResolution(code0, s, s', ts, fs, reg, |code0| - 2, |code0| - 1) && Fits(s', code)
    requires |code0| <= |code| && code[|code0| - 2] == Labels(reg)[0] && code[|code0| - 1] == Labels(reg)[1]
    requires Reaches(w, code, Config(p, r), Config(p', r')) && (p' in ts || p' in fs)
    requires ExitAt(w, code, s, p', r, r', c, src, ts, fs)
    ensures exists r'' :: Reaches(w, code, Config(p, r), Config(|code0|, r'')) && r''[reg] == Eval(w, r, c.a) &&
              Agree(r, r'', c.n, c.x, c.x)
  {
    FallsOnlyAtEnd(code0, s, s', ts, fs, reg, |code0| - 2, |code0| - 1, p');
    hide *;
    ListLeaves(w, code, s, p', r, r', c, src, ts, fs);
    ListExitRun(w, code, code0, s, s', c, reg, ts, fs, Config(p, r), p', r, r');
  }

  // Some jump needs a value: it is loaded by one of the two labels appended to the code.  Unless the
  // expression was a test, whose false branch runs into the first label, a jump over them comes first.
  lemma LabelsSem(s: Snap, s': Snap, c: Claim, reg: Arg8, over: seq<Instruction>, ts: seq<nat>, fs: seq<nat>)
    requires reg < NO_REG && (reg >= c.n || reg == c.x)
    requires |over| <= 1 && (over != [] ==> over[0].op == OP_JMP) && (over == [] ==> s.here == [])
    requires forall i :: |s.code| <= i <= |s.code| + 3 ==> i !in s.open
    requires s'.here == (if over == [] then [] else [|s.code|]) + s.here
    requires var code0 := s.code + over + Labels(reg);
             IsResolution(code0, s, s', ts, fs, reg, |code0| - 2, |code0| - 1)
    requires Sem(s, c, if over == [] then Exactly(false) else InReg(reg), ts, fs)
    ensures Narrows(s, s')
    ensures Sem(s', c, InReg(reg), [], [])
  {
    hide Exits, IsResolution, Narrows, Labels;
    var code0 := s.code + over + Labels(reg);
    ResolutionNarrows(code0, s, s', ts, fs, reg, |code0| - 2, |code0| - 1);
    forall w: World, code: seq<Instruction>, p: nat, r: Regs | Fits(s', code) && p in c.entries
      ensures Exits(w, code, s', p, r, c, InReg(reg), [], [])
    {
      LabelsExit(s, s', c, reg, over, ts, fs, w, code, p, r);
    }
  }
}
