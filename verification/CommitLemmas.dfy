// Each way in which the generator extends or resolves partial code keeps the claim about it.
module CommitLemmas {
  import opened Instructions
  import opened JumpLists
  import opened Machine
  import opened Meaning

  // Instructions, and possibly an open jump, are appended.
  ghost predicate IsAppend(s: Snap, s': Snap, extra: seq<Instruction>) {
    && Tidy(s) && s.here == [] && s'.here == []
    && s'.code == s.code + extra
    && (forall j :: j in s.open ==> j in s'.open)
    && (forall j :: j in s'.open && j < |s.code| ==> j in s.open)
  }

  lemma AppendNarrows(s: Snap, s': Snap, extra: seq<Instruction>)
    requires IsAppend(s, s', extra)
    ensures Narrows(s, s')
  {
    forall i: nat, x | i < |s.code| && Allows(s', i, x)
      ensures Allows(s, i, x)
    {
      assert s'.code[i] == s.code[i];
    }
  }

  lemma AppendedAt(s: Snap, s': Snap, extra: seq<Instruction>, code: seq<Instruction>, k: nat)
    requires IsAppend(s, s', extra) && Fits(s', code) && k < |extra|
    requires |s.code| + k !in s'.open
    requires extra[k].op == OP_TESTSET ==> |s.code| + k + 1 !in s'.open
    ensures |s.code| + k < |code| && code[|s.code| + k] == extra[k]
  {
    assert Allows(s', |s.code| + k, code[|s.code| + k]);
  }

  // An exit by a jump of the lists, or to a pending position, is still one after an append.
  lemma OldExit(w: World, code: seq<Instruction>, s: Snap, s': Snap, extra: seq<Instruction>, p: nat, r: Regs, r': Regs,
                c: Claim, src: Source, src': Source, ts: seq<nat>, fs: seq<nat>, ts': seq<nat>, fs': seq<nat>)
    requires IsAppend(s, s', extra) && Lists(s, ts, fs)
    requires ExitAt(w, code, s, p, r, r', c, src, ts, fs) && p != |s.code|
    requires forall j :: j in ts ==> j in ts'
    requires forall j :: j in fs ==> j in fs'
    ensures ExitAt(w, code, s', p, r, r', c, src', ts', fs')
  {
    assert HasValue(s'.code, p) == HasValue(s.code, p);
  }

  // The pending instruction of a VRELOCABLE gets its target register.
  lemma CommitComputed(s: Snap, s': Snap, c: Claim, i: Instruction, reg: Arg8, ts: seq<nat>, fs: seq<nat>)
    requires Lists(s, ts, fs) && IsAppend(s, s', [i.(a := reg)])
    requires |s.code| !in s'.open && (reg >= c.n || reg == c.x)
    requires i.op == OP_NOT || i.op == OP_GETUPVAL
    requires Sem(s, c, Computed(i), ts, fs)
    ensures Sem(s', c, InReg(reg), ts, fs)
  {
    AppendNarrows(s, s', [i.(a := reg)]);
    forall w: World, code: seq<Instruction>, p: nat, r: Regs | Fits(s', code) && p in c.entries
      ensures Exits(w, code, s', p, r, c, InReg(reg), ts, fs)
    {
      NarrowsFits(s, s', code);
      var p', r' := Exit(w, code, s, p, r, c, Computed(i), ts, fs);
      if p' == |s.code| {
        AppendedAt(s, s', [i.(a := reg)], code, 0);
        var v := Eval(w, r, c.a);
        if i.op == OP_NOT && i.b < 256 {
          ReachesNot(w, code, Config(p, r), p', r');
        } else {
          ReachesGetUpval(w, code, Config(p, r), p', r');
        }
        assert ExitAt(w, code, s', p' + 1, r, r'[reg := v], c, InReg(reg), ts, fs);
      } else {
        OldExit(w, code, s, s', [i.(a := reg)], p', r, r', c, Computed(i), InReg(reg), ts, fs, ts, fs);
      }
    }
  }

  lemma CommitMove(s: Snap, s': Snap, c: Claim, b: Arg8, reg: Arg8, ts: seq<nat>, fs: seq<nat>)
    requires Lists(s, ts, fs) && IsAppend(s, s', [ABC(OP_MOVE, reg, b, 0)])
    requires |s.code| !in s'.open && (reg >= c.n || reg == c.x)
    requires Sem(s, c, InReg(b), ts, fs)
    ensures Sem(s', c, InReg(reg), ts, fs)
  {
    var i := ABC(OP_MOVE, reg, b, 0);
    AppendNarrows(s, s', [i]);
    forall w: World, code: seq<Instruction>, p: nat, r: Regs | Fits(s', code) && p in c.entries
      ensures Exits(w, code, s', p, r, c, InReg(reg), ts, fs)
    {
      NarrowsFits(s, s', code);
      var p', r' := Exit(w, code, s, p, r, c, InReg(b), ts, fs);
      if p' == |s.code| {
        AppendedAt(s, s', [i], code, 0);
        ReachesMove(w, code, Config(p, r), p', r');
        assert ExitAt(w, code, s', p' + 1, r, r'[reg := r'[b]], c, InReg(reg), ts, fs);
      } else {
        OldExit(w, code, s, s', [i], p', r, r', c, InReg(b), InReg(reg), ts, fs, ts, fs);
      }
    }
  }

  // The lists after the jump at j has joined the one of its sense.
  function Joined(js: seq<nat>, j: nat, joins: bool): seq<nat> {
    if joins then js + [j] else js
  }

  // The jump appended with a test is an open jump.
  ghost predicate IsTestAppend(s: Snap, s': Snap, test: Instruction, jump: Instruction) {
    && IsAppend(s, s', [test, jump]) && jump.op == OP_JMP
    && |s.code| !in s'.open && |s.code| + 1 in s'.open
  }

  // A comparison and its jump: the jump joins the list of its sense.
  lemma CommitTest(s: Snap, s': Snap, c: Claim, i: Instruction, jump: Instruction, sense: bool, ts: seq<nat>,
                   fs: seq<nat>)
    requires Lists(s, ts, fs) && IsTestAppend(s, s', i, jump) && IsComparison(i.op) && i.a <= 1
    requires Sem(s, c, Tested(if sense then i else i.(a := 1 - i.a)), ts, fs)
    ensures var j := |s.code| + 1; Sem(s', c, Exactly(!sense), Joined(ts, j, sense), Joined(fs, j, !sense))
  {
    var j := |s.code| + 1;
    var ts', fs', past := Joined(ts, j, sense), Joined(fs, j, !sense), Exactly(!sense);
    var src := Tested(if sense then i else i.(a := 1 - i.a));
    AppendNarrows(s, s', [i, jump]);
    forall w: World, code: seq<Instruction>, p: nat, r: Regs | Fits(s', code) && p in c.entries
      ensures Exits(w, code, s', p, r, c, past, ts', fs')
    {
      NarrowsFits(s, s', code);
      var p', r' := Exit(w, code, s, p, r, c, src, ts, fs);
      if p' == |s.code| {
        AppendedAt(s, s', [i, jump], code, 0);
        hide Fits, Sem, Allows, Narrows;
        ReachesComparison(w, code, Config(p, r), p', r');
        var next := if Accepts(w, i, r') then p' + 1 else p' + 2;
        assert Accepts(w, i, r') ==> (if sense then j in ts' else j in fs');
        assert ExitAt(w, code, s', next, r, r', c, past, ts', fs');
      } else {
        hide Fits, Sem, Allows, Narrows;
        OldExit(w, code, s, s', [i, jump], p', r, r', c, src, past, ts, fs, ts', fs');
      }
    }
  }

  // jumponcond on a register: TESTSET NO_REG reg cond; JMP.
  function MakeTestSet(reg: Arg8, sense: bool): Instruction {
    ABC(OP_TESTSET, NO_REG, reg, if sense then 1 else 0)
  }

  // A run through a TESTSET whose target register is still free.
  lemma RunTestSet(w: World, code: seq<Instruction>, s: Snap, s': Snap, reg: Arg8, sense: bool, jump: Instruction,
                   from: Config, r: Regs) returns (q: nat, r': Regs)
    requires IsTestAppend(s, s', MakeTestSet(reg, sense), jump) && Fits(s', code)
    requires Reaches(w, code, from, Config(|s.code|, r))
    ensures Reaches(w, code, from, Config(q, r'))
    ensures IsFalse(r[reg]) == !sense ==>
              && q == |s.code| + 1 <= |code|
              && r'[code[q - 1].a] == r[reg]
              && r' == if code[q - 1].op == OP_TESTSET then r[code[q - 1].a := r[reg]] else r
    ensures IsFalse(r[reg]) != !sense ==> q == |s'.code| && r' == r
  {
    var i := |s.code|;
    assert Allows(s', i, code[i]);
    assert s'.code[i] == MakeTestSet(reg, sense);
    if code[i].op == OP_TESTSET {
      ReachesTestSet(w, code, from, i, r);
    } else {
      ReachesTest(w, code, from, i, r);
    }
    if IsFalse(r[reg]) == !sense {
      q, r' := i + 1, if code[i].op == OP_TESTSET then r[code[i].a := r[reg]] else r;
    } else {
      q, r' := i + 2, r;
    }
  }

  lemma CommitTestSet(s: Snap, s': Snap, c: Claim, reg: Arg8, sense: bool, jump: Instruction, ts: seq<nat>,
                      fs: seq<nat>)
    requires Lists(s, ts, fs) && IsTestAppend(s, s', MakeTestSet(reg, sense), jump)
    requires Sem(s, c, InReg(reg), ts, fs)
    ensures var j := |s.code| + 1; Sem(s', c, Known(!sense), Joined(ts, j, sense), Joined(fs, j, !sense))
  {
    var i, j := MakeTestSet(reg, sense), |s.code| + 1;
    var ts', fs', past := Joined(ts, j, sense), Joined(fs, j, !sense), Known(!sense);
    AppendNarrows(s, s', [i, jump]);
    forall w: World, code: seq<Instruction>, p: nat, r: Regs | Fits(s', code) && p in c.entries
      ensures Exits(w, code, s', p, r, c, past, ts', fs')
    {
      NarrowsFits(s, s', code);
      var p', r' := Exit(w, code, s, p, r, c, InReg(reg), ts, fs);
      if p' == |s.code| {
        var q, r'' := RunTestSet(w, code, s, s', reg, sense, jump, Config(p, r), r');
        assert q == j ==> HasValue(s'.code, j) && (if sense then j in ts' else j in fs');
        assert ExitAt(w, code, s', q, r, r'', c, past, ts', fs');
      } else {
        OldExit(w, code, s, s', [i, jump], p', r, r', c, InReg(reg), past, ts, fs, ts', fs');
      }
    }
  }

  // jumponcond on a NOT that is still pending: the NOT is dropped and its operand tested.
  lemma CommitNotTest(s: Snap, s': Snap, c: Claim, i: Instruction, sense: bool, jump: Instruction, ts: seq<nat>,
                      fs: seq<nat>)
    requires Lists(s, ts, fs) && i.op == OP_NOT && i.b < 256
    requires IsTestAppend(s, s', ABC(OP_TEST, i.b, 0, if sense then 0 else 1), jump)
    requires Sem(s, c, Computed(i), ts, fs)
    ensures var j := |s.code| + 1; Sem(s', c, Exactly(!sense), Joined(ts, j, sense), Joined(fs, j, !sense))
  {
    var test, j := ABC(OP_TEST, i.b, 0, if sense then 0 else 1), |s.code| + 1;
    var ts', fs', past := Joined(ts, j, sense), Joined(fs, j, !sense), Exactly(!sense);
    AppendNarrows(s, s', [test, jump]);
    forall w: World, code: seq<Instruction>, p: nat, r: Regs | Fits(s', code) && p in c.entries
      ensures Exits(w, code, s', p, r, c, past, ts', fs')
    {
      NarrowsFits(s, s', code);
      var p', r' := Exit(w, code, s, p, r, c, Computed(i), ts, fs);
      if p' == |s.code| {
        AppendedAt(s, s', [test, jump], code, 0);
        ReachesTest(w, code, Config(p, r), p', r');
        var next := if IsFalse(r'[i.b]) == sense then p' + 1 else p' + 2;
        assert next == j ==> !HasValue(s'.code, j) && (if sense then j in ts' else j in fs');
        assert ExitAt(w, code, s', next, r, r', c, past, ts', fs');
      } else {
        OldExit(w, code, s, s', [test, jump], p', r, r', c, Computed(i), past, ts, fs, ts', fs');
      }
    }
  }

  // Nothing is emitted; the value is described more loosely, or one more register may change.
  lemma Weaken(s: Snap, c: Claim, c': Claim, src: Source, src': Source, ts: seq<nat>, fs: seq<nat>)
    requires Sem(s, c, src, ts, fs)
    requires c' == c || (c' == c.(x := c'.x) && c.x >= c.n)
    requires forall w, r, v {:trigger Holds(w, src', r, v)} :: Holds(w, src, r, v) ==> Holds(w, src', r, v)
    ensures Sem(s, c', src', ts, fs)
  {
    forall w: World, code: seq<Instruction>, p: nat, r: Regs | Fits(s, code) && p in c'.entries
      ensures Exits(w, code, s, p, r, c', src', ts, fs)
    {
      var p', r' := Exit(w, code, s, p, r, c, src, ts, fs);
      assert ExitAt(w, code, s, p', r, r', c', src', ts, fs);
    }
  }

  // ---- codenot ----

  lemma DropNarrows(s: Snap, s': Snap, js: seq<nat>)
    requires Tidy(s) && s' == Snap(DropValues(s.code, js), s.open, s.here)
    requires forall j :: j in js ==> j in s.open
    ensures Narrows(s, s')
  {
    forall i: nat, x | i < |s.code| && Allows(s', i, x)
      ensures Allows(s, i, x)
    {
      assert s'.code[i] == if i + 1 in js && s.code[i].op == OP_TESTSET then ResolveTest(s.code[i], NO_REG)
        else s.code[i];
    }
  }

  // At a jump whose test has been turned into a plain one, no value is carried any more.
  lemma DroppedExit(code: seq<Instruction>, s: Snap, s': Snap, js: seq<nat>, p: nat, r: Regs, r': Regs, c: Claim,
                    c': Claim,
                    v: Value, sense: bool)
    requires Tidy(s) && s' == Snap(DropValues(s.code, js), s.open, s.here) && Fits(s', code)
    requires p in js && p in s.open && p < |s.code| && c'.n == c.n && c'.x == c.x
    requires LeavesBy(code, s, p, r, r', c, v, sense)
    ensures LeavesBy(code, s', p, r, r', c', Boolean(IsFalse(v)), !sense)
  {
    if HasValue(s.code, p) {
      assert Allows(s', p - 1, code[p - 1]);
      assert s.code[p].op == OP_JMP;
    }
  }

  // The lists change places and their jumps stop carrying values.
  lemma NotSem(s: Snap, s': Snap, c: Claim, src: Source, src': Source, ts: seq<nat>, fs: seq<nat>)
    requires Tidy(s) && Lists(s, ts, fs)
    requires s' == Snap(DropValues(s.code, ts + fs), s.open, s.here)
    requires forall w, r, v {:trigger Holds(w, src, r, v)} :: Holds(w, src, r, v) ==>
             Holds(w, src', r, Boolean(IsFalse(v)))
    requires Sem(s, c, src, ts, fs)
    ensures Narrows(s, s')
    ensures Sem(s', c.(a := Not(c.a)), src', fs, ts)
  {
    var c', js := c.(a := Not(c.a)), ts + fs;
    assert forall j :: j in js ==> j in ts || j in fs;
    DropNarrows(s, s', js);
    forall w: World, code: seq<Instruction>, p: nat, r: Regs | Fits(s', code) && p in c'.entries
      ensures Exits(w, code, s', p, r, c', src', fs, ts)
    {
      NarrowsFits(s, s', code);
      var p', r' := Exit(w, code, s, p, r, c, src, ts, fs);
      var v := Eval(w, r, c.a);
      if p' in ts && LeavesBy(code, s, p', r, r', c, v, true) {
        DroppedExit(code, s, s', js, p', r, r', c, c', v, true);
      } else if p' in fs && LeavesBy(code, s, p', r, r', c, v, false) {
        DroppedExit(code, s, s', js, p', r, r', c, c', v, false);
      }
      assert ExitAt(w, code, s', p', r, r', c', src', fs, ts);
    }
  }

  // ---- luaK_patchtohere ----

  lemma ToHereNarrows(s: Snap, s': Snap, js: seq<nat>)
    requires Tidy(s) && s' == Snap(s.code, s.open - Elems(js), s.here + js)
    requires forall j :: j in js ==> j in s.open && j < |s.code|
    ensures Narrows(s, s')
  {
    forall i: nat, x | i < |s.code| && Allows(s', i, x)
      ensures Allows(s, i, x)
    {
      assert i in s'.here <==> i in s.here || i in js;
      assert i + 1 in s'.here <==> i + 1 in s.here || i + 1 in js;
    }
  }

  // The list of the sense that falls through becomes pending.
  lemma ToHere(s: Snap, s': Snap, c: Claim, sense: bool, ts: seq<nat>, fs: seq<nat>)
    requires Tidy(s) && Lists(s, ts, fs)
    requires var js := if sense then ts else fs; s' == Snap(s.code, s.open - Elems(js), s.here + js)
    requires Sem(s, c, Known(sense), ts, fs)
    ensures Narrows(s, s')
    ensures Sem(s', c, Known(sense), if sense then [] else ts, if sense then fs else [])
  {
    var js, ts', fs' := if sense then ts else fs, if sense then [] else ts, if sense then fs else [];
    ToHereNarrows(s, s', js);
    forall w: World, code: seq<Instruction>, p: nat, r: Regs | Fits(s', code) && p in c.entries
      ensures Exits(w, code, s', p, r, c, Known(sense), ts', fs')
    {
      NarrowsFits(s, s', code);
      var p', r' := Exit(w, code, s, p, r, c, Known(sense), ts, fs);
      if p' in js {
        assert p' in s'.here;
        if HasValue(s.code, p') {
          assert Allows(s', p' - 1, code[p' - 1]);
        }
      }
      assert ExitAt(w, code, s', p', r, r', c, Known(sense), ts', fs');
    }
  }
}
