// Shape of emitted code: what every instruction satisfies, resolved or not, and how each way of changing
// the code keeps it.
module Emission {
  import opened Instructions
  import opened JumpLists
  import opened Meaning
  import opened CommitLemmas
  import opened ExpressionLemmas

  // The fields of an instruction fit a frame of max registers and nups upvalues.
  predicate FieldsOk(x: Instruction, max: nat, nups: nat) {
    match x.op
    case OP_MOVE | OP_NOT => x.a < max && x.b < max && x.b < 256 && x.c == 0
    case OP_LOADBOOL => x.a < max
    case OP_GETUPVAL => x.a < max && x.b < nups && x.c == 0
    case OP_JMP => x.a == 0
    case OP_EQ | OP_LT | OP_LE => x.a <= 1 && x.b < max && x.c < max && x.b < 256 && x.c < 256
    case OP_TEST => x.a < max && x.b == 0
    case OP_TESTSET => x.b < max && x.b < 256 && (x.a < max || x.a == NO_REG)
    case OP_RETURN => x.a < max && x.c == 0 && (x.b <= 1 || x.a + x.b - 2 < max)
    case _ => false
  }

  // The instruction at i fits its neighbourhood: tests are followed by their jumps, skips and resolved
  // jumps stay within the code or lead just past it, and only an unresolved TESTSET lacks a register.
  ghost predicate SlotOk(s: Snap, max: nat, nups: nat, i: nat)
    requires i < |s.code|
  {
    var x := s.code[i];
    && FieldsOk(x, max, nups)
    && (TestTMode(x.op) ==> Tests(s, i))
    && (x.op == OP_LOADBOOL && x.c != 0 ==> i + 2 <= |s.code|)
    && (x.op == OP_JMP ==> i in s.open || i in s.here || 0 <= i + 1 + SBx(x) <= |s.code|)
    && (x.op == OP_TESTSET && x.a >= max ==> i + 1 in s.open || i + 1 in s.here)
  }

  // A test is followed by its jump.
  ghost predicate Tests(s: Snap, i: nat) {
    i + 1 < |s.code| && s.code[i + 1].op == OP_JMP
  }

  ghost predicate AllOk(s: Snap, max: nat, nups: nat) {
    forall i {:trigger SlotOk(s, max, nups, i)} :: 0 <= i < |s.code| ==> SlotOk(s, max, nups, i)
  }

  // Pending and open jumps are distinct jumps of the code.
  ghost predicate JumpsOk(s: Snap) {
    && (forall j :: j in s.here ==> j < |s.code| && s.code[j].op == OP_JMP && j !in s.open)
    && (forall j :: j in s.open ==> j < |s.code| && s.code[j].op == OP_JMP)
  }

  ghost predicate WellMade(s: Snap, max: nat, nups: nat) {
    AllOk(s, max, nups) && JumpsOk(s)
  }

  lemma WellMadeIsTidy(s: Snap, max: nat, nups: nat)
    requires WellMade(s, max, nups)
    ensures Tidy(s)
  {
    forall i | 0 <= i < |s.code| && TestTMode(s.code[i].op)
      ensures i + 1 < |s.code| && (s.code[i].op == OP_TESTSET ==> s.code[i].b < 256)
    {
      assert SlotOk(s, max, nups, i);
    }
  }

  lemma WellMadeGrows(s: Snap, max: nat, max': nat, nups: nat)
    requires WellMade(s, max, nups) && max <= max'
    ensures WellMade(s, max', nups)
  {
    forall i | 0 <= i < |s.code|
      ensures SlotOk(s, max', nups, i)
    {
      assert SlotOk(s, max, nups, i);
    }
  }

  lemma DischargedWellMade(s: Snap, max: nat, nups: nat)
    requires WellMade(s, max, nups) && Near(s.here, |s.code|)
    ensures WellMade(Discharged(s), max, nups)
  {
    var s' := Discharged(s);
    forall i | 0 <= i < |s.code|
      ensures SlotOk(s', max, nups, i)
    {
      assert SlotOk(s, max, nups, i);
      assert s'.code[i] == PatchSlot(s.code, s.here, i, |s.code|, NO_REG, |s.code|);
      if i in s.here {
        PatchedTarget(s.code, s.here, i, |s.code|, NO_REG, |s.code|);
      }
      if i + 1 < |s.code| {
        assert s'.code[i + 1] == PatchSlot(s.code, s.here, i + 1, |s.code|, NO_REG, |s.code|);
      }
    }
    forall j | j in s'.open
      ensures s'.code[j].op == OP_JMP
    {
      assert s'.code[j] == PatchSlot(s.code, s.here, j, |s.code|, NO_REG, |s.code|);
    }
  }

  // Appending keeps what was there; the new slots are to be checked.
  lemma AppendWellMade(s: Snap, s': Snap, extra: seq<Instruction>, max: nat, nups: nat)
    requires WellMade(s, max, nups)
    requires s'.code == s.code + extra && s'.here == s.here
    requires forall j :: j in s.open ==> j in s'.open
    requires forall j :: j in s'.open ==> j in s.open || (|s.code| <= j < |s'.code| && s'.code[j].op == OP_JMP)
    requires forall i {:trigger SlotOk(s', max, nups, i)} :: |s.code| <= i < |s'.code| ==> SlotOk(s', max, nups, i)
    ensures WellMade(s', max, nups)
  {
    forall i | 0 <= i < |s'.code|
      ensures SlotOk(s', max, nups, i)
    {
      if i < |s.code| {
        assert SlotOk(s, max, nups, i);
        assert s'.code[i] == s.code[i];
        if i + 1 < |s.code| {
          assert s'.code[i + 1] == s.code[i + 1];
        }
      }
    }
  }

  lemma DroppedWellMade(s: Snap, js: seq<nat>, max: nat, nups: nat)
    requires WellMade(s, max, nups)
    ensures WellMade(Snap(DropValues(s.code, js), s.open, s.here), max, nups)
  {
    var s' := Snap(DropValues(s.code, js), s.open, s.here);
    forall i | 0 <= i < |s.code|
      ensures SlotOk(s', max, nups, i)
    {
      assert SlotOk(s, max, nups, i);
      assert s'.code[i].op == OP_JMP <==> s.code[i].op == OP_JMP;
      if i + 1 < |s.code| {
        assert s'.code[i + 1].op == OP_JMP <==> s.code[i + 1].op == OP_JMP;
      }
    }
  }

  // ---- how later code relates to earlier code ----

  ghost predicate Untouched(s0: Snap, own: set<nat>, i: nat)
    requires i < |s0.code|
  {
    && i !in s0.here && i !in own
    && !(s0.code[i].op == OP_TESTSET && (i + 1 in s0.here || i + 1 in own))
  }

  // s1 comes later than s0; in between, only the pending jumps of s0, the jumps of own, and their tests
  // have been rewritten.
  ghost predicate Extends(s0: Snap, s1: Snap, own: set<nat>) {
    && Narrows(s0, s1)
    && (forall i {:trigger s1.code[i]} :: 0 <= i < |s0.code| && Untouched(s0, own, i) ==> s1.code[i] == s0.code[i])
    && (forall i :: 0 <= i < |s0.code| && s0.code[i].op == OP_JMP ==> s1.code[i].op == OP_JMP)
    && (forall h :: h in s1.here ==> h in s0.here || h in own || h >= |s0.code|)
    && (forall j :: j in s0.open ==> j in own || j in s1.open)
    && (forall j :: j in s1.open ==> j in s0.open || j >= |s0.code|)
  }

  lemma ExtendsSelf(s: Snap)
    ensures Extends(s, s, {})
  {
  }

  lemma ExtendsGrows(s0: Snap, s1: Snap, own: set<nat>)
    requires Extends(s0, s1, own)
    ensures |s0.code| <= |s1.code|
  {
  }

  lemma ExtendsWiden(s0: Snap, s1: Snap, own: set<nat>, own': set<nat>)
    requires Extends(s0, s1, own) && own <= own'
    ensures Extends(s0, s1, own')
  {
  }

  lemma ExtendsTrans(s0: Snap, s1: Snap, s2: Snap, own: set<nat>, own2: set<nat>)
    requires Tidy(s0) && JumpsOk(s0) && Extends(s0, s1, own) && Extends(s1, s2, own2)
    requires forall j :: j in own2 ==> j in own || j >= |s0.code|
    ensures Extends(s0, s2, own)
  {
    forall i: nat, x | i < |s0.code| && Allows(s2, i, x)
      ensures Allows(s0, i, x)
    {
      assert Allows(s1, i, x);
    }
    forall i | 0 <= i < |s0.code| && Untouched(s0, own, i)
      ensures s2.code[i] == s0.code[i]
    {
      assert s1.code[i] == s0.code[i];
    }
    forall i | 0 <= i < |s0.code| && s0.code[i].op == OP_JMP
      ensures s2.code[i].op == OP_JMP
    {
      assert s1.code[i].op == OP_JMP;
    }
  }

  // Lists of jumps that are none of the rewritten ones survive.
  lemma ExtendsKeepsList(s0: Snap, s1: Snap, own: set<nat>, head: int, js: seq<nat>)
    requires JumpsOk(s0) && Extends(s0, s1, own) && IsList(s0.code, head, js)
    requires forall j :: j in js ==> j in s0.open && j !in own
    ensures IsList(s1.code, head, js)
  {
    forall j | j in js
      ensures j < |s0.code| && s1.code[j] == s0.code[j]
    {
      assert s0.code[j].op == OP_JMP;
    }
    ListFrame(s0.code, s1.code, head, js);
  }

  lemma ExtendsKeepsValue(s0: Snap, s1: Snap, own: set<nat>, j: nat)
    requires JumpsOk(s0) && Extends(s0, s1, own) && j in s0.open && j !in own
    requires forall k :: k in own ==> k in s0.open
    ensures HasValue(s1.code, j) == HasValue(s0.code, j)
  {
    if 1 <= j {
      assert j < |s0.code| && j - 1 < |s0.code|;
      if s0.code[j - 1].op == OP_JMP {
        assert s1.code[j - 1].op == OP_JMP;
      } else {
        assert j - 1 !in s0.here;
        assert s1.code[j - 1] == s0.code[j - 1];
      }
    }
  }

  // Emission: the pending jumps are discharged, then instructions are appended.
  ghost predicate IsEmit(s: Snap, s': Snap, extra: seq<Instruction>) {
    && Near(s.here, |s.code|)
    && s'.code == Discharged(s).code + extra && s'.here == []
    && (forall j :: j in s.open ==> j in s'.open)
    && (forall j :: j in s'.open ==> j in s.open || j >= |s.code|)
  }

  lemma EmitExtends(s: Snap, s': Snap, extra: seq<Instruction>)
    requires Tidy(s) && JumpsOk(s) && IsEmit(s, s', extra)
    ensures Extends(s, s', {})
    ensures Tidy(Discharged(s)) && IsAppend(Discharged(s), s', extra)
  {
    var d := Discharged(s);
    DischargeNarrows(s);
    DischargedTidy(s);
    AppendNarrows(d, s', extra);
    assert Extends(s, d, {}) by {
      forall i | 0 <= i < |s.code|
        ensures d.code[i] == PatchSlot(s.code, s.here, i, |s.code|, NO_REG, |s.code|)
      {
      }
    }
    assert Extends(d, s', {}) by {
      forall i | 0 <= i < |s.code|
        ensures s'.code[i] == d.code[i]
      {
      }
    }
    ExtendsTrans(s, d, s', {}, {});
  }

  lemma DischargeNarrows(s: Snap)
    requires Tidy(s) && Near(s.here, |s.code|)
    ensures Narrows(s, Discharged(s))
  {
    forall i: nat, x | i < |s.code| && Allows(Discharged(s), i, x)
      ensures Allows(s, i, x)
    {
      assert Discharged(s).code[i] == PatchSlot(s.code, s.here, i, |s.code|, NO_REG, |s.code|);
    }
  }

  lemma DischargedTidy(s: Snap)
    requires Tidy(s) && Near(s.here, |s.code|)
    ensures Tidy(Discharged(s))
  {
    forall i | 0 <= i < |s.code|
      ensures Discharged(s).code[i].op == s.code[i].op || Discharged(s).code[i].op == OP_TEST
    {
      assert Discharged(s).code[i] == PatchSlot(s.code, s.here, i, |s.code|, NO_REG, |s.code|);
    }
    forall i | 0 <= i < |s.code| && TestTMode(Discharged(s).code[i].op)
      ensures i + 1 < |s.code|
    {
      assert Discharged(s).code[i] == PatchSlot(s.code, s.here, i, |s.code|, NO_REG, |s.code|);
      assert TestTMode(s.code[i].op);
    }
  }

  lemma EmitKeepsList(s: Snap, s': Snap, extra: seq<Instruction>, head: int, js: seq<nat>)
    requires IsEmit(s, s', extra) && IsList(s.code, head, js)
    requires forall j :: j in js ==> j !in s.here
    ensures IsList(s'.code, head, js)
  {
    PatchKeepsList(s.code, s.here, |s.code|, NO_REG, |s.code|, head, js);
    AppendKeepsList(Discharged(s).code, extra, head, js);
  }

  lemma EmitWellMade(s: Snap, s': Snap, extra: seq<Instruction>, max: nat, nups: nat)
    requires WellMade(s, max, nups) && IsEmit(s, s', extra)
    requires forall j :: j in s'.open ==> j in s.open || (|s.code| <= j < |s'.code| && s'.code[j].op == OP_JMP)
    requires forall i {:trigger SlotOk(s', max, nups, i)} :: |s.code| <= i < |s'.code| ==> SlotOk(s', max, nups, i)
    ensures WellMade(s', max, nups)
  {
    DischargedWellMade(s, max, nups);
    AppendWellMade(Discharged(s), s', extra, max, nups);
  }

  // The jumps of js can be sent to the end of the code, or to d when they carry no value.
  predicate Lands(code: seq<Instruction>, js: seq<nat>, d: int) {
    forall j :: j in js ==>
      var target := if HasValue(code, j) then |code| else d;
      0 <= target <= |code| && -MAXARG_SBX <= target - (j + 1) <= MAXARG_SBX
  }

  // exp2reg: both lists are resolved.
  ghost function Resolve(m: Snap, ts: seq<nat>, fs: seq<nat>, reg: Arg8, pf: int, pt: int): Snap {
    Snap(Resolved(m.code, ts, fs, reg, pf, pt), m.open - Elems(ts) - Elems(fs), m.here)
  }

  lemma ResolvedOps(m: Snap, ts: seq<nat>, fs: seq<nat>, reg: Arg8, pf: int, pt: int, i: nat)
    requires JumpsOk(m) && Lists(m, ts, fs) && i < |m.code|
    ensures m.code[i].op == OP_JMP ==> Resolve(m, ts, fs, reg, pf, pt).code[i].op == OP_JMP
  {
    ResolvedAt(m.code, ts, fs, reg, pf, pt, i);
  }

  lemma ResolvedSlotOk(m: Snap, ts: seq<nat>, fs: seq<nat>, reg: Arg8, pf: int, pt: int, max: nat, nups: nat, i: nat)
    requires JumpsOk(m) && Lists(m, ts, fs) && reg < max && reg < NO_REG
    requires Lands(m.code, ts, pt) && Lands(m.code, fs, pf)
    requires i < |m.code| && SlotOk(m, max, nups, i)
    ensures SlotOk(Resolve(m, ts, fs, reg, pf, pt), max, nups, i)
  {
    if m.code[i].op == OP_JMP {
      ResolvedJumpOk(m, ts, fs, reg, pf, pt, max, nups, i);
    } else {
      ResolvedAt(m.code, ts, fs, reg, pf, pt, i);
      if i + 1 < |m.code| {
        ResolvedOps(m, ts, fs, reg, pf, pt, i + 1);
      }
      ResolvedOtherOk(m, Resolve(m, ts, fs, reg, pf, pt), ts, fs, reg, max, nups, i);
    }
  }

  lemma ResolvedJumpOk(m: Snap, ts: seq<nat>, fs: seq<nat>, reg: Arg8, pf: int, pt: int, max: nat, nups: nat, i: nat)
    requires JumpsOk(m) && Lists(m, ts, fs)
    requires Lands(m.code, ts, pt) && Lands(m.code, fs, pf)
    requires i < |m.code| && SlotOk(m, max, nups, i) && m.code[i].op == OP_JMP
    ensures SlotOk(Resolve(m, ts, fs, reg, pf, pt), max, nups, i)
  {
    ResolvedAt(m.code, ts, fs, reg, pf, pt, i);
  }

  lemma ResolvedOtherOk(m: Snap, m': Snap, ts: seq<nat>, fs: seq<nat>, reg: Arg8, max: nat, nups: nat, i: nat)
    requires |m'.code| == |m.code| && m'.open == m.open - Elems(ts) - Elems(fs) && m'.here == m.here
    requires reg < max && reg < NO_REG
    requires i < |m.code| && SlotOk(m, max, nups, i) && m.code[i].op != OP_JMP
    requires i + 1 < |m.code| && m.code[i + 1].op == OP_JMP ==> m'.code[i + 1].op == OP_JMP
    requires m'.code[i] == if (i + 1 in ts || i + 1 in fs) && m.code[i].op == OP_TESTSET then
             ResolveTest(m.code[i], reg) else m.code[i]
    ensures SlotOk(m', max, nups, i)
  {
  }

  lemma ResolvedWellMade(m: Snap, ts: seq<nat>, fs: seq<nat>, reg: Arg8, pf: int, pt: int, max: nat, nups: nat)
    requires WellMade(m, max, nups) && Lists(m, ts, fs) && reg < max && reg < NO_REG
    requires Lands(m.code, ts, pt) && Lands(m.code, fs, pf)
    ensures WellMade(Resolve(m, ts, fs, reg, pf, pt), max, nups)
  {
    forall i | 0 <= i < |m.code|
      ensures SlotOk(Resolve(m, ts, fs, reg, pf, pt), max, nups, i)
    {
      ResolvedSlotOk(m, ts, fs, reg, pf, pt, max, nups, i);
    }
    forall i | 0 <= i < |m.code| && m.code[i].op == OP_JMP
      ensures Resolve(m, ts, fs, reg, pf, pt).code[i].op == OP_JMP
    {
      ResolvedOps(m, ts, fs, reg, pf, pt, i);
    }
  }
}
