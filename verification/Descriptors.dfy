// Expression descriptors, and what each step of the generator does to the claim behind one.
module Descriptors {
  import opened Instructions
  import opened JumpLists
  import opened Machine
  import opened Meaning
  import opened CommitLemmas
  import opened ExpressionLemmas
  import opened Emission

  // Constants, globals, table elements and calls are not part of the fragment.
  datatype ExpKind = VLOCAL | VUPVAL | VJMP | VRELOCABLE | VNONRELOC
  datatype ExpDesc = ExpDesc(k: ExpKind, info: nat, t: int, f: int)

  predicate HasJumps(e: ExpDesc) {
    e.t != e.f
  }

  // outer: the open jumps of the enclosing expressions
  datatype Frame = Frame(max: nat, nactvar: nat, nups: nat, outer: set<nat>)

  // The jump of a test is on no list yet.
  function OwnJump(e: ExpDesc): int {
    if e.k == VJMP then e.info else NO_JUMP
  }

  // Every open jump is on one of the lists, is j, or belongs to an enclosing expression.
  ghost predicate Accounted(s: Snap, outer: set<nat>, ts: seq<nat>, fs: seq<nat>, j: int) {
    forall k {:trigger k in s.open} :: k in s.open ==> k in outer || k in ts || k in fs || k == j
  }

  // The part of the code that does not depend on what happens to e next: all of it, but for the
  // instruction without a target register of a VRELOCABLE and the test and jump of a VJMP.
  ghost function Committed(s: Snap, e: ExpDesc): Snap {
    if e.k == VRELOCABLE && |s.code| >= 1 then Snap(s.code[..|s.code| - 1], s.open, s.here)
    else if e.k == VJMP && |s.code| >= 2 then Snap(s.code[..|s.code| - 2], s.open - {|s.code| - 1}, s.here)
    else s
  }

  ghost function SourceOf(s: Snap, e: ExpDesc): Source
    requires e.k == VRELOCABLE ==> e.info < |s.code|
    requires e.k == VJMP ==> 1 <= e.info <= |s.code|
  {
    match e.k
    case VLOCAL | VNONRELOC => InReg(e.info)
    case VUPVAL => InUpvalue(e.info)
    case VRELOCABLE => Computed(s.code[e.info])
    case VJMP => Tested(s.code[e.info - 1])
  }

  // e, with the jumps ts on its t-list and fs on its f-list, describes an expression in the state s.
  ghost predicate Describes(s: Snap, f: Frame, e: ExpDesc, ts: seq<nat>, fs: seq<nat>) {
    && WellMade(s, f.max, f.nups)
    && f.nactvar <= f.max < MAXSTACK
    && IsList(s.code, e.t, ts) && IsList(s.code, e.f, fs) && Lists(s, ts, fs)
    && Accounted(s, f.outer, ts, fs, OwnJump(e))
    && match e.k
       case VLOCAL => e.info < f.nactvar
       case VNONRELOC => e.info < f.max
       case VUPVAL => e.info < f.nups
       case VRELOCABLE =>
         && e.info == |s.code| - 1 && s.here == []
         && (s.code[e.info].op == OP_NOT || s.code[e.info].op == OP_GETUPVAL)
         && WellMade(Committed(s, e), f.max, f.nups)
       case VJMP =>
         && 1 <= e.info == |s.code| - 1 && s.here == []
         && IsComparison(s.code[e.info - 1].op)
         && e.info in s.open && e.info !in ts && e.info !in fs && IsList(s.code, e.info, [e.info])
         && WellMade(Committed(s, e), f.max, f.nups)
  }

  ghost predicate Means(s: Snap, f: Frame, e: ExpDesc, c: Claim, ts: seq<nat>, fs: seq<nat>) {
    && Describes(s, f, e, ts, fs)
    && Sem(Committed(s, e), c, SourceOf(s, e), ts, fs)
  }

  lemma CommittedLists(s: Snap, f: Frame, e: ExpDesc, ts: seq<nat>, fs: seq<nat>)
    requires Describes(s, f, e, ts, fs)
    ensures Lists(Committed(s, e), ts, fs) && WellMade(Committed(s, e), f.max, f.nups) && Tidy(Committed(s, e))
  {
    WellMadeIsTidy(Committed(s, e), f.max, f.nups);
    forall j | j in ts || j in fs
      ensures j < |Committed(s, e).code|
    {
      assert s.code[j].op == OP_JMP;
    }
  }

  // Nothing is left to patch once the expression is in a register.
  lemma NothingOpen(s: Snap, f: Frame, e: ExpDesc)
    requires Describes(s, f, e, [], []) && e.k == VNONRELOC && f.outer == {}
    ensures s.open == {}
  {
  }

  lemma EmitDescribes(s: Snap, s': Snap, f: Frame, e: ExpDesc, ts: seq<nat>, fs: seq<nat>, extra: seq<Instruction>)
    requires Describes(s, f, e, ts, fs) && IsEmit(s, s', extra)
    ensures IsList(s'.code, e.t, ts) && IsList(s'.code, e.f, fs) && Lists(s', ts, fs)
  {
    EmitKeepsList(s, s', extra, e.t, ts);
    EmitKeepsList(s, s', extra, e.f, fs);
  }

  lemma EmitOne(s: Snap, s': Snap, f: Frame, i: Instruction)
    requires WellMade(s, f.max, f.nups) && IsEmit(s, s', [i]) && s'.open == s.open
    requires FieldsOk(i, f.max, f.nups) && !TestTMode(i.op) && i.op != OP_JMP && (i.op == OP_LOADBOOL ==> i.c == 0)
    ensures WellMade(s', f.max, f.nups) && WellMade(Discharged(s), f.max, f.nups)
    ensures Tidy(s) && Extends(s, s', {}) && Extends(s, Discharged(s), {}) && IsAppend(Discharged(s), s', [i])
  {
    WellMadeIsTidy(s, f.max, f.nups);
    assert s'.code[|s.code|] == i;
    EmitWellMade(s, s', [i], f.max, f.nups);
    DischargedWellMade(s, f.max, f.nups);
    EmitExtends(s, s', [i]);
    assert Discharged(s).code + [] == Discharged(s).code;
    EmitExtends(s, Discharged(s), []);
  }

  lemma AppendExtends(s: Snap, s': Snap, extra: seq<Instruction>)
    requires JumpsOk(s) && IsAppend(s, s', extra)
    ensures Extends(s, s', {})
  {
    assert Discharged(s).code == s.code;
    EmitExtends(s, s', extra);
  }

  lemma MeansGrows(s: Snap, f: Frame, f': Frame, e: ExpDesc, c: Claim, ts: seq<nat>, fs: seq<nat>)
    requires Means(s, f, e, c, ts, fs) && f' == f.(max := f'.max) && f.max <= f'.max < MAXSTACK
    ensures Means(s, f', e, c, ts, fs)
  {
    WellMadeGrows(s, f.max, f'.max, f.nups);
    if e.k == VRELOCABLE || e.k == VJMP {
      WellMadeGrows(Committed(s, e), f.max, f'.max, f.nups);
    }
  }

  // luaK_dischargevars on an upvalue
  lemma DischargeUpvalue(s: Snap, s': Snap, f: Frame, e: ExpDesc, e': ExpDesc, c: Claim, ts: seq<nat>, fs: seq<nat>,
                         i: Instruction)
    requires Means(s, f, e, c, ts, fs) && e.k == VUPVAL && f.max >= 1
    requires e.info < 512 && i == ABC(OP_GETUPVAL, 0, e.info, 0) && IsEmit(s, s', [i]) && s'.open == s.open
    requires e' == e.(k := VRELOCABLE, info := |s.code|)
    ensures Means(s', f, e', c, ts, fs)
    ensures Extends(s, Committed(s', e'), {})
  {
    EmitOne(s, s', f, i);
    EmitDescribes(s, s', f, e, ts, fs, [i]);
    assert Committed(s', e') == Discharged(s);
    DischargeUpvalueSem(s, f, e, c, ts, fs, i);
  }

  lemma DischargeUpvalueSem(s: Snap, f: Frame, e: ExpDesc, c: Claim, ts: seq<nat>, fs: seq<nat>, i: Instruction)
    requires Means(s, f, e, c, ts, fs) && e.k == VUPVAL && Near(s.here, |s.code|)
    requires e.info < 512 && i == ABC(OP_GETUPVAL, 0, e.info, 0)
    ensures Sem(Discharged(s), c, Computed(i), ts, fs)
  {
    WellMadeIsTidy(s, f.max, f.nups);
    DischargeSem(s, c, InUpvalue(e.info), ts, fs);
    Weaken(Discharged(s), c, c, InUpvalue(e.info), Computed(i), ts, fs);
  }

  // discharge2reg on a VRELOCABLE: the pending instruction gets the register.
  lemma RelocateTo(s: Snap, s': Snap, f: Frame, e: ExpDesc, e': ExpDesc, ts: seq<nat>, fs: seq<nat>, reg: Arg8)
    requires Describes(s, f, e, ts, fs) && e.k == VRELOCABLE && reg < f.max
    requires s' == Snap(s.code[e.info := s.code[e.info].(a := reg)], s.open, s.here)
    requires e' == e.(k := VNONRELOC, info := reg)
    ensures IsAppend(Committed(s, e), s', [s.code[e.info].(a := reg)])
    ensures Describes(s', f, e', ts, fs)
    ensures Extends(Committed(s, e), s', {})
  {
    var d, i := Committed(s, e), s.code[e.info];
    CommittedLists(s, f, e, ts, fs);
    ListFrame(s.code, s'.code, e.t, ts);
    ListFrame(s.code, s'.code, e.f, fs);
    assert s'.code == d.code + [i.(a := reg)];
    assert SlotOk(s, f.max, f.nups, e.info);
    AppendWellMade(d, s', [i.(a := reg)], f.max, f.nups);
    AppendExtends(d, s', [i.(a := reg)]);
  }

  lemma RelocateSem(s: Snap, s': Snap, f: Frame, e: ExpDesc, c: Claim, ts: seq<nat>, fs: seq<nat>, reg: Arg8)
    requires Means(s, f, e, c, ts, fs) && e.k == VRELOCABLE && (reg >= c.n || reg == c.x)
    requires IsAppend(Committed(s, e), s', [s.code[e.info].(a := reg)]) && s'.open == s.open
    ensures Sem(s', c, InReg(reg), ts, fs)
  {
    CommittedLists(s, f, e, ts, fs);
    CommitComputed(Committed(s, e), s', c, s.code[e.info], reg, ts, fs);
  }

  // discharge2reg on a VNONRELOC in another register
  lemma MovedTo(s: Snap, s': Snap, f: Frame, e: ExpDesc, e': ExpDesc, ts: seq<nat>, fs: seq<nat>, reg: Arg8)
    requires Describes(s, f, e, ts, fs) && e.k == VNONRELOC && reg < f.max
    requires IsEmit(s, s', [ABC(OP_MOVE, reg, e.info, 0)]) && s'.open == s.open
    requires e' == e.(info := reg)
    ensures Describes(s', f, e', ts, fs)
    ensures Extends(s, s', {})
  {
    EmitOne(s, s', f, ABC(OP_MOVE, reg, e.info, 0));
    EmitDescribes(s, s', f, e, ts, fs, [ABC(OP_MOVE, reg, e.info, 0)]);
  }

  lemma MoveSem(s: Snap, s': Snap, f: Frame, e: ExpDesc, c: Claim, ts: seq<nat>, fs: seq<nat>, reg: Arg8)
    requires Means(s, f, e, c, ts, fs) && e.k == VNONRELOC && (reg >= c.n || reg == c.x)
    requires IsEmit(s, s', [ABC(OP_MOVE, reg, e.info, 0)]) && s'.open == s.open
    ensures Sem(s', c, InReg(reg), ts, fs)
  {
    WellMadeIsTidy(s, f.max, f.nups);
    EmitExtends(s, s', [ABC(OP_MOVE, reg, e.info, 0)]);
    DischargeSem(s, c, InReg(e.info), ts, fs);
    CommitMove(Discharged(s), s', c, e.info, reg, ts, fs);
  }

  // ---- relinking: only the links between unresolved jumps change ----

  ghost predicate Relinked(s: Snap, s': Snap) {
    && |s'.code| == |s.code| && s'.open == s.open && s'.here == s.here
    && forall i {:trigger s'.code[i]} {:trigger s.code[i]} :: 0 <= i < |s.code| ==>
         s'.code[i] == s.code[i] ||
         ((i in s.open || i in s.here) && s'.code[i].op == s.code[i].op == OP_JMP && s'.code[i].a == s.code[i].a)
  }

  lemma LinkRelinks(s: Snap, js: seq<nat>, head: int)
    requires forall j :: j in js ==> j < |s.code| && s.code[j].op == OP_JMP && (j in s.open || j in s.here)
    ensures Relinked(s, Snap(Link(s.code, js, head), s.open, s.here))
  {
    if js != [] {
      assert js[|js| - 1] in js;
    }
  }

  lemma RelinkedNarrows(s: Snap, s': Snap)
    requires Relinked(s, s')
    ensures Narrows(s, s')
  {
    forall i: nat, x | i < |s.code| && Allows(s', i, x)
      ensures Allows(s, i, x)
    {
      assert s'.code[i].op == s.code[i].op;
    }
  }

  lemma RelinkedSem(s: Snap, s': Snap, c: Claim, src: Source, ts: seq<nat>, fs: seq<nat>)
    requires Relinked(s, s') && Sem(s, c, src, ts, fs)
    ensures Sem(s', c, src, ts, fs)
  {
    RelinkedNarrows(s, s');
    forall w: World, code: seq<Instruction>, p: nat, r: Regs | Fits(s', code) && p in c.entries
      ensures Exits(w, code, s', p, r, c, src, ts, fs)
    {
      NarrowsFits(s, s', code);
      var p', r' := Exit(w, code, s, p, r, c, src, ts, fs);
      assert HasValue(s'.code, p') == HasValue(s.code, p');
      assert ExitAt(w, code, s', p', r, r', c, src, ts, fs);
    }
  }

  lemma RelinkedWellMade(s: Snap, s': Snap, f: Frame)
    requires Relinked(s, s') && WellMade(s, f.max, f.nups)
    ensures WellMade(s', f.max, f.nups)
  {
    forall i | 0 <= i < |s.code|
      ensures SlotOk(s', f.max, f.nups, i)
    {
      assert SlotOk(s, f.max, f.nups, i);
      assert s'.code[i].op == s.code[i].op;
      if i + 1 < |s.code| {
        assert s'.code[i + 1].op == s.code[i + 1].op;
      }
    }
    forall j | j in s'.open || j in s'.here
      ensures s'.code[j].op == OP_JMP
    {
      assert s'.code[j].op == s.code[j].op;
    }
  }

  // own holds the jumps whose links may have changed
  lemma RelinkedExtends(s: Snap, s': Snap, js: seq<nat>)
    requires Relinked(s, s')
    requires forall i :: 0 <= i < |s.code| && i !in js && i !in s.here ==> s'.code[i] == s.code[i]
    ensures Extends(s, s', Elems(js))
  {
    RelinkedNarrows(s, s');
    forall i | 0 <= i < |s.code| && s.code[i].op == OP_JMP
      ensures s'.code[i].op == OP_JMP
    {
      assert s'.code[i] == s.code[i] || s'.code[i].op == OP_JMP;
    }
  }

  // ---- code that ends in two lists and falls through with a value ----

  ghost predicate Split(s: Snap, f: Frame, t: int, fl: int, c: Claim, src: Source, ts: seq<nat>, fs: seq<nat>) {
    && WellMade(s, f.max, f.nups) && f.nactvar <= f.max < MAXSTACK
    && IsList(s.code, t, ts) && IsList(s.code, fl, fs) && Lists(s, ts, fs)
    && Accounted(s, f.outer, ts, fs, NO_JUMP)
    && Sem(s, c, src, ts, fs)
  }

  // A test is kept: its jump joins the t-list (sense true), or the test is inverted and its jump joins
  // the f-list (sense false).
  function KeptTest(i: Instruction, sense: bool): Instruction
    requires i.a <= 1
  {
    if sense then i else i.(a := 1 - i.a)
  }

  ghost function Kept(s: Snap, e: ExpDesc, sense: bool, js: seq<nat>): Snap
    requires 1 <= e.info <= |s.code| && s.code[e.info - 1].a <= 1
    requires forall j :: j in js ==> j < |s.code|
  {
    Snap(Link(s.code[e.info - 1 := KeptTest(s.code[e.info - 1], sense)], js, e.info), s.open, s.here)
  }

  // The committed part, with the end of the list relinked.
  ghost function KeptPart(s: Snap, e: ExpDesc, js: seq<nat>): Snap
    requires forall j :: j in js ==> j < |Committed(s, e).code|
  {
    var d := Committed(s, e);
    Snap(Link(d.code, js, e.info), d.open, d.here)
  }

  lemma TestArgument(s: Snap, f: Frame, e: ExpDesc, ts: seq<nat>, fs: seq<nat>)
    requires Describes(s, f, e, ts, fs) && e.k == VJMP
    ensures s.code[e.info - 1].a <= 1
    ensures forall j :: j in ts || j in fs ==> j < |Committed(s, e).code|
  {
    assert SlotOk(s, f.max, f.nups, e.info - 1);
    CommittedLists(s, f, e, ts, fs);
  }

  lemma KeptShape(s: Snap, f: Frame, e: ExpDesc, sense: bool, ts: seq<nat>, fs: seq<nat>, js: seq<nat>)
    requires Describes(s, f, e, ts, fs) && e.k == VJMP && js == (if sense then ts else fs)
    ensures s.code[e.info - 1].a <= 1 && forall j :: j in js ==> j < |Committed(s, e).code|
    ensures Relinked(Committed(s, e), KeptPart(s, e, js)) && WellMade(KeptPart(s, e, js), f.max, f.nups)
    ensures Kept(s, e, sense, js).code == KeptPart(s, e, js).code + [KeptTest(s.code[e.info - 1], sense),
            s.code[e.info]]
  {
    TestArgument(s, f, e, ts, fs);
    CommittedLists(s, f, e, ts, fs);
    var d := Committed(s, e);
    LinkRelinks(d, js, e.info);
    RelinkedWellMade(d, KeptPart(s, e, js), f);
    LinkBeforeTest(s.code, e.info - 1, js, e.info, KeptTest(s.code[e.info - 1], sense));
  }

  lemma KeptAppend(s: Snap, f: Frame, e: ExpDesc, sense: bool, ts: seq<nat>, fs: seq<nat>, js: seq<nat>)
    requires Describes(s, f, e, ts, fs) && e.k == VJMP && js == (if sense then ts else fs)
    requires s.code[e.info - 1].a <= 1 && forall j :: j in js ==> j < |Committed(s, e).code|
    ensures IsTestAppend(KeptPart(s, e, js), Kept(s, e, sense, js), KeptTest(s.code[e.info - 1], sense), s.code[e.info])
  {
    KeptShape(s, f, e, sense, ts, fs, js);
    WellMadeIsTidy(KeptPart(s, e, js), f.max, f.nups);
  }

  lemma KeptWellMade(s: Snap, f: Frame, e: ExpDesc, sense: bool, ts: seq<nat>, fs: seq<nat>, js: seq<nat>)
    requires Describes(s, f, e, ts, fs) && e.k == VJMP && js == (if sense then ts else fs)
    requires s.code[e.info - 1].a <= 1 && forall j :: j in js ==> j < |Committed(s, e).code|
    ensures WellMade(Kept(s, e, sense, js), f.max, f.nups)
  {
    hide Link;
    KeptShape(s, f, e, sense, ts, fs, js);
    var d', s' := KeptPart(s, e, js), Kept(s, e, sense, js);
    var extra := [KeptTest(s.code[e.info - 1], sense), s.code[e.info]];
    assert SlotOk(s, f.max, f.nups, e.info - 1) && SlotOk(s, f.max, f.nups, e.info);
    assert s'.code[|d'.code|] == extra[0] && s'.code[|d'.code| + 1] == extra[1];
    AppendWellMade(d', s', extra, f.max, f.nups);
  }

  lemma KeptExtends(s: Snap, f: Frame, e: ExpDesc, sense: bool, ts: seq<nat>, fs: seq<nat>, js: seq<nat>)
    requires Describes(s, f, e, ts, fs) && e.k == VJMP && js == (if sense then ts else fs)
    requires s.code[e.info - 1].a <= 1 && forall j :: j in js ==> j < |Committed(s, e).code|
    ensures Extends(Committed(s, e), Kept(s, e, sense, js), Elems(js))
  {
    KeptShape(s, f, e, sense, ts, fs, js);
    KeptAppend(s, f, e, sense, ts, fs, js);
    CommittedLists(s, f, e, ts, fs);
    var d, d', s' := Committed(s, e), KeptPart(s, e, js), Kept(s, e, sense, js);
    RelinkedExtends(d, d', js);
    AppendExtends(d', s', [KeptTest(s.code[e.info - 1], sense), s.code[e.info]]);
    ExtendsTrans(d, d', s', Elems(js), {});
  }

  lemma KeptSem(s: Snap, f: Frame, e: ExpDesc, sense: bool, c: Claim, ts: seq<nat>, fs: seq<nat>, js: seq<nat>)
    requires Means(s, f, e, c, ts, fs) && e.k == VJMP && js == (if sense then ts else fs)
    requires s.code[e.info - 1].a <= 1 && forall j :: j in js ==> j < |Committed(s, e).code|
    ensures Sem(Kept(s, e, sense, js), c, Exactly(!sense), Joined(ts, e.info, sense), Joined(fs, e.info, !sense))
  {
    KeptShape(s, f, e, sense, ts, fs, js);
    KeptAppend(s, f, e, sense, ts, fs, js);
    CommittedLists(s, f, e, ts, fs);
    var d, d', s' := Committed(s, e), KeptPart(s, e, js), Kept(s, e, sense, js);
    assert IsComparison(s.code[e.info - 1].op) && SourceOf(s, e) == Tested(s.code[e.info - 1]);
    assert e.info == |d.code| + 1 && Sem(d, c, SourceOf(s, e), ts, fs);
    hide *;
    KeptTestSem(d, d', s', c, s.code[e.info - 1], s.code[e.info], sense, ts, fs);
  }

  lemma KeptTestSem(d: Snap, d': Snap, s': Snap, c: Claim, i: Instruction, jump: Instruction, sense: bool, ts: seq<nat>,
                    fs: seq<nat>)
    requires Relinked(d, d') && Tidy(d) && Lists(d, ts, fs) && IsComparison(i.op) && i.a <= 1
    requires Sem(d, c, Tested(i), ts, fs) && IsTestAppend(d', s', KeptTest(i, sense), jump)
    ensures var j := |d.code| + 1; Sem(s', c, Exactly(!sense), Joined(ts, j, sense), Joined(fs, j, !sense))
  {
    RelinkedSem(d, d', c, Tested(i), ts, fs);
    var test := KeptTest(i, sense);
    assert (if sense then test else test.(a := 1 - test.a)) == i;
    assert Lists(d', ts, fs) && |d'.code| == |d.code| && IsComparison(test.op) && test.a <= 1;
    hide *;
    CommitTest(d', s', c, test, jump, sense, ts, fs);
  }

  // The other list is untouched, and the two stay disjoint lists of open jumps.
  lemma KeptLists(s: Snap, f: Frame, e: ExpDesc, sense: bool, ts: seq<nat>, fs: seq<nat>, js: seq<nat>)
    requires Describes(s, f, e, ts, fs) && e.k == VJMP && js == (if sense then ts else fs)
    requires s.code[e.info - 1].a <= 1 && forall j :: j in js ==> j < |Committed(s, e).code|
    ensures var s' := Kept(s, e, sense, js);
            && IsList(s'.code, if sense then e.f else e.t, if sense then fs else ts)
            && Lists(s', Joined(ts, e.info, sense), Joined(fs, e.info, !sense))
  {
    hide WellMade, Accounted;
    var other, head := if sense then fs else ts, if sense then e.f else e.t;
    var code1 := s.code[e.info - 1 := KeptTest(s.code[e.info - 1], sense)];
    ListBounds(s.code, head, other);
    ListFrame(s.code, code1, head, other);
    LinkKeepsList(code1, js, e.info, head, other);
  }

  // The jump of a test never carries a value.
  lemma KeptControl(s: Snap, f: Frame, e: ExpDesc, ts: seq<nat>, fs: seq<nat>)
    requires Describes(s, f, e, ts, fs) && e.k == VJMP
    requires s.code[e.info - 1].a <= 1 && forall j :: j in ts ==> j < |Committed(s, e).code|
    ensures !HasValue(Kept(s, e, true, ts).code, e.info)
  {
    KeptShape(s, f, e, true, ts, fs, ts);
  }

  lemma KeptSplit(s: Snap, f: Frame, e: ExpDesc, sense: bool, l: int, c: Claim, ts: seq<nat>, fs: seq<nat>,
                  js: seq<nat>)
    requires Means(s, f, e, c, ts, fs) && e.k == VJMP && js == (if sense then ts else fs)
    requires s.code[e.info - 1].a <= 1 && forall j :: j in js ==> j < |Committed(s, e).code|
    requires IsList(Kept(s, e, sense, js).code, l, js + [e.info])
    ensures Split(Kept(s, e, sense, js), f, if sense then l else e.t, if sense then e.f else l, c, Exactly(!sense),
                  Joined(ts, e.info, sense), Joined(fs, e.info, !sense))
    ensures Extends(Committed(s, e), Kept(s, e, sense, js), Elems(js))
  {
    KeptWellMade(s, f, e, sense, ts, fs, js);
    KeptLists(s, f, e, sense, ts, fs, js);
    KeptSem(s, f, e, sense, c, ts, fs, js);
    KeptExtends(s, f, e, sense, ts, fs, js);
  }

  // The same, with what is known of the value less precise
  lemma KeptKnown(s: Snap, f: Frame, e: ExpDesc, sense: bool, l: int, c: Claim, ts: seq<nat>, fs: seq<nat>,
                  js: seq<nat>)
    requires Means(s, f, e, c, ts, fs) && e.k == VJMP && js == (if sense then ts else fs)
    requires s.code[e.info - 1].a <= 1 && forall j :: j in js ==> j < |Committed(s, e).code|
    requires IsList(Kept(s, e, sense, js).code, l, js + [e.info])
    ensures Split(Kept(s, e, sense, js), f, if sense then l else e.t, if sense then e.f else l, c, Known(!sense),
                  Joined(ts, e.info, sense), Joined(fs, e.info, !sense))
  {
    KeptWellMade(s, f, e, sense, ts, fs, js);
    KeptLists(s, f, e, sense, ts, fs, js);
    KeptKnownSem(s, f, e, sense, c, ts, fs, js);
  }

  lemma KeptKnownSem(s: Snap, f: Frame, e: ExpDesc, sense: bool, c: Claim, ts: seq<nat>, fs: seq<nat>, js: seq<nat>)
    requires Means(s, f, e, c, ts, fs) && e.k == VJMP && js == (if sense then ts else fs)
    requires s.code[e.info - 1].a <= 1 && forall j :: j in js ==> j < |Committed(s, e).code|
    ensures Sem(Kept(s, e, sense, js), c, Known(!sense), Joined(ts, e.info, sense), Joined(fs, e.info, !sense))
  {
    KeptSem(s, f, e, sense, c, ts, fs, js);
    Weaken(Kept(s, e, sense, js), c, c, Exactly(!sense), Known(!sense), Joined(ts, e.info, sense), Joined(fs, e.info,
      !sense));
  }

  lemma KeptExtendsBoth(s: Snap, f: Frame, e: ExpDesc, sense: bool, ts: seq<nat>, fs: seq<nat>, js: seq<nat>)
    requires Describes(s, f, e, ts, fs) && e.k == VJMP && js == (if sense then ts else fs)
    requires s.code[e.info - 1].a <= 1 && forall j :: j in js ==> j < |Committed(s, e).code|
    ensures Extends(Committed(s, e), Kept(s, e, sense, js), Elems(ts) + Elems(fs))
  {
    KeptExtends(s, f, e, sense, ts, fs, js);
    ExtendsWiden(Committed(s, e), Kept(s, e, sense, js), Elems(js), Elems(ts) + Elems(fs));
  }

  // ---- exp2reg: the lists are resolved ----

  // m is s, possibly with labels appended and a jump over them pending.
  ghost predicate IsLabelled(s: Snap, m: Snap, reg: Arg8, over: seq<Instruction>) {
    && |over| <= 1 && (over != [] ==> over[0].op == OP_JMP && over[0].a == 0)
    && m.code == s.code + over + Labels(reg) && m.open == s.open
    && m.here == (if over == [] then [] else [|s.code|]) + s.here
  }

  lemma LabelledWellMade(s: Snap, m: Snap, f: Frame, reg: Arg8, over: seq<Instruction>)
    requires WellMade(s, f.max, f.nups) && IsLabelled(s, m, reg, over) && reg < f.max
    requires over == [] ==> s.here == []
    ensures WellMade(m, f.max, f.nups)
  {
    var n := |s.code|;
    assert m.here == (if over == [] then [] else [n]) + s.here;
    assert forall h :: h in m.here <==> h in s.here || (over != [] && h == n);
    forall i | 0 <= i < |m.code|
      ensures SlotOk(m, f.max, f.nups, i)
    {
      if i < n {
        assert SlotOk(s, f.max, f.nups, i);
        assert m.code[i] == s.code[i];
        if i + 1 < n {
          assert m.code[i + 1] == s.code[i + 1];
        }
      } else if i >= n + |over| {
        assert m.code[i] == Labels(reg)[i - n - |over|];
      } else {
        assert m.code[i] == over[0];
      }
    }
    forall j | j in m.here || j in m.open
      ensures j < |m.code| && m.code[j].op == OP_JMP && (j in m.here ==> j !in m.open)
    {
      if j < n {
        assert m.code[j] == s.code[j];
      } else {
        assert m.code[j] == over[0];
      }
    }
  }

  lemma LabelledLists(s: Snap, m: Snap, t: int, fl: int, reg: Arg8, over: seq<Instruction>, ts: seq<nat>, fs: seq<nat>)
    requires JumpsOk(s) && Lists(s, ts, fs) && IsLabelled(s, m, reg, over)
    requires IsList(s.code, t, ts) && IsList(s.code, fl, fs)
    ensures IsList(m.code, t, ts) && IsList(m.code, fl, fs)
    ensures forall h :: h in m.here ==> h !in ts && h !in fs
  {
    assert m.code == s.code + (over + Labels(reg));
    AppendKeepsList(s.code, over + Labels(reg), t, ts);
    AppendKeepsList(s.code, over + Labels(reg), fl, fs);
    assert forall h :: h in m.here ==> h in s.here || h == |s.code|;
  }

  // Resolution proper, from the state s before the labels.
  lemma ResolutionOf(s: Snap, m: Snap, s': Snap, f: Frame, reg: Arg8, pf: int, pt: int, ts: seq<nat>, fs: seq<nat>)
    requires WellMade(s, f.max, f.nups) && Lists(s, ts, fs)
    requires |s.code| <= |m.code| && m.code[..|s.code|] == s.code && m.open == s.open
    requires forall h :: h in m.here ==> h in s.here || h >= |s.code|
    requires forall h :: h in s.here ==> h in m.here
    requires s' == Resolve(m, ts, fs, reg, pf, pt) && Lands(m.code, ts, pt) && Lands(m.code, fs, pf)
    ensures IsResolution(m.code, s, s', ts, fs, reg, pf, pt)
  {
    WellMadeIsTidy(s, f.max, f.nups);
    forall i | 0 <= i < |s.code|
      ensures m.code[i] == s.code[i]
    {
      assert m.code[..|s.code|][i] == s.code[i];
    }
    forall j | j in ts || j in fs
      ensures HasValue(m.code, j) == HasValue(s.code, j)
    {
    }
  }

  lemma ResolutionExtends(s: Snap, m: Snap, s': Snap, f: Frame, reg: Arg8, pf: int, pt: int, ts: seq<nat>, fs: seq<nat>)
    requires WellMade(s, f.max, f.nups) && Lists(s, ts, fs) && reg < NO_REG
    requires IsResolution(m.code, s, s', ts, fs, reg, pf, pt)
    ensures Extends(s, s', Elems(ts) + Elems(fs))
  {
    var own := Elems(ts) + Elems(fs);
    ResolutionNarrows(m.code, s, s', ts, fs, reg, pf, pt);
    forall i | 0 <= i < |s.code|
      ensures Untouched(s, own, i) ==> s'.code[i] == s.code[i]
      ensures s.code[i].op == OP_JMP ==> s'.code[i].op == OP_JMP
    {
      ResolvedAt(m.code, ts, fs, reg, pf, pt, i);
    }
  }

  function InRegister(reg: nat): ExpDesc {
    ExpDesc(VNONRELOC, reg, NO_JUMP, NO_JUMP)
  }

  // No jump needs a value: no labels.
  lemma ResolveValues(s: Snap, s': Snap, f: Frame, t: int, fl: int, c: Claim, reg: Arg8, ts: seq<nat>, fs: seq<nat>)
    requires Split(s, f, t, fl, c, InReg(reg), ts, fs)
    requires reg < f.max && (reg >= c.n || reg == c.x)
    requires forall j :: j in ts || j in fs ==> HasValue(s.code, j)
    requires s' == Resolve(s, ts, fs, reg, NO_JUMP, NO_JUMP) && Lands(s.code, ts, NO_JUMP) && Lands(s.code, fs, NO_JUMP)
    ensures Means(s', f, InRegister(reg), c, [], [])
    ensures Extends(s, s', Elems(ts) + Elems(fs))
  {
    assert s.code[..|s.code|] == s.code;
    ResolutionOf(s, s, s', f, reg, NO_JUMP, NO_JUMP, ts, fs);
    ResolvedWellMade(s, ts, fs, reg, NO_JUMP, NO_JUMP, f.max, f.nups);
    ValuesSem(s, s', c, reg, ts, fs);
    ResolutionExtends(s, s, s', f, reg, NO_JUMP, NO_JUMP, ts, fs);
  }

  lemma ResolveLabels(s: Snap, m: Snap, s': Snap, f: Frame, t: int, fl: int, c: Claim, src: Source, reg: Arg8,
                      over: seq<Instruction>,
                      ts: seq<nat>, fs: seq<nat>)
    requires Split(s, f, t, fl, c, src, ts, fs) && src == (if over == [] then Exactly(false) else InReg(reg))
    requires over == [] ==> s.here == []
    requires reg < f.max && (reg >= c.n || reg == c.x) && IsLabelled(s, m, reg, over)
    requires s' == Resolve(m, ts, fs, reg, |m.code| - 2, |m.code| - 1)
    requires Lands(m.code, ts, |m.code| - 1) && Lands(m.code, fs, |m.code| - 2)
    ensures Means(s', f, InRegister(reg), c, [], [])
    ensures Extends(s, s', Elems(ts) + Elems(fs))
  {
    var pf, pt := |m.code| - 2, |m.code| - 1;
    assert m.code[..|s.code|] == s.code;
    assert forall h :: h in m.here <==> h in s.here || (over != [] && h == |s.code|);
    LabelledWellMade(s, m, f, reg, over);
    ResolutionOf(s, m, s', f, reg, pf, pt, ts, fs);
    ResolvedWellMade(m, ts, fs, reg, pf, pt, f.max, f.nups);
    LabelsSem(s, s', c, reg, over, ts, fs);
    ResolutionExtends(s, m, s', f, reg, pf, pt, ts, fs);
  }

  // ---- jumponcond ----

  // A test and its jump have been added; the jump is on no list yet.
  ghost predicate TestAdded(s: Snap, f: Frame, e: ExpDesc, sense: bool, j: nat, c: Claim, ts: seq<nat>, fs: seq<nat>) {
    && WellMade(s, f.max, f.nups) && f.nactvar <= f.max < MAXSTACK
    && IsList(s.code, e.t, ts) && IsList(s.code, e.f, fs) && IsList(s.code, j, [j])
    && Accounted(s, f.outer, ts, fs, j)
    && Lists(s, Joined(ts, j, sense), Joined(fs, j, !sense)) && j !in ts && j !in fs
    && Sem(s, c, Known(!sense), Joined(ts, j, sense), Joined(fs, j, !sense))
  }

  lemma AppendTest(d: Snap, s': Snap, f: Frame, test: Instruction)
    requires WellMade(d, f.max, f.nups) && d.here == []
    requires s' == Snap(d.code + [test, MakeJump()], d.open + {|d.code| + 1}, [])
    requires FieldsOk(test, f.max, f.nups) && TestTMode(test.op) && (test.op == OP_TESTSET || test.a < f.max)
    ensures WellMade(s', f.max, f.nups) && IsTestAppend(d, s', test, MakeJump())
    ensures Extends(d, s', {})
  {
    var n := |d.code|;
    WellMadeIsTidy(d, f.max, f.nups);
    assert s'.code[n] == test && s'.code[n + 1] == MakeJump();
    assert SlotOk(s', f.max, f.nups, n) && SlotOk(s', f.max, f.nups, n + 1);
    assert JumpsOk(d) && IsTestAppend(d, s', test, MakeJump()) && IsAppend(d, s', [test, MakeJump()]);
    hide *;
    AppendWellMade(d, s', [test, MakeJump()], f.max, f.nups);
    AppendExtends(d, s', [test, MakeJump()]);
  }

  lemma JoinedLists(s: Snap, s': Snap, sense: bool, j: nat, ts: seq<nat>, fs: seq<nat>)
    requires Lists(s, ts, fs) && |s.code| <= j < |s'.code| && s'.open == s.open + {j}
    ensures Lists(s', Joined(ts, j, sense), Joined(fs, j, !sense)) && j !in ts && j !in fs
  {
  }

  lemma NotOperand(s: Snap, f: Frame, e: ExpDesc, ts: seq<nat>, fs: seq<nat>)
    requires Describes(s, f, e, ts, fs) && e.k == VRELOCABLE && s.code[e.info].op == OP_NOT
    ensures e.info == |s.code| - 1 && s.here == [] && s.code[e.info].b < 256
  {
    assert SlotOk(s, f.max, f.nups, e.info);
  }

  // jumponcond on a pending NOT
  lemma NotJumpSem(d: Snap, s': Snap, i: Instruction, sense: bool, c: Claim, ts: seq<nat>, fs: seq<nat>)
    requires Lists(d, ts, fs) && i.op == OP_NOT && i.b < 256 && Sem(d, c, Computed(i), ts, fs)
    requires IsTestAppend(d, s', ABC(OP_TEST, i.b, 0, if sense then 0 else 1), MakeJump())
    ensures var j := |d.code| + 1; Sem(s', c, Known(!sense), Joined(ts, j, sense), Joined(fs, j, !sense))
  {
    hide Sem, Lists, IsTestAppend;
    var j := |d.code| + 1;
    CommitNotTest(d, s', c, i, sense, MakeJump(), ts, fs);
    Weaken(s', c, c, Exactly(!sense), Known(!sense), Joined(ts, j, sense), Joined(fs, j, !sense));
  }

  lemma NotJump(s: Snap, s': Snap, f: Frame, e: ExpDesc, sense: bool, c: Claim, ts: seq<nat>, fs: seq<nat>)
    requires Means(s, f, e, c, ts, fs) && e.k == VRELOCABLE && s.code[e.info].op == OP_NOT && s.code[e.info].b < 256
    requires IsEmit(Committed(s, e), s', [ABC(OP_TEST, s.code[e.info].b, 0, if sense then 0 else 1), MakeJump()])
    requires s'.open == s.open + {e.info + 1} && IsList(s'.code, e.info + 1, [e.info + 1])
    ensures TestAdded(s', f, e, sense, e.info + 1, c, ts, fs)
    ensures Extends(Committed(s, e), s', {})
  {
    hide Sem, IsList, Extends;
    var d, i, j := Committed(s, e), s.code[e.info], e.info + 1;
    var test := ABC(OP_TEST, i.b, 0, if sense then 0 else 1);
    CommittedLists(s, f, e, ts, fs);
    assert SlotOk(s, f.max, f.nups, e.info);
    assert s' == Snap(d.code + [test, MakeJump()], d.open + {j}, []) by {
      assert Discharged(d).code == d.code;
    }
    AppendTest(d, s', f, test);
    NotJumpSem(d, s', i, sense, c, ts, fs);
    JoinedLists(d, s', sense, j, ts, fs);
    NotJumpLists(s, s', f, e, ts, fs);
    hide WellMade, Lists;
  }

  lemma NotJumpLists(s: Snap, s': Snap, f: Frame, e: ExpDesc, ts: seq<nat>, fs: seq<nat>)
    requires Describes(s, f, e, ts, fs) && e.k == VRELOCABLE
    requires Committed(s, e).code <= s'.code
    ensures IsList(s'.code, e.t, ts) && IsList(s'.code, e.f, fs)
  {
    CommittedLists(s, f, e, ts, fs);
    forall j | j in ts || j in fs
      ensures j < |s'.code| && s'.code[j] == s.code[j]
    {
      assert Committed(s, e).code[j] == s.code[j];
    }
    ListFrame(s.code, s'.code, e.t, ts);
    ListFrame(s.code, s'.code, e.f, fs);
  }

  // jumponcond on a register
  lemma TestSetJumpSem(s: Snap, s': Snap, f: Frame, e: ExpDesc, sense: bool, c: Claim, ts: seq<nat>, fs: seq<nat>)
    requires Means(s, f, e, c, ts, fs) && e.k == VNONRELOC && e.info < 256 && Near(s.here, |s.code|)
    requires IsTestAppend(Discharged(s), s', MakeTestSet(e.info, sense), MakeJump())
    ensures var j := |s.code| + 1; Sem(s', c, Known(!sense), Joined(ts, j, sense), Joined(fs, j, !sense))
  {
    WellMadeIsTidy(s, f.max, f.nups);
    DischargeSem(s, c, InReg(e.info), ts, fs);
    CommitTestSet(Discharged(s), s', c, e.info, sense, MakeJump(), ts, fs);
  }

  lemma TestSetJump(s: Snap, s': Snap, f: Frame, e: ExpDesc, sense: bool, c: Claim, ts: seq<nat>, fs: seq<nat>)
    requires Means(s, f, e, c, ts, fs) && e.k == VNONRELOC && e.info < 256
    requires IsEmit(s, s', [MakeTestSet(e.info, sense), MakeJump()])
    requires var j := |s.code| + 1; s'.open == s.open + {j} && IsList(s'.code, j, [j])
    ensures TestAdded(s', f, e, sense, |s.code| + 1, c, ts, fs)
    ensures Extends(s, s', {})
  {
    var d, j, test := Discharged(s), |s.code| + 1, MakeTestSet(e.info, sense);
    WellMadeIsTidy(s, f.max, f.nups);
    DischargedWellMade(s, f.max, f.nups);
    AppendTest(d, s', f, test);
    TestSetJumpSem(s, s', f, e, sense, c, ts, fs);
    EmitDescribes(s, s', f, e, ts, fs, [test, MakeJump()]);
    EmitExtends(s, s', [test, MakeJump()]);
    JoinedLists(s, s', sense, j, ts, fs);
  }

  // The jump of a test joins its list.
  lemma JoinSplit(s: Snap, s': Snap, f: Frame, e: ExpDesc, sense: bool, j: nat, l: int, c: Claim, ts: seq<nat>,
                  fs: seq<nat>)
    requires TestAdded(s, f, e, sense, j, c, ts, fs)
    requires s'.open == s.open && s'.here == s.here
    requires forall k :: k in ts || k in fs ==> k < |s.code|
    requires s'.code == Link(s.code, if sense then ts else fs, j)
    requires IsList(s'.code, l, (if sense then ts else fs) + [j])
    ensures Split(s', f, if sense then l else e.t, if sense then e.f else l, c, Known(!sense),
                  Joined(ts, j, sense), Joined(fs, j, !sense))
    ensures Extends(s, s', Elems(ts) + Elems(fs))
  {
    var js := if sense then ts else fs;
    var ts', fs' := Joined(ts, j, sense), Joined(fs, j, !sense);
    assert forall k :: k in js ==> k in (if sense then ts' else fs');
    LinkRelinks(s, js, j);
    RelinkedWellMade(s, s', f);
    RelinkedSem(s, s', c, Known(!sense), ts', fs');
    RelinkedExtends(s, s', js);
    ExtendsWiden(s, s', Elems(js), Elems(ts) + Elems(fs));
    LinkKeepsList(s.code, js, j, if sense then e.f else e.t, if sense then fs else ts);
  }

  // luaK_patchtohere on the list that falls through
  lemma HereSplit(s: Snap, s': Snap, f: Frame, t: int, fl: int, sense: bool, c: Claim, ts: seq<nat>, fs: seq<nat>)
    requires Split(s, f, t, fl, c, Known(sense), ts, fs)
    requires var js, head := if sense then ts else fs, if sense then t else fl;
             s' == Snap(Link(s.code, s.here, head), s.open - Elems(js), s.here + js)
    ensures Split(s', f, if sense then NO_JUMP else t, if sense then fl else NO_JUMP, c, Known(sense),
                  if sense then [] else ts, if sense then fs else [])
  {
    var js, head := if sense then ts else fs, if sense then t else fl;
    var other, head' := if sense then fs else ts, if sense then fl else t;
    var r := Snap(Link(s.code, s.here, head), s.open, s.here);
    LinkRelinks(s, s.here, head);
    RelinkedWellMade(s, r, f);
    WellMadeIsTidy(r, f.max, f.nups);
    RelinkedSem(s, r, c, Known(sense), ts, fs);
    ToHere(r, s', c, sense, ts, fs);
    LinkKeepsList(s.code, s.here, head, head', other);
    HereWellMade(r, s', f, js);
  }

  lemma HereSplitExtends(s: Snap, s': Snap, f: Frame, js: seq<nat>, head: int)
    requires WellMade(s, f.max, f.nups) && forall j :: j in js ==> j in s.open
    requires s' == Snap(Link(s.code, s.here, head), s.open - Elems(js), s.here + js)
    ensures Extends(s, s', Elems(js))
  {
    var r := Snap(Link(s.code, s.here, head), s.open, s.here);
    LinkRelinks(s, s.here, head);
    RelinkedWellMade(s, r, f);
    RelinkedExtends(s, r, []);
    WellMadeIsTidy(s, f.max, f.nups);
    WellMadeIsTidy(r, f.max, f.nups);
    ToHereNarrows(r, s', js);
    HereExtends(r, s', js);
    ExtendsWiden(s, r, Elems([]), Elems(js));
    ExtendsTrans(s, r, s', Elems(js), Elems(js));
  }

  lemma HereWellMade(s: Snap, s': Snap, f: Frame, js: seq<nat>)
    requires WellMade(s, f.max, f.nups) && s' == Snap(s.code, s.open - Elems(js), s.here + js)
    requires forall j :: j in js ==> j in s.open
    ensures WellMade(s', f.max, f.nups)
  {
    assert forall j :: j in s'.here <==> j in s.here || j in js;
    forall i | 0 <= i < |s.code|
      ensures SlotOk(s', f.max, f.nups, i)
    {
      assert SlotOk(s, f.max, f.nups, i);
    }
  }

  lemma HereExtends(s: Snap, s': Snap, js: seq<nat>)
    requires Narrows(s, s') && s' == Snap(s.code, s.open - Elems(js), s.here + js)
    ensures Extends(s, s', Elems(js))
  {
    assert forall j :: j in s'.here <==> j in s.here || j in js;
  }
}
