// What codenot, codecomp and luaK_posfix do to the claims about their operands.
module Operators {
  import opened Instructions
  import opened JumpLists
  import opened Machine
  import opened Meaning
  import opened CommitLemmas
  import opened ExpressionLemmas
  import opened Emission
  import opened Descriptors

  // ---- operands without code ----

  function Loaded(k: ExpKind, info: nat): ExpDesc {
    ExpDesc(k, info, NO_JUMP, NO_JUMP)
  }

  function ClaimAt(s: Snap, n: nat, a: Expr): Claim {
    Claim({|s.code|} + (set j | j in s.here), n, NO_REG, a)
  }

  lemma VariableMeans(s: Snap, f: Frame, n: nat, a: Expr)
    requires WellMade(s, f.max, f.nups) && f.nactvar <= f.max < MAXSTACK && Accounted(s, f.outer, [], [], NO_JUMP)
    requires (a.Local? && a.reg < f.nactvar) || (a.Upvalue? && a.index < f.nups)
    ensures Means(s, f, if a.Local? then Loaded(VLOCAL, a.reg) else Loaded(VUPVAL, a.index), ClaimAt(s, n, a), [], [])
  {
    var c, src := ClaimAt(s, n, a), if a.Local? then InReg(a.reg) else InUpvalue(a.index);
    forall w: World, code: seq<Instruction>, p: nat, r: Regs | Fits(s, code) && p in c.entries
      ensures Exits(w, code, s, p, r, c, src, [], [])
    {
      ReachesSelf(w, code, Config(p, r));
      assert ExitAt(w, code, s, p, r, r, c, src, [], []);
    }
  }

  // How many registers beyond those in use compiling an expression may take.
  function Need(a: Expr): nat {
    match a
    case Local(_) | Upvalue(_) => 1
    case Paren(e) => Need(e)
    case Not(e) => Need(e)
    case And(l, r) => if Need(l) >= Need(r) then Need(l) else Need(r)
    case Or(l, r) => if Need(l) >= Need(r) then Need(l) else Need(r)
    case Rel(_, l, r) => if Need(l) >= Need(r) + 1 then Need(l) else Need(r) + 1
  }

  lemma {:induction false} NeedsSome(a: Expr)
    ensures Need(a) >= 1
  {
    match a
    case Local(_) | Upvalue(_) =>
    case Paren(e) => NeedsSome(e);
    case Not(e) => NeedsSome(e);
    case And(l, r) => NeedsSome(l);
    case Or(l, r) => NeedsSome(l);
    case Rel(_, l, r) => NeedsSome(l);
  }

  // The number of comparisons in an expression
  function Comparisons(a: Expr): nat {
    match a
    case Local(_) | Upvalue(_) => 0
    case Paren(e) => Comparisons(e)
    case Not(e) => Comparisons(e)
    case And(l, r) => Comparisons(l) + Comparisons(r)
    case Or(l, r) => Comparisons(l) + Comparisons(r)
    case Rel(_, l, r) => Comparisons(l) + Comparisons(r) + 1
  }

  // One register, and one more for each comparison whose left operand has to wait, are enough.
  lemma {:induction false} NeedsFew(a: Expr)
    ensures Need(a) <= Comparisons(a) + 1
  {
    match a
    case Local(_) | Upvalue(_) =>
    case Paren(e) => NeedsFew(e);
    case Not(e) => NeedsFew(e);
    case And(l, r) => NeedsFew(l); NeedsFew(r);
    case Or(l, r) => NeedsFew(l); NeedsFew(r);
    case Rel(_, l, r) => NeedsFew(l); NeedsFew(r);
  }

  lemma ParenSem(s: Snap, c: Claim, src: Source, ts: seq<nat>, fs: seq<nat>)
    requires Sem(s, c, src, ts, fs)
    ensures Sem(s, c.(a := Paren(c.a)), src, ts, fs)
  {
    var c' := c.(a := Paren(c.a));
    forall w: World, code: seq<Instruction>, p: nat, r: Regs | Fits(s, code) && p in c'.entries
      ensures Exits(w, code, s, p, r, c', src, ts, fs)
    {
      var p', r' := Exit(w, code, s, p, r, c, src, ts, fs);
      assert ExitAt(w, code, s, p', r, r', c', src, ts, fs);
    }
  }

  // ---- codenot ----

  // Behind e is the claim c, whose value, kept in src, e negates; its lists have not changed places yet.
  ghost predicate Negating(s: Snap, f: Frame, e: ExpDesc, c: Claim, src: Source, ts: seq<nat>, fs: seq<nat>) {
    && Describes(s, f, e, ts, fs) && (e.k == VRELOCABLE || e.k == VJMP)
    && Sem(Committed(s, e), c, src, ts, fs)
    && forall w, r, v {:trigger Holds(w, src, r, v)} :: Holds(w, src, r, v) ==>
      Holds(w, SourceOf(s, e), r, Boolean(IsFalse(v)))
  }

  function Swapped(e: ExpDesc): ExpDesc {
    e.(t := e.f, f := e.t)
  }

  ghost function Dropped(s: Snap, js: seq<nat>): Snap {
    Snap(DropValues(s.code, js), s.open, s.here)
  }

  lemma DropTwice(code: seq<Instruction>, js: seq<nat>, ks: seq<nat>)
    ensures DropValues(DropValues(code, js), ks) == DropValues(code, js + ks)
  {
    var twice, once := DropValues(DropValues(code, js), ks), DropValues(code, js + ks);
    forall i | 0 <= i < |code|
      ensures twice[i] == once[i]
    {
      assert i + 1 in js + ks <==> i + 1 in js || i + 1 in ks;
    }
  }

  lemma DroppedCommitted(s: Snap, f: Frame, e: ExpDesc, ts: seq<nat>, fs: seq<nat>)
    requires Describes(s, f, e, ts, fs) && (e.k == VRELOCABLE || e.k == VJMP)
    ensures Committed(Dropped(s, ts + fs), Swapped(e)) == Dropped(Committed(s, e), ts + fs)
    ensures SourceOf(Dropped(s, ts + fs), Swapped(e)) == SourceOf(s, e)
  {
    assert Committed(Dropped(s, ts + fs), Swapped(e)).code == DropValues(Committed(s, e).code, ts + fs);
  }

  lemma DroppedDescribes(s: Snap, f: Frame, e: ExpDesc, ts: seq<nat>, fs: seq<nat>)
    requires Describes(s, f, e, ts, fs) && (e.k == VRELOCABLE || e.k == VJMP)
    ensures Describes(Dropped(s, ts + fs), f, Swapped(e), fs, ts)
  {
    hide WellMade;
    var js := ts + fs;
    CommittedLists(s, f, e, ts, fs);
    DroppedCommitted(s, f, e, ts, fs);
    DroppedWellMade(s, js, f.max, f.nups);
    DroppedWellMade(Committed(s, e), js, f.max, f.nups);
    DropKeepsList(s.code, js, e.t, ts);
    DropKeepsList(s.code, js, e.f, fs);
    if e.k == VJMP {
      DropKeepsList(s.code, js, e.info, [e.info]);
    }
  }

  lemma DropExtends(s: Snap, js: seq<nat>)
    requires Tidy(s) && forall j :: j in js ==> j in s.open
    ensures Extends(s, Dropped(s, js), Elems(js))
  {
    DropNarrows(s, Dropped(s, js), js);
    forall i | 0 <= i < |s.code|
      ensures Untouched(s, Elems(js), i) ==> Dropped(s, js).code[i] == s.code[i]
      ensures s.code[i].op == OP_JMP ==> Dropped(s, js).code[i].op == OP_JMP
    {
      assert i + 1 in js ==> i + 1 in Elems(js);
    }
  }

  lemma Negated(s: Snap, f: Frame, e: ExpDesc, c: Claim, src: Source, ts: seq<nat>, fs: seq<nat>)
    requires Negating(s, f, e, c, src, ts, fs)
    ensures Means(Dropped(s, ts + fs), f, Swapped(e), c.(a := Not(c.a)), fs, ts)
    ensures Extends(Committed(s, e), Committed(Dropped(s, ts + fs), Swapped(e)), Elems(ts) + Elems(fs))
  {
    CommittedLists(s, f, e, ts, fs);
    DroppedDescribes(s, f, e, ts, fs);
    DroppedCommitted(s, f, e, ts, fs);
    NotSem(Committed(s, e), Dropped(Committed(s, e), ts + fs), c, src, SourceOf(s, e), ts, fs);
    DropExtends(Committed(s, e), ts + fs);
    ElemsAppend(ts, fs);
  }

  // invertjump
  lemma InvertedNegates(s: Snap, s': Snap, f: Frame, e: ExpDesc, c: Claim, ts: seq<nat>, fs: seq<nat>)
    requires Means(s, f, e, c, ts, fs) && e.k == VJMP && s.code[e.info - 1].a <= 1
    requires s' == Snap(s.code[e.info - 1 := KeptTest(s.code[e.info - 1], false)], s.open, s.here)
    ensures Negating(s', f, e, c, SourceOf(s, e), ts, fs) && Committed(s', e) == Committed(s, e)
  {
    InvertedDescribes(s, s', f, e, ts, fs);
    var i := s.code[e.info - 1];
    assert SourceOf(s', e) == Tested(i.(a := 1 - i.a));
    forall w, r, v | Holds(w, SourceOf(s, e), r, v)
      ensures Holds(w, SourceOf(s', e), r, Boolean(IsFalse(v)))
    {
      assert Accepts(w, i.(a := 1 - i.a), r) == !Accepts(w, i, r);
    }
  }

  lemma InvertedDescribes(s: Snap, s': Snap, f: Frame, e: ExpDesc, ts: seq<nat>, fs: seq<nat>)
    requires Describes(s, f, e, ts, fs) && e.k == VJMP && s.code[e.info - 1].a <= 1
    requires s' == Snap(s.code[e.info - 1 := KeptTest(s.code[e.info - 1], false)], s.open, s.here)
    ensures Describes(s', f, e, ts, fs) && Committed(s', e) == Committed(s, e)
  {
    ListBounds(s.code, e.t, ts);
    ListBounds(s.code, e.f, fs);
    ListFrame(s.code, s'.code, e.t, ts);
    ListFrame(s.code, s'.code, e.f, fs);
    ListFrame(s.code, s'.code, e.info, [e.info]);
    assert Committed(s', e).code == Committed(s, e).code;
    InvertedWellMade(s, s', f, e);
  }

  lemma InvertedWellMade(s: Snap, s': Snap, f: Frame, e: ExpDesc)
    requires WellMade(s, f.max, f.nups) && 1 <= e.info <= |s.code|
    requires IsComparison(s.code[e.info - 1].op) && s.code[e.info - 1].a <= 1
    requires s' == Snap(s.code[e.info - 1 := KeptTest(s.code[e.info - 1], false)], s.open, s.here)
    ensures WellMade(s', f.max, f.nups)
  {
    forall i | 0 <= i < |s.code|
      ensures SlotOk(s', f.max, f.nups, i)
    {
      assert SlotOk(s, f.max, f.nups, i);
    }
  }

  // OP_NOT applied to a register
  lemma NotNegates(s: Snap, s': Snap, f: Frame, e: ExpDesc, e': ExpDesc, c: Claim, ts: seq<nat>, fs: seq<nat>)
    requires Means(s, f, e, c, ts, fs) && e.k == VNONRELOC && f.max >= 1
    requires IsEmit(s, s', [ABC(OP_NOT, 0, e.info, 0)]) && s'.open == s.open
    requires e' == e.(k := VRELOCABLE, info := |s.code|)
    ensures Negating(s', f, e', c, InReg(e.info), ts, fs) && Committed(s', e') == Discharged(s)
    ensures Extends(s, Discharged(s), {})
  {
    var i := ABC(OP_NOT, 0, e.info, 0);
    EmitOne(s, s', f, i);
    EmitDescribes(s, s', f, e, ts, fs, [i]);
    assert Committed(s', e') == Discharged(s);
    DischargeSem(s, c, InReg(e.info), ts, fs);
  }

  // ---- luaK_posfix on `and' and `or' ----

  // The first operand of `and' (sense true) or `or' (sense false) has been compiled: when its value
  // decides, control leaves by a jump of js.
  ghost predicate FirstDone(s: Snap, f: Frame, sense: bool, h: int, c: Claim, js: seq<nat>) {
    Split(s, f, if sense then NO_JUMP else h, if sense then h else NO_JUMP, c, Known(sense),
          if sense then [] else js, if sense then js else [])
  }

  // While the second operand is being compiled, js belong to what is around it.
  ghost predicate IsAround(outer: set<nat>, outer1: set<nat>, js: seq<nat>) {
    forall k {:trigger k in outer} :: k in outer ==> k in outer1 || k in js
  }

  // Then the second one has been: its own jumps are new, and those of js are still where they were.
  ghost predicate SecondDone(s1: Snap, f1: Frame, s: Snap, f: Frame, sense: bool, h: int, c: Claim, js: seq<nat>,
                             r: Expr, e: ExpDesc,
                             ts: seq<nat>, fs: seq<nat>) {
    && FirstDone(s1, f1, sense, h, c, js)
    && WellScoped(r, f.nactvar, f.nups) && f.nactvar <= c.n && f.nactvar <= c.x
    && Means(s, f, e, Follow(s1, c, c.n, r), ts, fs)
    && Extends(s1, Committed(s, e), {}) && IsAround(f.outer, f1.outer, js)
    && forall j :: j in ts || j in fs ==> j >= |s1.code|
  }

  // js are open jumps behind e, but none of its own.
  ghost predicate Behind(s: Snap, e: ExpDesc, js: seq<nat>, ts: seq<nat>, fs: seq<nat>) {
    forall j :: j in js ==>
      j < |Committed(s, e).code| <= |s.code| && j in Committed(s, e).open && j in s.open && j !in ts && j !in fs
  }

  lemma FirstList(s1: Snap, f1: Frame, s: Snap, f: Frame, sense: bool, h: int, c: Claim, js: seq<nat>, r: Expr,
                  e: ExpDesc,
                  ts: seq<nat>, fs: seq<nat>)
    requires SecondDone(s1, f1, s, f, sense, h, c, js, r, e, ts, fs)
    ensures IsList(s.code, h, js) && Behind(s, e, js, ts, fs)
    ensures forall j :: j in js ==> j < |s1.code|
    ensures forall j :: j in js ==> HasValue(s1.code, j) == HasValue(Committed(s, e).code, j)
  {
    var d := Committed(s, e);
    ExtendsKeepsList(s1, d, {}, h, js);
    ListBounds(s1.code, h, js);
    ListBounds(d.code, h, js);
    ListFrame(d.code, s.code, h, js);
    forall j | j in js
      ensures HasValue(s1.code, j) == HasValue(d.code, j)
    {
      ExtendsKeepsValue(s1, d, {}, j);
    }
  }

  // After luaK_concat
  ghost function Chained(s: Snap, js: seq<nat>, head: int): Snap
    requires forall j :: j in js ==> j < |s.code|
  {
    Snap(Link(s.code, js, head), s.open, s.here)
  }

  function Longer(e: ExpDesc, sense: bool, l: int): ExpDesc {
    if sense then e.(f := l) else e.(t := l)
  }

  lemma ChainedCommitted(s: Snap, f: Frame, e: ExpDesc, sense: bool, l: int, js: seq<nat>, head: int, ts: seq<nat>,
                         fs: seq<nat>)
    requires Describes(s, f, e, ts, fs)
    requires forall j :: j in js ==> j < |Committed(s, e).code| <= |s.code| && j in Committed(s, e).open
    ensures Committed(Chained(s, js, head), Longer(e, sense, l)) == Chained(Committed(s, e), js, head)
    ensures SourceOf(Chained(s, js, head), Longer(e, sense, l)) == SourceOf(s, e)
  {
    hide WellMade, IsList, Accounted;
    CommittedLists(s, f, e, ts, fs);
    var d := Committed(s, e);
    if js != [] {
      assert js[|js| - 1] in js;
    }
    assert Link(d.code, js, head) == Link(s.code, js, head)[..|d.code|];
  }

  lemma ChainedRelinks(s: Snap, js: seq<nat>, head: int)
    requires JumpsOk(s) && forall j :: j in js ==> j < |s.code| && j in s.open
    ensures Relinked(s, Chained(s, js, head))
  {
    LinkRelinks(s, js, head);
  }

  lemma ChainedDescribes(s: Snap, f: Frame, outer: set<nat>, sense: bool, js: seq<nat>, e: ExpDesc, ts: seq<nat>,
                         fs: seq<nat>, l: int)
    requires Describes(s, f, e, ts, fs) && Behind(s, e, js, ts, fs) && IsAround(f.outer, outer, js)
    requires IsList(Chained(s, js, if sense then e.f else e.t).code, l, js + (if sense then fs else ts))
    ensures Describes(Chained(s, js, if sense then e.f else e.t), f.(outer := outer), Longer(e, sense, l),
                      if sense then ts else js + ts, if sense then js + fs else fs)
  {
    var head := if sense then e.f else e.t;
    ChainedCommitted(s, f, e, sense, l, js, head, ts, fs);
    LinkKeepsList(s.code, js, head, if sense then e.t else e.f, if sense then ts else fs);
    ChainedKind(s, f, e, sense, l, js, head, ts, fs);
    ChainedDisjoint(s, f.outer, outer, sense, js, head, ts, fs, OwnJump(e));
  }

  lemma ChainedKind(s: Snap, f: Frame, e: ExpDesc, sense: bool, l: int, js: seq<nat>, head: int, ts: seq<nat>,
                    fs: seq<nat>)
    requires Describes(s, f, e, ts, fs)
    requires Behind(s, e, js, ts, fs)
    ensures WellMade(Chained(s, js, head), f.max, f.nups)
    ensures WellMade(Committed(Chained(s, js, head), Longer(e, sense, l)), f.max, f.nups)
    ensures e.k == VJMP ==> IsList(Chained(s, js, head).code, e.info, [e.info])
  {
    ChainedCommitted(s, f, e, sense, l, js, head, ts, fs);
    CommittedLists(s, f, e, ts, fs);
    ChainedRelinks(s, js, head);
    ChainedRelinks(Committed(s, e), js, head);
    RelinkedWellMade(s, Chained(s, js, head), f);
    RelinkedWellMade(Committed(s, e), Chained(Committed(s, e), js, head), f);
    if e.k == VJMP {
      LinkKeepsList(s.code, js, head, e.info, [e.info]);
    }
  }

  lemma ChainedDisjoint(s: Snap, outer: set<nat>, outer1: set<nat>, sense: bool, js: seq<nat>, head: int,
                        ts: seq<nat>, fs: seq<nat>, own: int)
    requires Lists(s, ts, fs) && Accounted(s, outer, ts, fs, own) && IsAround(outer, outer1, js)
    requires forall j :: j in js ==> j < |s.code| && j in s.open && j !in ts && j !in fs
    ensures Lists(Chained(s, js, head), if sense then ts else js + ts, if sense then js + fs else fs)
    ensures Accounted(Chained(s, js, head), outer1, if sense then ts else js + ts, if sense then js + fs else fs, own)
  {
    if js != [] {
      assert js[|js| - 1] in js;
    }
    assert forall j :: j in js + (if sense then fs else ts) <==> j in js || j in (if sense then fs else ts);
  }

  lemma Sequenced(s1: Snap, f1: Frame, s: Snap, f: Frame, sense: bool, h: int, c: Claim, js: seq<nat>, r: Expr,
                  e: ExpDesc,
                  ts: seq<nat>, fs: seq<nat>, l: int)
    requires SecondDone(s1, f1, s, f, sense, h, c, js, r, e, ts, fs)
    requires forall j :: j in js ==> j < |s.code|
    requires IsList(Chained(s, js, if sense then e.f else e.t).code, l, js + (if sense then fs else ts))
    ensures Means(Chained(s, js, if sense then e.f else e.t), f.(outer := f1.outer), Longer(e, sense, l),
                  c.(a := Join(sense, c.a, r)),
                  if sense then ts else js + ts, if sense then js + fs else fs)
  {
    var head, d := if sense then e.f else e.t, Committed(s, e);
    var ts', fs', c' := if sense then ts else js + ts, if sense then js + fs else fs, c.(a := Join(sense, c.a, r));
    FirstList(s1, f1, s, f, sense, h, c, js, r, e, ts, fs);
    ChainedCommitted(s, f, e, sense, l, js, head, ts, fs);
    ChainedDescribes(s, f, f1.outer, sense, js, e, ts, fs, l);
    SequenceSem(s1, d, c, r, sense, js, SourceOf(s, e), ts, fs, f.nactvar, f.nups);
    CommittedLists(s, f, e, ts, fs);
    ChainedRelinks(d, js, head);
    RelinkedSem(d, Chained(d, js, head), c', SourceOf(s, e), ts', fs');
  }

  lemma SequencedExtends(s1: Snap, f1: Frame, s: Snap, f: Frame, sense: bool, h: int, c: Claim, js: seq<nat>, r: Expr,
                         e: ExpDesc,
                         ts: seq<nat>, fs: seq<nat>, l: int)
    requires SecondDone(s1, f1, s, f, sense, h, c, js, r, e, ts, fs)
    requires forall j :: j in js ==> j < |s.code|
    ensures Extends(s1, Committed(Chained(s, js, if sense then e.f else e.t), Longer(e, sense, l)), Elems(js))
  {
    var head, d := if sense then e.f else e.t, Committed(s, e);
    FirstList(s1, f1, s, f, sense, h, c, js, r, e, ts, fs);
    ChainedCommitted(s, f, e, sense, l, js, head, ts, fs);
    CommittedLists(s, f, e, ts, fs);
    ChainedRelinks(d, js, head);
    RelinkedExtends(d, Chained(d, js, head), js);
    WellMadeIsTidy(s1, f1.max, f1.nups);
    ExtendsWiden(s1, d, {}, Elems(js));
    ExtendsTrans(s1, d, Chained(d, js, head), Elems(js), Elems(js));
  }

  // ---- codecomp ----

  function ComparisonOp(rel: Relation): OpCode {
    match rel
    case Equal | NotEqual => OP_EQ
    case Less | Greater => OP_LT
    case LessEqual | GreaterEqual => OP_LE
  }

  // The comparison that codecomp emits for `o1 rel o2': > and >= become < and <= on exchanged operands.
  function ComparisonOf(rel: Relation, o1: Arg8, o2: Arg8): Instruction {
    if rel == Greater || rel == GreaterEqual then ABC(ComparisonOp(rel), 1, o2, o1)
    else ABC(ComparisonOp(rel), if rel == NotEqual then 0 else 1, o1, o2)
  }

  lemma ComparisonRelates(rel: Relation, o1: Arg8, o2: Arg8)
    ensures var i := ComparisonOf(rel, o1, o2);
            IsComparison(i.op) &&
              forall w: World, r: Regs {:trigger Accepts(w, i, r)} :: Accepts(w, i, r) == Relate(w, rel, r[o1], r[o2])
  {
  }

  lemma Compared(s1: Snap, s2: Snap, s': Snap, f1: Frame, f: Frame, c: Claim, n2: nat, rel: Relation, r: Expr,
                 e1: ExpDesc, e2: ExpDesc)
    requires Means(s1, f1, e1, c, [], []) && e1.k == VNONRELOC && e1.info < n2 && e1.info != c.x
    requires Means(s2, f, e2, Follow(s1, c, n2, r), [], []) && e2.k == VNONRELOC
    requires WellScoped(r, f.nactvar, f.nups) && f.nactvar <= c.n <= n2 && f.nactvar <= c.x
    requires Narrows(s1, s2) && e1.info < f.max
    requires IsEmit(s2, s', [ComparisonOf(rel, e1.info, e2.info), MakeJump()])
    requires s'.open == s2.open + {|s2.code| + 1} && IsList(s'.code, |s2.code| + 1, [|s2.code| + 1])
    ensures Means(s', f, Loaded(VJMP, |s2.code| + 1), c.(a := Rel(rel, c.a, r)), [], [])
    ensures Extends(s2, Committed(s', Loaded(VJMP, |s2.code| + 1)), {})
  {
    hide Extends, Sem, WellMade, Follow;
    var i := ComparisonOf(rel, e1.info, e2.info);
    ComparisonRelates(rel, e1.info, e2.info);
    ComparisonEmitted(s2, s', f, i);
    RelSem(s1, s2, c, n2, rel, r, e1.info, e2.info, i, f.nactvar, f.nups);
    WellMadeIsTidy(s2, f.max, f.nups);
    DischargeSem(s2, c.(a := Rel(rel, c.a, r)), Tested(i), [], []);
  }

  // Compared, seen from the first operand
  lemma ComparedAfter(s1: Snap, s2: Snap, s': Snap, f1: Frame, f: Frame, c: Claim, n2: nat, rel: Relation, r: Expr,
                      e1: ExpDesc, e2: ExpDesc)
    requires Means(s1, f1, e1, c, [], []) && e1.k == VNONRELOC && e1.info < n2 && e1.info != c.x
    requires Means(s2, f, e2, Follow(s1, c, n2, r), [], []) && e2.k == VNONRELOC
    requires WellScoped(r, f.nactvar, f.nups) && f.nactvar <= c.n <= n2 && f.nactvar <= c.x
    requires Extends(s1, s2, {}) && e1.info < f.max
    requires IsEmit(s2, s', [ComparisonOf(rel, e1.info, e2.info), MakeJump()])
    requires s'.open == s2.open + {|s2.code| + 1} && IsList(s'.code, |s2.code| + 1, [|s2.code| + 1])
    ensures Means(s', f, Loaded(VJMP, |s2.code| + 1), c.(a := Rel(rel, c.a, r)), [], [])
    ensures Extends(s1, Committed(s', Loaded(VJMP, |s2.code| + 1)), {})
  {
    Compared(s1, s2, s', f1, f, c, n2, rel, r, e1, e2);
    WellMadeIsTidy(s1, f1.max, f1.nups);
    ExtendsTrans(s1, s2, Committed(s', Loaded(VJMP, |s2.code| + 1)), {}, {});
  }

  lemma ComparisonEmitted(s: Snap, s': Snap, f: Frame, i: Instruction)
    requires WellMade(s, f.max, f.nups) && f.nactvar <= f.max < MAXSTACK && Accounted(s, f.outer, [], [], NO_JUMP)
    requires IsComparison(i.op) && FieldsOk(i, f.max, f.nups) && IsEmit(s, s', [i, MakeJump()])
    requires s'.open == s.open + {|s.code| + 1} && IsList(s'.code, |s.code| + 1, [|s.code| + 1])
    ensures Describes(s', f, Loaded(VJMP, |s.code| + 1), [], []) && s'.code[|s.code|] == i
    ensures Committed(s', Loaded(VJMP, |s.code| + 1)) == Discharged(s)
    ensures Extends(s, Discharged(s), {})
  {
    var e', d := Loaded(VJMP, |s.code| + 1), Discharged(s);
    WellMadeIsTidy(s, f.max, f.nups);
    DischargedWellMade(s, f.max, f.nups);
    AppendComparison(d, s', f, i);
    assert Committed(s', e') == d;
    assert d.code + [] == d.code;
    EmitExtends(s, d, []);
  }

  lemma AppendComparison(d: Snap, s': Snap, f: Frame, i: Instruction)
    requires WellMade(d, f.max, f.nups) && d.here == []
    requires IsComparison(i.op) && FieldsOk(i, f.max, f.nups)
    requires s' == Snap(d.code + [i, MakeJump()], d.open + {|d.code| + 1}, [])
    ensures WellMade(s', f.max, f.nups)
  {
    var n := |d.code|;
    assert s'.code[n] == i && s'.code[n + 1] == MakeJump();
    AppendWellMade(d, s', [i, MakeJump()], f.max, f.nups);
  }

  // From the state before luaK_goiftrue or luaK_goiffalse to the one after it.
  lemma Went(s0: Snap, s1: Snap, s2: Snap, s3: Snap, ts: seq<nat>, fs: seq<nat>, js: seq<nat>, j: nat)
    requires Tidy(s0) && JumpsOk(s0) && Extends(s0, s1, {}) && Extends(s1, s2, Elems(ts) + Elems(fs))
    requires Extends(s2, s3, Elems(js))
    requires forall k :: k in js ==> k in ts || k in fs
    requires j >= |s1.code|
    ensures j >= |s0.code| && Extends(s0, s3, Elems(ts) + Elems(fs))
  {
    var own := Elems(ts) + Elems(fs);
    ExtendsWiden(s0, s1, {}, own);
    ExtendsTrans(s0, s1, s2, own, own);
    ExtendsTrans(s0, s2, s3, own, Elems(js));
  }
}
