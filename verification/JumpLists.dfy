// Jump lists: unpatched jumps threaded through their own sBx fields.
// A list is named by the position of its first jump; NO_JUMP ends it.
module JumpLists {
  import opened Instructions

  const NO_JUMP := -1

  function GetJump(code: seq<Instruction>, pc: nat): int
    requires pc < |code|
  {
    var offset := SBx(code[pc]);
    if offset == NO_JUMP then NO_JUMP else pc + 1 + offset
  }

  // js are the jumps on the list that starts at head, in order.
  ghost predicate IsList(code: seq<Instruction>, head: int, js: seq<nat>)
    decreases js
  {
    if js == [] then head == NO_JUMP
    else
      && head == js[0] < |code|
      && code[js[0]].op == OP_JMP
      && IsList(code, GetJump(code, js[0]), js[1..])
  }

  // Positions on a list, for the clauses in which order plays no part.
  ghost function Elems(js: seq<nat>): set<nat> {
    set j | j in js
  }

  lemma ElemsAppend(a: seq<nat>, b: seq<nat>)
    ensures Elems(a + b) == Elems(a) + Elems(b)
  {
  }

  lemma {:induction false} ListBounds(code: seq<Instruction>, head: int, js: seq<nat>)
    requires IsList(code, head, js)
    ensures forall j :: j in js ==> j < |code| && code[j].op == OP_JMP
    decreases js
  {
    if js != [] {
      ListBounds(code, GetJump(code, js[0]), js[1..]);
      forall j | j in js
        ensures j < |code| && code[j].op == OP_JMP
      {
        assert j == js[0] || j in js[1..];
      }
    }
  }

  // A position names at most one list.
  lemma {:induction false} ListUnique(code: seq<Instruction>, head: int, js: seq<nat>, ks: seq<nat>)
    requires IsList(code, head, js) && IsList(code, head, ks)
    ensures js == ks
    decreases js
  {
    if js != [] && ks != [] {
      ListUnique(code, GetJump(code, js[0]), js[1..], ks[1..]);
    }
  }

  lemma {:induction false} ListSuffix(code: seq<Instruction>, head: int, js: seq<nat>, i: nat)
    requires IsList(code, head, js) && i < |js|
    ensures IsList(code, js[i], js[i..])
    decreases i
  {
    if i > 0 {
      ListSuffix(code, GetJump(code, js[0]), js[1..], i - 1);
      assert js[1..][i - 1..] == js[i..];
    }
  }

  // The thread never comes back to a jump it has left: every list is acyclic.
  lemma ListAcyclic(code: seq<Instruction>, head: int, js: seq<nat>)
    requires IsList(code, head, js)
    ensures forall i, k :: 0 <= i < k < |js| ==> js[i] != js[k]
  {
    forall i, k | 0 <= i < k < |js|
      ensures js[i] != js[k]
    {
      ListSuffix(code, head, js, i);
      ListSuffix(code, head, js, k);
      if js[i] == js[k] {
        ListUnique(code, js[i], js[i..], js[k..]);
        assert false;
      }
    }
  }

  lemma {:induction false} ListFrame(code: seq<Instruction>, code': seq<Instruction>, head: int, js: seq<nat>)
    requires IsList(code, head, js)
    requires forall j :: j in js ==> j < |code| && j < |code'| && code'[j] == code[j]
    ensures IsList(code', head, js)
    decreases js
  {
    if js != [] {
      assert forall j :: j in js[1..] ==> j in js;
      ListFrame(code, code', GetJump(code, js[0]), js[1..]);
    }
  }

  // Two disjoint lists with the same head are both empty.
  lemma SameHead(code: seq<Instruction>, head: int, js: seq<nat>, ks: seq<nat>)
    requires IsList(code, head, js) && IsList(code, head, ks) && forall j :: j in js ==> j !in ks
    ensures js == [] && ks == [] && head == NO_JUMP
  {
    if js != [] {
      assert js[0] in js;
      ListUnique(code, head, js, ks);
      assert false;
    }
  }

  // ---- concatenation ----

  // luaK_concat on non-empty lists rewrites one link: that of the last jump of the first list.
  function Link(code: seq<Instruction>, js: seq<nat>, head: int): seq<Instruction>
    requires forall j :: j in js ==> j < |code|
  {
    if js == [] || head == NO_JUMP then code
    else
      var last := js[|js| - 1];
      assert last in js;
      code[last := WithSBx(code[last], head - (last + 1))]
  }

  lemma {:induction false} ListConcat(code: seq<Instruction>, h1: int, js: seq<nat>, h2: int, ks: seq<nat>)
    requires IsList(code, h1, js) && IsList(code, h2, ks)
    requires js != [] && ks != [] ==> -MAXARG_SBX <= h2 - (js[|js| - 1] + 1) <= MAXARG_SBX
    requires forall j :: j in js ==> j < |code| && j !in ks
    ensures IsList(Link(code, js, h2), if js == [] then h2 else h1, js + ks)
  {
    if js == [] || ks == [] {
      assert js + ks == if js == [] then ks else js;
    } else {
      ListBounds(code, h1, js);
      ListBounds(code, h2, ks);
      ListAcyclic(code, h1, js);
      var last := js[|js| - 1];
      assert last in js && last !in ks && h2 in ks && last != h2;
      hide IsList;
      var code' := code[last := WithSBx(code[last], h2 - (last + 1))];
      assert code' == Link(code, js, h2);
      ListFrame(code, code', h2, ks);
      forall i | 0 <= i < |js| - 1
        ensures js[i] < |code| && code'[js[i]] == code[js[i]]
      {
        assert js[i] in js && js[i] != last;
      }
      ListRelink(code, code', h1, js, h2, ks);
    }
  }

  lemma {:induction false} ListRelink(code: seq<Instruction>, code': seq<Instruction>, h1: int, js: seq<nat>, h2: int,
                                      ks: seq<nat>)
    requires js != [] && IsList(code, h1, js) && IsList(code', h2, ks)
    requires |code'| == |code|
    requires forall i :: 0 <= i < |js| - 1 ==> js[i] < |code| && code'[js[i]] == code[js[i]]
    requires js[|js| - 1] < |code| && code'[js[|js| - 1]].op == OP_JMP && GetJump(code', js[|js| - 1]) == h2
    ensures IsList(code', h1, js + ks)
    decreases js
  {
    if |js| == 1 {
      assert (js + ks)[1..] == ks;
    } else {
      ListRelink(code, code', GetJump(code, js[0]), js[1..], h2, ks);
      assert (js + ks)[1..] == js[1..] + ks;
    }
  }

  // ---- patching ----

  // getjumpcontrol: the instruction that decides about a jump.
  function GetJumpControl(code: seq<Instruction>, pc: nat): nat
    requires pc < |code|
  {
    if pc >= 1 && TestTMode(code[pc - 1].op) then pc - 1 else pc
  }

  // Does the jump at j carry the tested value (its control is an unresolved TESTSET)?
  predicate HasValue(code: seq<Instruction>, j: int) {
    1 <= j <= |code| && code[j - 1].op == OP_TESTSET
  }

  // patchtestreg on a TESTSET.  Its B is a register, so the last case does not arise.
  function ResolveTest(i: Instruction, reg: Arg8): Instruction {
    if reg != NO_REG && reg != i.b then i.(a := reg)
    else if i.b < 256 then ABC(OP_TEST, i.b, 0, i.c)
    else i
  }

  // What patching the jumps js does to the instruction at i: value jumps go to vtarget and their
  // TESTSET is resolved with reg, the others go to dtarget; nothing else changes.
  function PatchSlot(code: seq<Instruction>, js: seq<nat>, i: nat, vtarget: int, reg: Arg8, dtarget: int): Instruction
    requires i < |code|
  {
    if i in js then WithSBx(code[i], (if HasValue(code, i) then vtarget else dtarget) - (i + 1))
    else if i + 1 in js && code[i].op == OP_TESTSET then ResolveTest(code[i], reg)
    else code[i]
  }

  function Patch(code: seq<Instruction>, js: seq<nat>, vtarget: int, reg: Arg8, dtarget: int): (r: seq<Instruction>)
    ensures |r| == |code|
    ensures forall i :: 0 <= i < |code| ==> r[i] == PatchSlot(code, js, i, vtarget, reg, dtarget)
  {
    seq(|code|, i requires 0 <= i < |code| => PatchSlot(code, js, i, vtarget, reg, dtarget))
  }

  // removevalues: the jumps of js stop carrying values.
  function DropValues(code: seq<Instruction>, js: seq<nat>): (r: seq<Instruction>)
    ensures |r| == |code|
    ensures forall i :: 0 <= i < |code| ==>
              r[i] == if i + 1 in js && code[i].op == OP_TESTSET then ResolveTest(code[i], NO_REG) else code[i]
  {
    seq(|code|, i requires 0 <= i < |code| =>
      if i + 1 in js && code[i].op == OP_TESTSET then ResolveTest(code[i], NO_REG) else code[i])
  }

  // A patched jump lands where it was sent.
  lemma PatchedTarget(code: seq<Instruction>, js: seq<nat>, j: nat, vtarget: int, reg: Arg8, dtarget: int)
    requires j in js && j < |code| && code[j].op == OP_JMP
    requires -MAXARG_SBX <= (if HasValue(code, j) then vtarget else dtarget) - (j + 1) <= MAXARG_SBX
    ensures var c := Patch(code, js, vtarget, reg, dtarget)[j];
            c.op == OP_JMP && j + 1 + SBx(c) == if HasValue(code, j) then vtarget else dtarget
  {
  }

  // Patching the jumps of js leaves every other list as it was.
  lemma PatchKeepsList(code: seq<Instruction>, js: seq<nat>, vtarget: int, reg: Arg8, dtarget: int, head: int,
                       ks: seq<nat>)
    requires IsList(code, head, ks)
    requires forall k :: k in ks ==> k !in js
    ensures IsList(Patch(code, js, vtarget, reg, dtarget), head, ks)
  {
    ListBounds(code, head, ks);
    ListFrame(code, Patch(code, js, vtarget, reg, dtarget), head, ks);
  }

  lemma DropKeepsList(code: seq<Instruction>, js: seq<nat>, head: int, ks: seq<nat>)
    requires IsList(code, head, ks)
    ensures IsList(DropValues(code, js), head, ks)
  {
    ListBounds(code, head, ks);
    ListFrame(code, DropValues(code, js), head, ks);
  }

  lemma LinkKeepsList(code: seq<Instruction>, js: seq<nat>, h: int, head: int, ks: seq<nat>)
    requires IsList(code, head, ks)
    requires forall j :: j in js ==> j < |code| && j !in ks
    ensures IsList(Link(code, js, h), head, ks)
  {
    ListBounds(code, head, ks);
    if js != [] {
      assert js[|js| - 1] in js;
    }
    ListFrame(code, Link(code, js, h), head, ks);
  }

  lemma AppendKeepsList(code: seq<Instruction>, extra: seq<Instruction>, head: int, ks: seq<nat>)
    requires IsList(code, head, ks)
    ensures IsList(code + extra, head, ks)
  {
    ListBounds(code, head, ks);
    ListFrame(code, code + extra, head, ks);
  }

  // One round of patchlistaux: the jump at j and its test.
  function PatchOne(code: seq<Instruction>, j: nat, vtarget: int, reg: Arg8, dtarget: int): seq<Instruction>
    requires j < |code|
  {
    if HasValue(code, j) then
      code[j - 1 := ResolveTest(code[j - 1], reg)][j := WithSBx(code[j], vtarget - (j + 1))]
    else
      code[j := WithSBx(code[j], dtarget - (j + 1))]
  }

  lemma PatchStep(code: seq<Instruction>, js: seq<nat>, k: nat, vtarget: int, reg: Arg8, dtarget: int)
    requires k < |js| && js[k] !in js[..k] && js[k] < |code| && code[js[k]].op == OP_JMP
    requires forall j :: j in js ==> j < |code| && code[j].op == OP_JMP
    ensures var before := Patch(code, js[..k], vtarget, reg, dtarget);
            && HasValue(before, js[k]) == HasValue(code, js[k])
            && before[js[k]] == code[js[k]]
            && Patch(code, js[..k + 1], vtarget, reg, dtarget) == PatchOne(before, js[k], vtarget, reg, dtarget)
  {
    var j := js[k];
    var before := Patch(code, js[..k], vtarget, reg, dtarget);
    var after := Patch(code, js[..k + 1], vtarget, reg, dtarget);
    assert js[..k + 1] == js[..k] + [j];
    assert forall i :: i in js[..k] ==> i in js;
    assert before[j] == PatchSlot(code, js[..k], j, vtarget, reg, dtarget);
    if 1 <= j {
      assert before[j - 1] == PatchSlot(code, js[..k], j - 1, vtarget, reg, dtarget);
    }
    forall i | 0 <= i < |code|
      ensures after[i] == PatchOne(before, j, vtarget, reg, dtarget)[i]
    {
      assert before[i] == PatchSlot(code, js[..k], i, vtarget, reg, dtarget);
      assert after[i] == PatchSlot(code, js[..k + 1], i, vtarget, reg, dtarget);
    }
    assert after == PatchOne(before, j, vtarget, reg, dtarget);
  }

  lemma DropStep(code: seq<Instruction>, js: seq<nat>, k: nat)
    requires k < |js| && js[k] !in js[..k] && js[k] < |code| && code[js[k]].op == OP_JMP
    ensures var j := js[k];
            var before := DropValues(code, js[..k]);
            && HasValue(before, j) == HasValue(code, j)
            && before[j].op == code[j].op
            && DropValues(code, js[..k + 1]) == if HasValue(code, j) then
              before[j - 1 := ResolveTest(before[j - 1], NO_REG)] else before
  {
    var j := js[k];
    var before := DropValues(code, js[..k]);
    var after := DropValues(code, js[..k + 1]);
    assert js[..k + 1] == js[..k] + [j];
    if 1 <= j {
      assert before[j - 1] == code[j - 1];
    }
    var stepped := if HasValue(code, j) then before[j - 1 := ResolveTest(before[j - 1], NO_REG)] else before;
    forall i | 0 <= i < |code|
      ensures after[i] == stepped[i]
    {
      assert i + 1 in js[..k + 1] <==> i + 1 in js[..k] || i + 1 == j;
    }
    assert after == stepped;
  }

  // Linking within the code before its last two instructions.
  // One round of removevalues, at the jump l
  lemma DropNext(code: seq<Instruction>, head: int, js: seq<nat>, k: nat, l: int)
    requires IsList(code, head, js) && k <= |js| && IsList(code, l, js[k..]) && l != NO_JUMP
    ensures k < |js| && l == js[k] < |code| && code[l].op == OP_JMP
    ensures var before, after := DropValues(code, js[..k]), DropValues(code, js[..k + 1]);
            && before[l].op == OP_JMP && HasValue(before, l) == HasValue(code, l)
            && after == (if HasValue(before, l) then before[l - 1 := ResolveTest(before[l - 1], NO_REG)] else before)
            && after[l] == code[l] && IsList(code, GetJump(after, l), js[k + 1..])
  {
    ListBounds(code, head, js);
    ListAcyclic(code, head, js);
    assert js[k..][0] == js[k] && js[k] in js && js[k..][1..] == js[k + 1..];
    DropStep(code, js, k);
  }

  lemma LinkBeforeTest(code: seq<Instruction>, n: nat, js: seq<nat>, head: int, test: Instruction)
    requires |code| == n + 2 && forall j :: j in js ==> j < n
    ensures Link(code[n := test], js, head) == Link(code[..n], js, head) + [test, code[n + 1]]
  {
    if js != [] {
      assert js[|js| - 1] in js;
    }
    assert code[n := test] == code[..n] + [test, code[n + 1]];
  }
}
