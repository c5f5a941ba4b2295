// The string buffer of the auxiliary library (lauxlib.c): strings kept on the Lua stack, and characters in
// a buffer of fixed size.
module StringBuffer {

  const LIMIT: nat := 10                 // LUA_MINSTACK / 2

  // The strings one after the other, from the bottom of the stack up
  function Join(q: seq<string>): string {
    if q == [] then "" else Join(q[..|q| - 1]) + q[|q| - 1]
  }

  lemma {:induction false} JoinAppend(p: seq<string>, q: seq<string>)
    ensures Join(p + q) == Join(p) + Join(q)
    decreases |q|
  {
    if q == [] {
      assert p + q == p;
    } else {
      JoinAppend(p, q[..|q| - 1]);
      assert (p + q)[..|p + q| - 1] == p + q[..|q| - 1];
    }
  }

  lemma JoinOne(s: string)
    ensures Join([s]) == s
  {
    assert [s][..0] == [];
    assert Join([s]) == Join([]) + s;
  }

  lemma JoinSplit(q: seq<string>, k: nat)
    requires k <= |q|
    ensures Join(q) == Join(q[..k]) + Join(q[k..])
  {
    hide Join;
    JoinAppend(q[..k], q[k..]);
    assert q[..k] + q[k..] == q;
  }

  class Buffer {
    const size: nat                      // LUAL_BUFFERSIZE
    var stack: seq<string>
    var chars: string
    var lvl: nat
    ghost var below: seq<string>         // what is on the stack under the strings of the buffer

    // At most LIMIT - 1 stack slots are in use between operations.
    ghost predicate Valid()
      reads this
    {
      size > 0 && |chars| <= size && lvl < LIMIT && Holds(0)
    }

    // The buffer's strings are on the stack, with above values on top of them.
    ghost predicate Holds(above: nat)
      reads this
    {
      |stack| == |below| + lvl + above && stack[..|below|] == below
    }

    // What has been added so far
    ghost function Contents(): string
      requires Holds(0)
      reads this
    {
      Join(stack[|below|..]) + chars
    }

    // luaL_buffinit
    constructor (size: nat, stack: seq<string>)
      requires size > 0
      ensures Valid() && Contents() == "" && this.size == size && this.stack == stack && below == stack
    {
      this.size, this.stack, below := size, stack, stack;
      chars, lvl := "", 0;
    }

    // emptybuffer
    method EmptyBuffer() returns (any: bool)
      modifies `stack, `chars, `lvl
      ensures any == (old(chars) != "") && chars == ""
      ensures if any then stack == old(stack) + [old(chars)] && lvl == old(lvl) + 1
              else stack == old(stack) && lvl == old(lvl)
    {
      if |chars| == 0 {
        return false;
      }
      stack := stack + [chars];
      chars := "";
      lvl := lvl + 1;
      return true;
    }

    // lua_concat
    method Concat(n: nat)
      requires n <= |stack|
      modifies `stack
      ensures stack == old(stack)[..|old(stack)| - n] + [Join(old(stack)[|old(stack)| - n..])]
    {
      ghost var q := stack[|stack| - n..];
      var joined, k := "", 0;
      while k < n
        invariant 0 <= k <= n && joined == Join(q[n - k..]) && stack == old(stack)
      {
        JoinAppend([q[n - k - 1]], q[n - k..]);
        JoinOne(q[n - k - 1]);
        assert q[n - k - 1..] == [q[n - k - 1]] + q[n - k..];
        joined := stack[|stack| - 1 - k] + joined;
        k := k + 1;
      }
      assert q[0..] == q;
      stack := stack[..|stack| - n] + [joined];
    }

    // adjuststack: the strings on top are joined as long as they are not shorter than the next one, or there
    // are too many of them.
    method AdjustStack()
      requires Holds(0)
      modifies `stack, `lvl
      ensures Holds(0) && Contents() == old(Contents()) && lvl < LIMIT && lvl <= old(lvl) && (old(lvl) > 0 ==> lvl > 0)
    {
      if lvl > 1 {
        var toget := 1;
        var toplen := |stack[|stack| - 1]|;
        var more := true;
        while more
          invariant 1 <= toget <= lvl && (more ==> toget < lvl) && (!more ==> toget == lvl || lvl - toget + 1 < LIMIT)
          decreases lvl - toget, more
        {
          var l := |stack[|stack| - (toget + 1)]|;
          if lvl - toget + 1 >= LIMIT || toplen > l {
            toplen := toplen + l;
            toget := toget + 1;
            more := toget < lvl;
          } else {
            more := false;
          }
        }
        ghost var s := stack;
        Joined(s, |below|, toget);
        Concat(toget);
        lvl := lvl - toget + 1;
      }
    }

    // luaL_prepbuffer
    method PrepBuffer()
      requires Valid()
      modifies `stack, `chars, `lvl
      ensures Valid() && Contents() == old(Contents()) && chars == ""
    {
      Emptied(stack, |below|, chars);
      var any := EmptyBuffer();
      if any {
        AdjustStack();
      }
    }

    // luaL_addchar
    method AddChar(c: char)
      requires Valid()
      modifies `stack, `chars, `lvl
      ensures Valid() && Contents() == old(Contents()) + [c]
    {
      if |chars| >= size {
        PrepBuffer();
      }
      chars := chars + [c];
    }

    // luaL_addlstring
    method AddString(s: string)
      requires Valid()
      modifies `stack, `chars, `lvl
      ensures Valid() && Contents() == old(Contents()) + s
    {
      var i := 0;
      while i < |s|
        invariant Valid() && 0 <= i <= |s| && Contents() == old(Contents()) + s[..i]
      {
        AddChar(s[i]);
        i := i + 1;
      }
    }

    // luaL_addvalue: the string on top of the stack.
    method AddValue()
      requires size > 0 && |chars| <= size && lvl < LIMIT && Holds(1)
      modifies `stack, `chars, `lvl
      ensures Valid() && Contents() == old(Join(stack[|below|..|stack| - 1]) + chars + stack[|stack| - 1])
    {
      var s := stack[|stack| - 1];
      ghost var was := stack[..|stack| - 1];
      assert was[|below|..] == stack[|below|..|stack| - 1];
      if |s| <= size - |chars| {
        chars := chars + s;
        stack := stack[..|stack| - 1];
        assert stack == was;
      } else {
        assert stack == was + [s];
        Emptied(was, |below|, chars);
        Emptied(if chars == "" then was else was + [chars], |below|, s);
        EmptyBelow(was, s);
        lvl := lvl + 1;
        assert Contents() == Join(was[|below|..]) + old(chars) + s;
        AdjustStack();
      }
    }

    // The buffer is put below the value on top.
    method EmptyBelow(ghost was: seq<string>, ghost s: string)
      requires stack == was + [s]
      modifies `stack, `chars, `lvl
      ensures stack == (if old(chars) != "" then was + [old(chars)] else was) + [s] && chars == ""
      ensures lvl == old(lvl) + if old(chars) != "" then 1 else 0
    {
      var any := EmptyBuffer();
      if any {
        assert stack[..|stack| - 2] == was;
        stack := stack[..|stack| - 2] + [stack[|stack| - 1], stack[|stack| - 2]];
      }
    }

    // luaL_pushresult
    method PushResult()
      requires Valid()
      modifies `stack, `chars, `lvl
      ensures stack == below + [old(Contents())] && chars == "" && lvl == 1
    {
      ghost var contents := Contents();
      Emptied(stack, |below|, chars);
      var any := EmptyBuffer();
      assert Join(stack[|below|..]) == contents;
      assert stack[..|stack| - lvl] == below && stack[|stack| - lvl..] == stack[|below|..];
      Concat(lvl);
      lvl := 1;
    }
  }

  lemma Emptied(stack: seq<string>, low: nat, chars: string)
    requires low <= |stack|
    ensures Join((stack + [chars])[low..]) == Join(stack[low..]) + chars
  {
    assert (stack + [chars])[low..] == stack[low..] + [chars];
    JoinAppend(stack[low..], [chars]);
    JoinOne(chars);
  }

  lemma Joined(stack: seq<string>, low: nat, n: nat)
    requires low + n <= |stack|
    ensures Join((stack[..|stack| - n] + [Join(stack[|stack| - n..])])[low..]) == Join(stack[low..])
  {
    var k := |stack| - n;
    Emptied(stack[..k], low, Join(stack[k..]));
    JoinSplit(stack[low..], k - low);
    assert stack[low..][..k - low] == stack[..k][low..] && stack[low..][k - low..] == stack[k..];
  }
}
