// References to values in a table: luaL_ref and luaL_unref (lauxlib.c).
module References {

  const LUA_REFNIL := -1

  // Anything but nil
  datatype Value = Number(n: int) | Other(id: nat)

  datatype Option<T> = None | Some(value: T)

  // The integer keys of a table; the value of an absent key is nil.
  type Table = map<int, Value>

  // lua_rawgeti and lua_rawseti
  function Get(t: Table, k: int): Option<Value> {
    if k in t then Some(t[k]) else None
  }

  function Set(t: Table, k: int, v: Option<Value>): Table {
    if v.Some? then t[k := v.value] else t - {k}
  }

  // lua_tointeger: 0 for everything that is not a number
  function ToInteger(v: Option<Value>): int {
    if v.Some? && v.value.Number? then v.value.n else 0
  }

  // lua_objlen may be any border of the table.
  predicate IsBorder(t: Table, n: nat) {
    (n == 0 || n in t) && n + 1 !in t
  }

  predicate NoDup(q: seq<int>) {
    forall i, j :: 0 <= i < j < |q| ==> q[i] != q[j]
  }

  // Link i of the chain of free slots: it starts in slot 0 and ends with a 0 or nil.
  function Link(free: seq<int>, i: nat): int {
    if 0 < i <= |free| then free[i - 1] else 0
  }

  // Slots 1 to n are live or free; live ones hold their values and free ones are chained.
  ghost predicate Chained(t: Table, live: map<int, Value>, free: seq<int>, n: nat) {
    && NoDup(free)
    && (forall k :: 1 <= k <= n <==> k in live || k in free)
    && (forall k :: k in live ==> k !in free && k in t && t[k] == live[k])
    && (forall k :: k in t ==> 0 <= k <= n)
    && (forall i: nat {:trigger Link(free, i)} :: i <= |free| ==> ToInteger(Get(t, Link(free, i))) == Link(free, i + 1))
  }

  class RefTable {
    var t: Table
    ghost var live: map<int, Value>        // the references handed out and not returned, with their values
    ghost var free: seq<int>
    ghost var n: nat

    ghost predicate Valid()
      reads this
    {
      Chained(t, live, free, n)
    }

    constructor ()
      ensures Valid() && live == map[]
    {
      t, live, free, n := map[], map[], [], 0;
    }

    method ObjLen() returns (len: nat)
      ensures IsBorder(t, len)
    {
      len := 0;
      ghost var rest := t.Keys;
      while len + 1 in t
        invariant (len == 0 || len in t) && forall k :: k in t && k > len ==> k in rest
        decreases |rest|
      {
        len := len + 1;
        rest := rest - {len};
      }
    }

    // A reference that is handed out is not a live one, and the value it stands for stays in the table.
    method Ref(v: Option<Value>) returns (ref: int)
      requires Valid()
      modifies this
      ensures Valid()
      ensures v.None? ==> ref == LUA_REFNIL && t == old(t) && live == old(live)
      ensures v.Some? ==> ref >= 1 && ref !in old(live) && live == old(live)[ref := v.value]
    {
      if v.None? {
        return LUA_REFNIL;
      }
      assert ToInteger(Get(t, Link(free, 0))) == Link(free, 1);
      ref := ToInteger(Get(t, 0));
      if ref != 0 {
        Taken(t, live, free, n, v);
        t := Set(t, 0, Get(t, ref));
        free := free[1..];
      } else {
        AllFilled(t, live, free, n);
        ref := ObjLen();
        ref := ref + 1;
        Extended(t, live, n, v);
        n := n + 1;
      }
      t := Set(t, ref, v);
      live := live[ref := v.value];
    }

    method Unref(ref: int)
      requires Valid() && (ref in live || ref < 0)
      modifies this
      ensures Valid() && live == old(live) - {ref}
    {
      if ref >= 0 {
        Returned(t, live, free, n, ref);
        t := Set(t, ref, Get(t, 0));
        t := Set(t, 0, Some(Number(ref)));
        free := [ref] + free;
        live := live - {ref};
      }
    }

    // What a live reference stands for is what was stored.
    method Value(ref: int) returns (v: Option<Value>)
      requires Valid() && ref in live
      ensures v == Some(live[ref])
    {
      v := Get(t, ref);
    }
  }

  lemma AllFilled(t: Table, live: map<int, Value>, free: seq<int>, n: nat)
    requires Chained(t, live, free, n) && ToInteger(Get(t, 0)) == 0
    ensures free == [] && forall len: nat :: IsBorder(t, len) ==> len == n
  {
    forall i | 0 <= i < |free|
      ensures free[i] >= 1
    {
      assert free[i] in free;
    }
    assert ToInteger(Get(t, Link(free, 0))) == Link(free, 1);
    forall len: nat | IsBorder(t, len)
      ensures len == n
    {
      assert len < n ==> len + 1 in live;
    }
  }

  lemma Extended(t: Table, live: map<int, Value>, n: nat, v: Option<Value>)
    requires Chained(t, live, [], n) && v.Some?
    ensures Chained(Set(t, n + 1, v), live[n + 1 := v.value], [], n + 1)
  {
    assert ToInteger(Get(t, Link([], 0))) == Link([], 1);
  }

  lemma Taken(t: Table, live: map<int, Value>, free: seq<int>, n: nat, v: Option<Value>)
    requires Chained(t, live, free, n) && v.Some? && ToInteger(Get(t, 0)) != 0
    ensures free != [] && free[0] == ToInteger(Get(t, 0)) && free[0] !in live && free[0] >= 1
    ensures Chained(Set(Set(t, 0, Get(t, free[0])), free[0], v), live[free[0] := v.value], free[1..], n)
  {
    assert ToInteger(Get(t, Link(free, 0))) == Link(free, 1);
    var r, free' := free[0], free[1..];
    assert r in free && forall k :: k in free <==> k == r || k in free';
    var t' := Set(Set(t, 0, Get(t, r)), r, v);
    assert r !in free';
    forall i: nat | i <= |free'|
      ensures ToInteger(Get(t', Link(free', i))) == Link(free', i + 1)
    {
      assert ToInteger(Get(t, Link(free, i + 1))) == Link(free, i + 2);
      if i > 0 {
        assert free'[i - 1] in free;
      }
    }
  }

  lemma Returned(t: Table, live: map<int, Value>, free: seq<int>, n: nat, ref: int)
    requires Chained(t, live, free, n) && ref in live
    ensures Chained(Set(Set(t, ref, Get(t, 0)), 0, Some(Number(ref))), live - {ref}, [ref] + free, n)
  {
    var t', free' := Set(Set(t, ref, Get(t, 0)), 0, Some(Number(ref))), [ref] + free;
    forall i: nat | i <= |free'|
      ensures ToInteger(Get(t', Link(free', i))) == Link(free', i + 1)
    {
      if i > 0 {
        assert ToInteger(Get(t, Link(free, i - 1))) == Link(free, i);
        if i > 1 {
          assert free[i - 2] in free;
        }
      }
    }
  }
}
