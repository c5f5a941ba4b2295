// Sizes in one byte, (eeeeexxx): luaO_int2fb and luaO_fb2int (lobject.c).
module FloatingByte {

  const UINT: nat := 0x1_0000_0000      // an unsigned int is below this
  const INT_MAX: nat := 0x7FFF_FFFF
  const LARGEST: nat := 0x7800_0000     // 15 << 27, the largest value of a byte that is an int

  // m << k
  function Shl(m: nat, k: nat): nat {
    if k == 0 then m else 2 * Shl(m, k - 1)
  }

  // What a byte stands for: (xxx) when eeeee is 0, and (1xxx) << (eeeee - 1) otherwise
  function Denotes(b: nat): nat {
    var e := (b / 8) % 32;
    if e == 0 then b else Shl(b % 8 + 8, e - 1)
  }

  // luaO_fb2int: the shift is done in an int, where a value beyond INT_MAX wraps around.
  function FbToInt(b: nat): int {
    var v := Denotes(b) % UINT;
    if v <= INT_MAX then v else v - UINT
  }

  // The rest of luaO_int2fb, at x after e rounds; x + 1 is computed in an unsigned int.
  function Packed(x: nat, e: nat): nat
    requires x < UINT
    decreases x
  {
    if x >= 16 then Packed(((x + 1) % UINT) / 2, e + 1)
    else if x < 8 then x
    else (e + 1) * 8 + (x - 8)
  }

  // luaO_int2fb
  method IntToFb(x: nat) returns (b: nat)
    requires x < UINT
    ensures b == Packed(x, 0)
    ensures x < UINT - 1 ==> b < 248 && IsLeast(Denotes(b), x)
  {
    var y: nat, e: nat := x, 0;
    while y >= 16
      invariant y < UINT && Packed(y, e) == Packed(x, 0)
      decreases y
    {
      y := ((y + 1) % UINT) / 2;
      e := e + 1;
    }
    b := if y < 8 then y else (e + 1) * 8 + (y - 8);
    if x < UINT - 1 {
      EncodesLeast(x);
    }
  }

  // ---- the values that have a byte ----

  ghost predicate IsScaled(v: nat, m: nat, k: nat) {
    8 <= m <= 15 && v == Shl(m, k)
  }

  ghost predicate Representable(v: nat) {
    v < 8 || exists m: nat, k: nat :: IsScaled(v, m, k)
  }

  // The least value with a byte that is not below x
  ghost predicate IsLeast(v: nat, x: nat) {
    Representable(v) && v >= x && forall w: nat :: Representable(w) && w >= x ==> w >= v
  }

  lemma {:induction false} ShlGrows(m: nat, k: nat, j: nat)
    requires k <= j
    ensures Shl(m, k) <= Shl(m, j)
    decreases j
  {
    if k < j {
      ShlGrows(m, k, j - 1);
    }
  }

  lemma {:induction false} ShlSum(a: nat, b: nat, k: nat)
    ensures Shl(a + b, k) == Shl(a, k) + Shl(b, k)
    decreases k
  {
    if k > 0 {
      ShlSum(a, b, k - 1);
    }
  }

  lemma {:induction false} ShlTwice(m: nat, a: nat, b: nat)
    ensures Shl(Shl(m, a), b) == Shl(m, a + b)
    decreases b
  {
    if b > 0 {
      ShlTwice(m, a, b - 1);
    }
  }

  lemma LargeShifts()
    ensures Shl(15, 27) == LARGEST && Shl(8, 28) == INT_MAX + 1 && Shl(8, 29) == UINT && Shl(8, 30) == 2 * UINT
  {
    assert Shl(15, 3) == 120 && Shl(120, 3) == 960 && Shl(960, 3) == 7680;
    ShlTwice(15, 3, 3);
    ShlTwice(15, 6, 3);
    assert Shl(7680, 3) == 61440 && Shl(61440, 3) == 491520 && Shl(491520, 3) == 3932160;
    ShlTwice(15, 9, 3);
    ShlTwice(15, 12, 3);
    ShlTwice(15, 15, 3);
    assert Shl(3932160, 3) == 31457280 && Shl(31457280, 3) == 251658240 && Shl(251658240, 3) == 2013265920;
    ShlTwice(15, 18, 3);
    ShlTwice(15, 21, 3);
    ShlTwice(15, 24, 3);
    ShlSum(15, 1, 27);
    EightTimes(27);
  }

  lemma {:induction false} EightTimes(k: nat)
    ensures Shl(8, k) == 8 * Shl(1, k) && Shl(16, k) == 2 * Shl(8, k) == Shl(8, k + 1)
    decreases k
  {
    if k > 0 {
      EightTimes(k - 1);
    }
  }

  lemma SomeValues()
    ensures Representable(LARGEST) && Representable(UINT) && Representable(7)
  {
    LargeShifts();
    hide Shl;
    assert IsScaled(LARGEST, 15, 27) && IsScaled(UINT, 8, 29);
  }

  // Above 15 the values are even, twice those that are half as large.
  lemma LargeIsEven(w: nat) returns (half: nat)
    requires Representable(w) && w >= 16
    ensures w == 2 * half && Representable(half)
  {
    var m: nat, k: nat :| IsScaled(w, m, k);
    assert k > 0;
    half := Shl(m, k - 1);
    assert IsScaled(half, m, k - 1);
  }

  lemma LeastDoubles(v: nat, x: nat)
    requires x >= 16 && IsLeast(v, (x + 1) / 2)
    ensures IsLeast(2 * v, x)
  {
    assert v >= 8;
    var m: nat, k: nat :| IsScaled(v, m, k);
    assert IsScaled(2 * v, m, k + 1);
    forall w: nat | Representable(w) && w >= x
      ensures w >= 2 * v
    {
      var half := LargeIsEven(w);
    }
  }

  // ---- correctness ----

  // The byte b, with e taken off its exponent
  function Scaled(b: nat, e: nat): nat
    requires b / 8 >= e + 1
  {
    Shl(b % 8 + 8, b / 8 - 1 - e)
  }

  lemma {:induction false} PackedLeast(x: nat, e: nat)
    requires 8 <= x < UINT - 1
    ensures Packed(x, e) / 8 >= e + 1 && IsLeast(Scaled(Packed(x, e), e), x)
    decreases x
  {
    hide IsLeast;
    if x >= 16 {
      var b := Packed((x + 1) / 2, e + 1);
      PackedLeast((x + 1) / 2, e + 1);
      PackedMore(x, e);
      ScaledTwice(b, e);
      LeastDoubles(Scaled(b, e + 1), x);
    } else {
      PackedSmall(x, e);
    }
  }

  lemma PackedMore(x: nat, e: nat)
    requires 16 <= x < UINT - 1
    ensures Packed(x, e) == Packed((x + 1) / 2, e + 1)
  {
    hide Shl;
    assert (x + 1) % UINT == x + 1;
  }

  lemma ScaledTwice(b: nat, e: nat)
    requires b / 8 >= e + 2
    ensures Scaled(b, e) == 2 * Scaled(b, e + 1)
  {
  }

  lemma PackedSmall(x: nat, e: nat)
    requires 8 <= x < 16
    ensures Packed(x, e) / 8 == e + 1 && Scaled(Packed(x, e), e) == x && IsLeast(x, x)
  {
    assert IsScaled(x, x, 0);
  }

  // Every size but the largest unsigned int gets a byte, of the least value that is not below it.
  lemma EncodesLeast(x: nat)
    requires x < UINT - 1
    ensures Packed(x, 0) < 248 && IsLeast(Denotes(Packed(x, 0)), x)
  {
    if x >= 8 {
      hide Packed, Shl, IsLeast;
      var b := Packed(x, 0);
      PackedLeast(x, 0);
      PackedByte(x, b);
    } else {
      hide Shl;
      assert Packed(x, 0) == x && Denotes(x) == x;
    }
  }

  lemma PackedByte(x: nat, b: nat)
    requires x < UINT && b / 8 >= 1 && IsLeast(Scaled(b, 0), x)
    ensures b < 248
  {
    LargeShifts();
    SomeValues();
    var k := b / 8 - 1;
    ShlSum(8, b % 8, k);
    assert Scaled(b, 0) >= Shl(8, k);
    if k >= 30 {
      ShlGrows(8, 30, k);
    }
  }

  // The size comes back whenever it is at most LARGEST, and never otherwise.
  lemma ComesBackExactly(x: nat)
    requires x < UINT
    ensures FbToInt(Packed(x, 0)) >= x <==> x <= LARGEST
    ensures x <= LARGEST ==> IsLeast(FbToInt(Packed(x, 0)), x)
  {
    if x == UINT - 1 {
      assert Packed(x, 0) == Packed(0, 1) == 0;
    } else {
      EncodesLeast(x);
      var v := Denotes(Packed(x, 0));
      assert FbToInt(Packed(x, 0)) == if v % UINT <= INT_MAX then v % UINT else v % UINT - UINT;
      hide *;
      LeastComesBack(v, x);
    }
  }

  // The least value for x is an int exactly when x is at most LARGEST.
  lemma LeastComesBack(v: nat, x: nat)
    requires x < UINT && IsLeast(v, x)
    ensures var r := if v % UINT <= INT_MAX then v % UINT else v % UINT - UINT;
            (r >= x <==> x <= LARGEST) && (x <= LARGEST ==> r == v)
  {
    SomeValues();
    assert v <= UINT && (x <= LARGEST ==> v <= LARGEST);
    hide Representable;
    if v > LARGEST {
      BeyondLargest(v);
    }
  }

  // One more than LARGEST does not come back.
  lemma TooLarge()
    ensures FbToInt(Packed(LARGEST + 1, 0)) < LARGEST + 1
  {
    hide Packed, FbToInt, Shl;
    ComesBackExactly(LARGEST + 1);
  }

  lemma BeyondLargest(v: nat)
    requires Representable(v) && v > LARGEST
    ensures v > INT_MAX
  {
    LargeShifts();
    var m: nat, k: nat :| IsScaled(v, m, k);
    if k <= 27 {
      ShlGrows(m, k, 27);
      ShlSum(m, 15 - m, 27);
    } else {
      ShlGrows(m, 28, k);
      ShlSum(8, m - 8, 28);
    }
  }

  lemma SmallIsExact(x: nat)
    requires x < 16
    ensures Denotes(Packed(x, 0)) == x
  {
    EncodesLeast(x);
    if x >= 8 {
      assert IsScaled(x, x, 0);
    }
  }

  lemma Monotone(x: nat, y: nat)
    requires x <= y < UINT - 1
    ensures Denotes(Packed(x, 0)) <= Denotes(Packed(y, 0))
  {
    EncodesLeast(x);
    EncodesLeast(y);
  }

  // At most an eighth is wasted.
  lemma Overshoot(x: nat)
    requires x < UINT - 1
    ensures x <= Denotes(Packed(x, 0)) && 8 * (Denotes(Packed(x, 0)) - x) <= x
  {
    EncodesLeast(x);
    var v := Denotes(Packed(x, 0));
    if v >= 8 {
      var m: nat, k: nat :| IsScaled(v, m, k);
      Predecessor(v, m, k, x);
    } else {
      assert Representable(x);
    }
  }

  lemma Predecessor(v: nat, m: nat, k: nat, x: nat)
    requires IsLeast(v, x) && IsScaled(v, m, k)
    ensures 8 * (v - x) <= x
  {
    EightTimes(k);
    ShlGrows(1, 0, k);
    if m > 8 {
      ShlSum(m - 1, 1, k);
      ShlSum(8, m - 9, k);
      assert IsScaled(Shl(m - 1, k), m - 1, k) && Representable(Shl(m - 1, k));
    } else if k > 0 {
      EightTimes(k - 1);
      ShlGrows(1, 0, k - 1);
      ShlSum(15, 1, k - 1);
      ShlSum(8, 7, k - 1);
      assert IsScaled(Shl(15, k - 1), 15, k - 1) && Representable(Shl(15, k - 1));
    } else {
      assert Representable(7);
    }
  }
}
