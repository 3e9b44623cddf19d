/**
 Bitwise operators on two's complement integers of unbounded width, and the
 branch-free idioms built from them: every C value in this project is narrower
 than the type it is computed in, so no bit is lost by leaving the width open.
 */
module TwosComplement {

  function Magnitude(x: int): (n: nat) { if x >= 0 then x else -1 - x }

  function Xor(x: int, y: int): int
    decreases Magnitude(x) + Magnitude(y)
  {
    if Magnitude(x) + Magnitude(y) == 0 then (if x == y then 0 else -1)
    else (if x % 2 == y % 2 then 0 else 1) + 2 * Xor(x / 2, y / 2)
  }

  function And(x: int, y: int): int
    decreases Magnitude(x) + Magnitude(y)
  {
    if Magnitude(x) + Magnitude(y) == 0 then (if x == 0 || y == 0 then 0 else -1)
    else (if x % 2 == 1 && y % 2 == 1 then 1 else 0) + 2 * And(x / 2, y / 2)
  }

  // Bitwise complement.
  function Not(x: int): int { -1 - x }

  // x >> k on a signed value: one bit at a time, keeping the sign.
  function ShiftRight(x: int, k: nat): int
    decreases k
  {
    if k == 0 then x else ShiftRight(x / 2, k - 1)
  }

  lemma {:induction false} XorZero(x: int)
    ensures Xor(x, 0) == x && Xor(0, x) == x
    decreases Magnitude(x)
  {
    if Magnitude(x) > 0 {
      XorZero(x / 2);
    }
  }

  lemma {:induction false} XorSelf(x: int)
    ensures Xor(x, x) == 0
    decreases Magnitude(x)
  {
    if Magnitude(x) > 0 {
      XorSelf(x / 2);
    }
  }

  lemma {:induction false} AndMask(x: int)
    ensures And(0, x) == 0 && And(x, 0) == 0
    ensures And(-1, x) == x && And(x, -1) == x
    decreases Magnitude(x)
  {
    if Magnitude(x) > 0 {
      AndMask(x / 2);
    }
  }

  // One bit of x ^ y, and the rest.
  lemma XorHalf(x: int, y: int)
    ensures Xor(x, y) / 2 == Xor(x / 2, y / 2)
    ensures Xor(x, y) % 2 == if x % 2 == y % 2 then 0 else 1
  {
  }

  lemma AndHalf(x: int, y: int)
    ensures And(x, y) / 2 == And(x / 2, y / 2)
    ensures And(x, y) % 2 == if x % 2 == 1 && y % 2 == 1 then 1 else 0
  {
  }

  // Xor twice with the same value restores the other.
  lemma {:induction false} XorCancel(x: int, y: int)
    ensures Xor(x, Xor(y, x)) == y
    ensures Xor(x, Xor(x, y)) == y
    decreases Magnitude(x) + Magnitude(y)
  {
    XorHalf(y, x);
    XorHalf(x, y);
    if Magnitude(x) + Magnitude(y) > 0 {
      XorCancel(x / 2, y / 2);
      hide Xor;
      XorHalf(x, Xor(y, x));
      XorHalf(x, Xor(x, y));
    }
  }

  lemma {:induction false} XorComm(x: int, y: int)
    ensures Xor(x, y) == Xor(y, x)
    decreases Magnitude(x) + Magnitude(y)
  {
    if Magnitude(x) + Magnitude(y) > 0 {
      XorComm(x / 2, y / 2);
    }
  }

  lemma {:induction false} ShiftXor(x: int, y: int, k: nat)
    ensures ShiftRight(Xor(x, y), k) == Xor(ShiftRight(x, k), ShiftRight(y, k))
    decreases k
  {
    hide Xor;
    if k > 0 {
      XorHalf(x, y);
      ShiftXor(x / 2, y / 2, k - 1);
    }
  }

  lemma {:induction false} ShiftAnd(x: int, y: int, k: nat)
    ensures ShiftRight(And(x, y), k) == And(ShiftRight(x, k), ShiftRight(y, k))
    decreases k
  {
    hide And;
    if k > 0 {
      AndHalf(x, y);
      ShiftAnd(x / 2, y / 2, k - 1);
    }
  }

  function Pow2(k: nat): (n: int)
    ensures n > 0
  {
    if k == 0 then 1 else 2 * Pow2(k - 1)
  }

  // Shifting out all the magnitude bits leaves the sign: 0 or -1.
  lemma {:induction false} ShiftSign(x: int, k: nat)
    requires -Pow2(k) <= x < Pow2(k)
    ensures ShiftRight(x, k) == if x < 0 then -1 else 0
    decreases k
  {
    if k > 0 {
      ShiftSign(x / 2, k - 1);
    }
  }

  // ----- masks ------------------------------------------------------------------------

  ghost predicate IsMask(m: int) { m == 0 || m == -1 }

  // x ^ (mask & (x ^ y)): x under a zero mask, y under a full one.
  function Select(mask: int, x: int, y: int): int {
    Xor(x, And(mask, Xor(x, y)))
  }

  lemma SelectMask(mask: int, x: int, y: int)
    requires IsMask(mask)
    ensures Select(mask, x, y) == if mask == 0 then x else y
  {
    AndMask(Xor(x, y));
    XorZero(x);
    XorCancel(x, y);
  }

  // t = mask & (x ^ y); x ^= t; y ^= t exchanges x and y, or leaves both.
  lemma SwapMask(mask: int, x: int, y: int)
    requires IsMask(mask)
    ensures Xor(x, And(mask, Xor(x, y))) == if mask == 0 then x else y
    ensures Xor(y, And(mask, Xor(x, y))) == if mask == 0 then y else x
  {
    hide Xor, And;
    AndMask(Xor(x, y));
    XorZero(x);
    XorZero(y);
    XorCancel(x, y);
    XorCancel(y, x);
  }

  // ((x ^ 1) & ~mask) ^ 1 and x & ~mask: x under a zero mask, 1 and 0 under a full one.
  lemma KeepOrDefault(mask: int, x: int)
    requires IsMask(mask)
    ensures Xor(And(Xor(x, 1), Not(mask)), 1) == if mask == 0 then x else 1
    ensures And(x, Not(mask)) == if mask == 0 then x else 0
  {
    hide Xor, And;
    AndMask(Xor(x, 1));
    AndMask(x);
    XorZero(1);
    XorComm(x, 1);
    XorCancel(1, x);
    XorComm(1, Xor(x, 1));
  }

  // ----- comparison without branches ----------------------------------------------------

  function Or(x: int, y: int): int { Not(And(Not(x), Not(y))) }

  lemma {:induction false} XorDiffers(x: int, y: int)
    ensures Xor(x, y) == 0 <==> x == y
    decreases Magnitude(x) + Magnitude(y)
  {
    if Magnitude(x) + Magnitude(y) > 0 {
      XorDiffers(x / 2, y / 2);
    }
  }

  lemma {:induction false} XorRange(x: int, y: int, k: nat)
    requires 0 <= x < Pow2(k) && 0 <= y < Pow2(k)
    ensures 0 <= Xor(x, y) < Pow2(k)
    decreases k
  {
    if k > 0 {
      XorHalf(x, y);
      XorRange(x / 2, y / 2, k - 1);
    }
  }

  lemma {:induction false} OrAccumulates(x: int, y: int, k: nat)
    requires 0 <= x < Pow2(k) && 0 <= y < Pow2(k)
    ensures 0 <= Or(x, y) < Pow2(k)
    ensures Or(x, y) == 0 <==> x == 0 && y == 0
    decreases k
  {
    if k > 0 {
      OrAccumulates(x / 2, y / 2, k - 1);
      NotHalf(x);
      NotHalf(y);
      AndHalf(Not(x), Not(y));
      hide And;
    }
  }

  lemma NotHalf(x: int)
    ensures Not(x) / 2 == Not(x / 2) && Not(x) % 2 == 1 - x % 2
  {
  }

  // ----- int32_MINMAX --------------------------------------------------------------------

  const INT32 := 0x8000_0000

  lemma Pow31()
    ensures Pow2(31) == INT32
  {
    assert Pow2(8) == 256;
    assert Pow2(16) == 65536;
    assert Pow2(24) == 0x100_0000;
  }

  // ab = b ^ a; c = b - a; c ^= ab & (c ^ b); c >>= 31; c &= ab;
  function ExchangeMask(a: int, b: int): int {
    var ab := Xor(b, a);
    var c := b - a;
    And(ShiftRight(Xor(c, And(ab, Xor(c, b))), 31), ab)
  }

  // The shifted value is the sign of b - a when a and b agree in sign, else the sign of b.
  lemma ShiftedSign(a: int, b: int)
    requires -INT32 <= a < INT32 && -INT32 <= b < INT32
    ensures ShiftRight(Xor(b - a, And(Xor(b, a), Xor(b - a, b))), 31) == if b < a then -1 else 0
  {
    hide *;
    var c := b - a;
    var ab := Xor(b, a);
    var s, t, u := ShiftRight(a, 31), ShiftRight(b, 31), ShiftRight(c, 31);
    Pow31();
    ShiftXor(c, And(ab, Xor(c, b)), 31);
    ShiftAnd(ab, Xor(c, b), 31);
    ShiftXor(b, a, 31);
    ShiftXor(c, b, 31);
    ShiftSign(a, 31);
    ShiftSign(b, 31);
    AndMask(Xor(u, t));
    if (a < 0) == (b < 0) {
      XorSelf(s);
      XorZero(u);
      ShiftSign(c, 31);
    } else {
      XorZero(-1);
      XorCancel(u, t);
    }
  }

  lemma ExchangeMaskIs(a: int, b: int)
    requires -INT32 <= a < INT32 && -INT32 <= b < INT32
    ensures ExchangeMask(a, b) == if b < a then Xor(b, a) else 0
  {
    hide Xor, And, ShiftRight;
    ShiftedSign(a, b);
    AndMask(Xor(b, a));
  }

  // The macro leaves the minimum in a and the maximum in b, for every pair of int32.
  lemma MinMaxExact(a: int, b: int)
    requires -INT32 <= a < INT32 && -INT32 <= b < INT32
    ensures Xor(a, ExchangeMask(a, b)) == if b < a then b else a
    ensures Xor(b, ExchangeMask(a, b)) == if b < a then a else b
  {
    hide Xor, ExchangeMask;
    ExchangeMaskIs(a, b);
    XorCancel(a, b);
    XorCancel(b, a);
    XorZero(a);
    XorZero(b);
  }
}
