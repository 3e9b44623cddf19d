/**
 Division by a 14-bit modulus without dividing by x
 (vendor-sntrup761/sntrup761.c:125-211, 376-394). Every intermediate is kept in
 the width the code keeps it in: U32 is the wrap-around of uint32_t, U16 that of
 uint16_t.
 */
module DivMod {
  import opened ModArith

  const TWO14 := 0x4000
  const TWO16 := 0x1_0000
  const TWO31 := 0x8000_0000
  const TWO32 := 0x1_0000_0000

  function U32(x: int): nat { x % TWO32 }

  function U16(x: int): nat { x % TWO16 }

  // Conversion of an out-of-range value to int32_t keeps the low 32 bits.
  function I32(x: int): int { if U32(x) >= TWO31 then U32(x) - TWO32 else U32(x) }

  // Quotients are determined by their remainders.
  lemma DivUnique(x: int, m: int, q: int, r: int)
    requires m > 0 && x == q * m + r && 0 <= r < m
    ensures q == x / m && r == x % m
  {
    var d := q - x / m;
    assert x == m * (x / m) + x % m;
    assert d * m == x % m - r;
    assert d > 0 ==> d * m >= m;
    assert d < 0 ==> d * m <= -m;
  }

  lemma MulMono(a: int, b: int, c: int)
    requires a <= b && 0 <= c
    ensures a * c <= b * c && c * a <= c * b
  {
  }

  lemma Reassociate(a: int, b: int, c: int)
    ensures (a * b) * c == a * (b * c) == (a * c) * b
  {
  }

  // One reciprocal step: with v = 2^31 / m, so v*m = 2^31 - e for some e < m,
  // subtracting (x*v >> 31) * m from x leaves at most m + x*(m-1)/2^31.
  lemma ReciprocalBound(x: nat, m: int, v: nat, e: nat, qp: nat, s: nat)
    requires v * m == TWO31 - e && e < m
    requires x * v == TWO31 * qp + s && s < TWO31
    ensures 0 <= TWO31 * (x - qp * m) <= (TWO31 - 1) * m + x * (m - 1)
  {
    calc {
      TWO31 * x;
    ==
      (v * m + e) * x;
    ==  { Distribute(v * m, e, x); Reassociate(v, m, x); }
      (v * x) * m + e * x;
    ==
      (TWO31 * qp + s) * m + e * x;
    ==  { Distribute(TWO31 * qp, s, m); Reassociate(TWO31, qp, m); }
      TWO31 * (qp * m) + s * m + e * x;
    }
    MulMono(s, TWO31 - 1, m);
    MulMono(0, s, m);
    MulMono(e, m - 1, x);
    MulMono(0, e, x);
  }

  // Both reciprocal steps take at least the whole multiples of m they claim and
  // leave a remainder within the stated bound.
  lemma FirstStep(x: nat, m: int, v: nat, qp: nat)
    requires 0 < m < TWO14 && v == TWO31 / m && x < TWO32
    requires qp == (x * v) / TWO31
    ensures 0 <= x - qp * m <= 49146 && qp <= x
  {
    ReciprocalBound(x, m, v, TWO31 % m, qp, (x * v) % TWO31);
    MulMono(x, TWO32 - 1, m - 1);
    MulMono(1, m, qp);
  }

  lemma SecondStep(x: nat, m: int, v: nat, qp: nat)
    requires 0 < m < TWO14 && v == TWO31 / m && x <= 49146
    requires qp == (x * v) / TWO31
    ensures 0 <= x - qp * m <= m && qp <= x
  {
    ReciprocalBound(x, m, v, TWO31 % m, qp, (x * v) % TWO31);
    MulMono(x, 49146, m - 1);
    MulMono(1, m, qp);
  }

  // The wrap-around does nothing to a value that is already in range.
  lemma U32Small(x: int)
    requires 0 <= x < TWO32
    ensures U32(x) == x
  {
  }

  // x -= m; q += 1; mask = -(x >> 31); x += mask & m; q += mask;
  method MaskedFixup(x0: nat, q0: nat, m: int) returns (x: int, q: int)
    requires 0 < m < TWO14 && x0 <= m && q0 < TWO32
    requires x0 == m ==> q0 < TWO32 - 1
    ensures x0 == m ==> x == 0 && q == q0 + 1
    ensures x0 < m ==> x == x0 && q == q0
  {
    x := U32(x0 - m);
    q := U32(q0 + 1);
    var mask := U32(-(x / TWO31));
    x := U32(x + if mask == 0 then 0 else m);   // mask is 0 or all ones
    q := U32(q + mask);
  }

  // qpart = (x * v) >> 31; x -= qpart * m; q += qpart;
  method ReciprocalReduce(x0: nat, q0: nat, v: nat, m: int) returns (x: nat, q: nat)
    requires 0 < m < TWO14 && v == TWO31 / m
    requires q0 * m + x0 < TWO32
    ensures q * m + x == q0 * m + x0
    ensures x <= 49146
    ensures x0 <= 49146 ==> x <= m
  {
    var qpart := (x0 * v) / TWO31;
    MulMono(0, m, q0);
    FirstStep(x0, m, v, qpart);
    if x0 <= 49146 {
      SecondStep(x0, m, v, qpart);
    }
    Distribute(q0, qpart, m);
    MulMono(1, m, q0 + qpart);
    U32Small(qpart);
    U32Small(x0 - qpart * m);
    U32Small(q0 + qpart);
    hide U32;
    x := U32(x0 - U32(qpart) * m);
    q := U32(q0 + U32(qpart));
  }

  method Uint32DivmodUint14(x0: int, m: int) returns (q: int, r: int)
    requires 0 <= x0 < TWO32 && 0 < m < TWO14
    ensures x0 == q * m + r && 0 <= r < m && 0 <= q
  {
    hide U32;
    var v := TWO31 / m;
    var x := x0;
    q := 0;
    x, q := ReciprocalReduce(x, q, v, m);
    x, q := ReciprocalReduce(x, q, v, m);
    MulMono(1, m, q);
    if x == m {
      Distribute(q, 1, m);
      MulMono(1, m, q + 1);
    }
    x, q := MaskedFixup(x, q, m);
    r := U16(x);
  }

  method Uint32ModUint14(x: int, m: int) returns (r: int)
    requires 0 <= x < TWO32 && 0 < m < TWO14
    ensures r == x % m
  {
    var q;
    q, r := Uint32DivmodUint14(x, m);
    DivUnique(x, m, q, r);
  }

  lemma QuotientRange(x: int, m: int, q: int, r: int)
    requires -TWO31 <= x < TWO31 && 0 < m && x == q * m + r && 0 <= r < m
    ensures -TWO31 <= q < TWO31
  {
    if q >= TWO31 {
      MulMono(TWO31, q, m);
      MulMono(1, m, TWO31);
    }
    if q <= -TWO31 - 1 {
      MulMono(q, -TWO31 - 1, m);
      MulMono(1, m, TWO31);
    }
  }

  // ur -= ur2; uq -= uq2; mask = -(ur >> 15); ur += mask & m; uq += mask;
  method MaskedBorrow(ur: nat, ur2: nat, uq: nat, uq2: nat, m: int) returns (q: int, r: int)
    requires 0 < m < TWO14 && ur < m && ur2 < m
    requires -TWO31 <= uq - uq2 - (if ur < ur2 then 1 else 0) < TWO31
    ensures r == ur - ur2 + if ur < ur2 then m else 0
    ensures q == uq - uq2 - if ur < ur2 then 1 else 0
  {
    r := U16(ur - ur2);
    q := U32(uq - uq2);
    var mask := U32(-(r / 0x8000));
    r := U16(r + if mask == 0 then 0 else m);
    q := I32(q + mask);
  }

  // 0x80000000 + (uint32_t) x is x + 2^31, which never wraps.
  lemma BiasInt32(x: int)
    requires -TWO31 <= x < TWO31
    ensures U32(TWO31 + U32(x)) == TWO31 + x
  {
  }

  // Subtracting the biased results of x + 2^31 and 2^31 gives floor division of x.
  lemma UnbiasedQuotient(x: int, m: int, uq: int, ur: int, uq2: int, ur2: int)
    requires -TWO31 <= x < TWO31 && 0 < m
    requires TWO31 + x == uq * m + ur && 0 <= ur < m
    requires TWO31 == uq2 * m + ur2 && 0 <= ur2 < m
    ensures var borrow := if ur < ur2 then 1 else 0;
            x == (uq - uq2 - borrow) * m + (ur - ur2 + borrow * m)
            && 0 <= ur - ur2 + borrow * m < m
            && -TWO31 <= uq - uq2 - borrow < TWO31
  {
    Distribute(uq, uq2, m);
    Distribute(uq - uq2, 1, m);
    if ur >= ur2 {
      QuotientRange(x, m, uq - uq2, ur - ur2);
    } else {
      QuotientRange(x, m, uq - uq2 - 1, ur - ur2 + m);
    }
  }

  // Floor division: the remainder is never negative.
  method Int32DivmodUint14(x: int, m: int) returns (q: int, r: int)
    requires -TWO31 <= x < TWO31 && 0 < m < TWO14
    ensures x == q * m + r && 0 <= r < m
  {
    BiasInt32(x);
    var uq, ur := Uint32DivmodUint14(U32(TWO31 + U32(x)), m);
    var uq2, ur2 := Uint32DivmodUint14(TWO31, m);
    UnbiasedQuotient(x, m, uq, ur, uq2, ur2);
    q, r := MaskedBorrow(ur, ur2, uq, uq2, m);
  }

  method Int32ModUint14(x: int, m: int) returns (r: int)
    requires -TWO31 <= x < TWO31 && 0 < m < TWO14
    ensures r == x % m
  {
    var q;
    q, r := Int32DivmodUint14(x, m);
    DivUnique(x, m, q, r);
  }

  // ----- the two coefficient fields ---------------------------------------------

  // The centred residue mod 3: the only element of -1..1 congruent to x.
  method F3Freeze(x: int) returns (r: int)
    requires -0x8000 <= x < 0x8000
    ensures r == Centred(x, F3)
  {
    var t := Int32ModUint14(x + 1, 3);
    r := t - 1;
  }

  // The centred residue mod q. "x must not be close to top int32".
  method FqFreeze(x: int) returns (r: int)
    requires -TWO31 <= x < TWO31 - Q12
    ensures r == Centred(x, Fq)
  {
    var t := Int32ModUint14(x + Q12, Q);
    r := t - Q12;
  }
}
