/**
 Reciprocals modulo q = 4591 (vendor-sntrup761/sntrup761.c:396-408): q is prime, so the
 power a^(q - 2) that the code computes is the inverse of a.
 */
module Fermat {
  import opened ModArith
  import opened DivMod
  import opened RingMult

  // ----- q is prime -----------------------------------------------------------------------

  predicate NoFactor(n: nat, m: nat) { m < 2 || (n % m != 0 && NoFactor(n, m - 1)) }

  lemma {:induction false} NoFactorBelow(n: nat, m: nat, k: nat)
    requires NoFactor(n, m) && 2 <= k <= m
    ensures n % k != 0
  {
    if k < m { NoFactorBelow(n, m - 1, k); }
  }

  // A number below 68^2 that has a factor has one of at most 67.
  lemma SmallerFactor(n: nat, k: nat) returns (t: nat)
    requires n < 68 * 68 && 67 < k < n && n % k == 0
    ensures 2 <= t <= 67 && n % t == 0
  {
    t := n / k;
    assert n == t * k == k * t;
    if t >= 68 { AtLeast(t, k, 68, 68); }
    if t < 2 { AtLeast(1, k, t, k); }
    DivUnique(n, t, k, 0);
  }

  lemma AtLeast(a: nat, b: nat, c: nat, d: nat)
    requires a >= c && b >= d
    ensures a * b >= c * d
  {
  }

  lemma NoFactorAtAll(n: nat, k: nat)
    requires n < 68 * 68 && NoFactor(n, 67) && 1 < k < n
    ensures n % k != 0
  {
    if k <= 67 {
      NoFactorBelow(n, 67, k);
    } else if n % k == 0 {
      var t := SmallerFactor(n, k);
      NoFactorBelow(n, 67, t);
    }
  }

  lemma Prime(k: nat)
    requires 1 < k < Q
    ensures Q % k != 0
  {
    assert NoFactor(4591, 12);
    assert NoFactor(4591, 24);
    assert NoFactor(4591, 36);
    assert NoFactor(4591, 48);
    assert NoFactor(4591, 60);
    assert NoFactor(4591, 67);
    NoFactorAtAll(4591, k);
  }

  // q divides a product only if it divides a factor.
  lemma {:induction false} Euclid(k: nat, c: int)
    requires 0 < k < Q && Cong(k * c, 0, Fq)
    ensures Cong(c, 0, Fq)
    decreases k
  {
    if k > 1 {
      Prime(k);
      var t, r := Q / k, Q % k;
      assert Q == k * t + r && 0 < r < k;
      var m := CongQuotient(k * c, 0, Fq);
      assert r * c == Q * c - t * (k * c);
      assert t * (k * c) == (t * m) * Q;
      assert r * c - 0 == (c - t * m) * Q;
      CongFromQuotient(r * c, 0, c - t * m, Fq);
      Euclid(r, c);
    }
  }

  // ----- powers ---------------------------------------------------------------------------

  function Power(a: int, n: nat): int { if n == 0 then 1 else a * Power(a, n - 1) }

  // Binomial coefficients, and (x + 1)^n from them.
  function Choose(n: nat, k: nat): nat {
    if k == 0 then 1 else if n == 0 then 0 else Choose(n - 1, k - 1) + Choose(n - 1, k)
  }

  function Binomial(n: nat, x: int, m: nat): int {
    (if m == 0 then 0 else Binomial(n, x, m - 1)) + Choose(n, m) * Power(x, m)
  }

  lemma {:induction false} ChooseAbove(n: nat, k: nat)
    requires k > n
    ensures Choose(n, k) == 0
  {
    if n > 0 {
      ChooseAbove(n - 1, k - 1);
      ChooseAbove(n - 1, k);
    }
  }

  lemma {:induction false} ChooseAll(n: nat)
    ensures Choose(n, n) == 1
  {
    if n > 0 {
      ChooseAll(n - 1);
      ChooseAbove(n - 1, n);
    }
  }

  // k C(n, k) = n C(n - 1, k - 1)
  lemma {:induction false} Absorb(n: nat, k: nat)
    requires n > 0 && k > 0
    ensures k * Choose(n, k) == n * Choose(n - 1, k - 1)
  {
    if n == 1 {
      assert Choose(0, k) == 0;
      if k == 1 { assert Choose(0, 0) == 1; } else { assert Choose(0, k - 1) == 0; }
    } else if k == 1 {
      Absorb(n - 1, 1);
      assert Choose(n - 1, 0) == 1 && Choose(n - 2, 0) == 1;
    } else {
      Absorb(n - 1, k - 1);
      Absorb(n - 1, k);
      var a, b, c := Choose(n - 1, k - 1), Choose(n - 2, k - 2), Choose(n - 2, k - 1);
      assert a == b + c;
      assert (k - 1) * a == (n - 1) * b && k * Choose(n - 1, k) == (n - 1) * c;
      Gather(n, k, a, b, c, Choose(n - 1, k));
    }
  }

  lemma Gather(n: int, k: int, a: int, b: int, c: int, d: int)
    requires a == b + c && (k - 1) * a == (n - 1) * b && k * d == (n - 1) * c
    ensures k * (a + d) == n * a
  {
    assert k * (a + d) == (k - 1) * a + a + k * d;
    assert (n - 1) * b + (n - 1) * c == (n - 1) * a;
  }

  lemma {:induction false} BinomialNext(n: nat, x: int, m: nat)
    ensures Binomial(n + 1, x, m) == Binomial(n, x, m) + if m == 0 then 0 else x * Binomial(n, x, m - 1)
  {
    if m > 0 {
      BinomialNext(n, x, m - 1);
      var p := Power(x, m - 1);
      assert Power(x, m) == x * p;
      BinomialTerm(x, Choose(n, m - 1), Choose(n, m), p, if m == 1 then 0 else Binomial(n, x, m - 2), Binomial(n, x, m - 1));
    }
  }

  // The m-th terms of the two sums.
  lemma BinomialTerm(x: int, a: int, b: int, p: int, before: int, sum: int)
    requires sum == before + a * p
    ensures (a + b) * (x * p) + x * before == b * (x * p) + x * sum
  {
    assert (a + b) * (x * p) == a * (x * p) + b * (x * p);
    assert x * sum == x * before + x * (a * p);
    assert a * (x * p) == x * (a * p);
  }

  lemma {:induction false} BinomialIs(n: nat, x: int, m: nat)
    requires m >= n
    ensures Binomial(n, x, m) == Power(x + 1, n)
  {
    hide Binomial, Choose, Power;
    if n == 0 {
      BinomialZero(x, m);
      PowerZero(x + 1);
    } else {
      BinomialNext(n - 1, x, m);
      BinomialIs(n - 1, x, m);
      BinomialIs(n - 1, x, m - 1);
      PowerStep(x + 1, n);
      PlusOne(x, Power(x + 1, n - 1));
    }
  }

  lemma PowerZero(a: int)
    ensures Power(a, 0) == 1
  {
  }

  lemma PlusOne(x: int, p: int)
    ensures (x + 1) * p == p + x * p
  {
  }

  lemma {:induction false} BinomialZero(x: int, m: nat)
    ensures Binomial(0, x, m) == 1
  {
    if m > 0 {
      BinomialZero(x, m - 1);
      assert Choose(0, m) * Power(x, m) == 0;
    }
  }

  // ----- Fermat's little theorem ----------------------------------------------------------

  lemma ChooseVanishes(k: nat)
    requires 0 < k < Q
    ensures Cong(Choose(Q, k), 0, Fq)
  {
    hide Choose;
    Absorb(Q, k);
    CongFromQuotient(k * Choose(Q, k), 0, Choose(Q - 1, k - 1), Fq);
    Euclid(k, Choose(Q, k));
  }

  lemma {:induction false} BinomialVanishes(x: int, m: nat)
    requires m < Q
    ensures Cong(Binomial(Q, x, m), 1, Fq)
  {
    hide Choose, Cong;
    if m == 0 {
      ChooseNone(Q);
      assert Binomial(Q, x, 0) == 1;
      CongRefl(1, Fq);
    } else {
      BinomialVanishes(x, m - 1);
      ChooseVanishes(m);
      CongRefl(Power(x, m), Fq);
      CongMul(Choose(Q, m), 0, Power(x, m), Power(x, m), Fq);
      assert 0 * Power(x, m) == 0;
      CongAdd(Binomial(Q, x, m - 1), 1, Choose(Q, m) * Power(x, m), 0, Fq);
    }
  }

  lemma ChooseNone(n: nat)
    ensures Choose(n, 0) == 1
  {
  }

  // (x + 1)^q = x^q + 1 modulo q
  lemma NextPower(x: int)
    ensures Cong(Power(x + 1, Q), Power(x, Q) + 1, Fq)
  {
    hide Choose, Cong, Power;
    BinomialIs(Q, x, Q);
    BinomialVanishes(x, Q - 1);
    ChooseAll(Q);
    BinomialLast(x);
    CongRefl(Power(x, Q), Fq);
    CongAdd(Binomial(Q, x, Q - 1), 1, Power(x, Q), Power(x, Q), Fq);
  }

  lemma BinomialLast(x: int)
    ensures Binomial(Q, x, Q) == Binomial(Q, x, Q - 1) + Choose(Q, Q) * Power(x, Q)
  {
    hide Choose, Power;
  }

  lemma {:induction false} PowerFixed(a: nat)
    ensures Cong(Power(a, Q), a, Fq)
  {
    hide Cong;
    if a == 0 {
      PowerOfZero(Q);
      CongRefl(0, Fq);
    } else {
      PowerFixed(a - 1);
      NextPower(a - 1);
      CongRefl(1, Fq);
      CongAdd(Power(a - 1, Q), a - 1, 1, 1, Fq);
      CongTrans(Power(a, Q), Power(a - 1, Q) + 1, a, Fq);
    }
  }

  lemma PowerOfZero(n: nat)
    requires n > 0
    ensures Power(0, n) == 0
  {
  }

  lemma {:induction false} PowerCong(a: int, b: int, n: nat)
    requires Cong(a, b, Fq)
    ensures Cong(Power(a, n), Power(b, n), Fq)
  {
    hide Cong;
    if n == 0 {
      CongRefl(1, Fq);
    } else {
      PowerCong(a, b, n - 1);
      CongMul(a, b, Power(a, n - 1), Power(b, n - 1), Fq);
    }
  }

  // For every a that q does not divide.
  lemma LittleTheorem(a: int)
    requires !Cong(a, 0, Fq)
    ensures Cong(Power(a, Q - 1), 1, Fq)
  {
    hide Power;
    var k := a % Q;
    CongFromQuotient(a, k, a / Q, Fq);
    assert k > 0;
    PowerFixed(k);
    PowerCong(a, k, Q - 1);
    var p := Power(k, Q - 1);
    PowerStep(k, Q);
    var m := CongQuotient(Power(k, Q), k, Fq);
    assert k * (p - 1) - 0 == m * Q;
    CongFromQuotient(k * (p - 1), 0, m, Fq);
    Euclid(k, p - 1);
    var t := CongQuotient(p - 1, 0, Fq);
    CongFromQuotient(p, 1, t, Fq);
    CongTrans(Power(a, Q - 1), p, 1, Fq);
  }

  lemma PowerStep(a: int, n: nat)
    requires n > 0
    ensures Power(a, n) == a * Power(a, n - 1)
  {
  }

  // ----- the code -------------------------------------------------------------------------

  // Fq_recip: a^(q - 2), by repeated multiplication.
  method FqRecip(a1: int) returns (ai: int)
    requires IsCentred(a1, Fq) && a1 != 0
    ensures IsCentred(ai, Fq) && Cong(a1 * ai, 1, Fq)
  {
    hide Power, Cong;
    var i := 1;
    ai := a1;
    PowerOne(a1);
    CongRefl(a1, Fq);
    while i < Q - 2
      invariant 1 <= i <= Q - 2 && IsCentred(ai, Fq) && Cong(ai, Power(a1, i), Fq)
    {
      ghost var before := ai;
      ProductRange(Q12, Q12, a1, ai);
      ai := FqFreeze(a1 * ai);
      CongRefl(a1, Fq);
      CongMul(a1, a1, before, Power(a1, i), Fq);
      PowerStep(a1, i + 1);
      CongTrans(ai, a1 * before, Power(a1, i + 1), Fq);
      i := i + 1;
    }
    CongRefl(a1, Fq);
    CongMul(a1, a1, ai, Power(a1, Q - 2), Fq);
    PowerStep(a1, Q - 1);
    NotZero(a1);
    LittleTheorem(a1);
    CongTrans(a1 * ai, Power(a1, Q - 1), 1, Fq);
  }

  lemma PowerOne(a: int)
    ensures Power(a, 1) == a
  {
    assert Power(a, 0) == 1;
  }

  lemma NotZero(a: int)
    requires IsCentred(a, Fq) && a != 0
    ensures !Cong(a, 0, Fq)
  {
  }
}
