/**
 Streamlined NTRU Prime core: Encrypt and Decrypt
 (vendor-sntrup761/sntrup761.c:412-431, 562-570, 637-645, 741-772), and the proof
 that decryption never fails: the coefficients of g*r - 3*f*m stay within
 (q-1)/2, so the centred reduction modulo q loses nothing.
 */
module NtruCore {
  import opened ModArith
  import opened PolyRing
  import opened DivMod
  import opened Masks
  import opened TwosComplement
  import opened RingMult
  import opened Reciprocal

  const P := 761
  const W := 286

  // The number of nonzero coefficients of a ternary polynomial.
  function Weight(f: Vec): (n: nat) {
    if f == [] then 0 else Weight(f[..|f| - 1]) + if f[|f| - 1] == 0 then 0 else 1
  }

  function Sub(u: Vec, v: Vec): (s: Vec)
    requires |u| == |v|
    ensures |s| == |u|
  {
    Add(u, Scale(-1, v))
  }

  ghost predicate Within(u: Vec, b: int) { forall i | 0 <= i < |u| :: -b <= u[i] <= b }

  // ----- the coefficient bound --------------------------------------------------------

  lemma XPowTernary(m: Vec, n: nat)
    requires |m| >= 2 && n < |m| && Ternary(m)
    ensures Within(XPow(m, n), 2)
  {
    XPowAt(m, n);
    forall t | 0 <= t < |m|
      ensures -2 <= XPow(m, n)[t] <= 2
    {
      assert XPow(m, n)[t] == Folded(m, n, t);
    }
  }

  lemma ScaleTernary(c: int, u: Vec, b: nat)
    requires -1 <= c <= 1 && Within(u, b)
    ensures Within(Scale(c, u), if c == 0 then 0 else b)
  {
    assert c == 0 || c == 1 || c == -1;
  }

  lemma AddWithin(u: Vec, v: Vec, a: int, b: int)
    requires |u| == |v| && Within(u, a) && Within(v, b)
    ensures Within(Add(u, v), a + b)
  {
  }

  // A product of a weight-n ternary polynomial with a ternary one: each of the n
  // terms contributes at most two coefficients to each cell.
  lemma {:induction false} ProductWithin(f: Vec, m: Vec)
    requires |m| >= 2 && |f| <= |m| && Ternary(f) && Ternary(m)
    ensures Within(Act(f, m), 2 * Weight(f))
  {
    if f != [] {
      var n := |f| - 1;
      ProductWithin(f[..n], m);
      XPowTernary(m, n);
      ScaleTernary(f[n], XPow(m, n), 2);
      AddWithin(Act(f[..n], m), Scale(f[n], XPow(m, n)), 2 * Weight(f[..n]), if f[n] == 0 then 0 else 2);
    }
  }

  lemma ScaleThree(u: Vec, b: int)
    requires Within(u, b)
    ensures Within(Scale(-3, u), 3 * b)
  {
  }

  // What cf3 holds before reduction: g*r - 3*f*m over the integers.
  ghost function Lift(f: Vec, g: Vec, r: Vec, m: Vec): (n: Vec)
    requires |f| == |g| == |r| == |m| >= 2
    ensures |n| == |f|
  {
    Add(Act(g, r), Scale(-3, Act(f, m)))
  }

  lemma LiftBound(f: Vec, g: Vec, r: Vec, m: Vec)
    requires |f| == |g| == |r| == |m| >= 2
    requires Ternary(f) && Ternary(g) && Ternary(r) && Ternary(m)
    ensures Within(Lift(f, g, r, m), 2 * Weight(r) + 6 * Weight(f))
  {
    hide Act, Add, Scale, Ternary;
    MulComm(g, r);
    ProductWithin(r, g);
    ProductWithin(f, m);
    ScaleThree(Act(f, m), 2 * Weight(f));
    AddWithin(Act(g, r), Scale(-3, Act(f, m)), 2 * Weight(r), 6 * Weight(f));
  }

  // ----- the congruences ----------------------------------------------------------------

  // 3*f*h = g in Rq: the relation between the two halves of a key pair.
  ghost predicate KeyPair(f: Vec, g: Vec, h: Vec) {
    |f| == |g| == |h| >= 2 && CongVec(Scale(3, Act(f, h)), g, Fq)
  }

  lemma CongVecSub(u: Vec, u': Vec, v: Vec, F: Field)
    requires |u| == |v| && CongVec(u, u', F)
    ensures CongVec(Sub(u, v), Sub(u', v), F)
  {
    CongVecRefl(Scale(-1, v), F);
    CongVecAdd(u, u', Scale(-1, v), Scale(-1, v), F);
  }

  // 3 * ((h*r) - m) * f = (3*f*h) * r - 3*f*m, before any reduction.
  lemma Rearrange(f: Vec, h: Vec, r: Vec, m: Vec)
    requires |f| == |h| == |r| == |m| >= 2
    ensures Scale(3, Act(Sub(Act(h, r), m), f))
         == Add(Act(Scale(3, Act(f, h)), r), Scale(-3, Act(f, m)))
  {
    hide *;
    SubMeans(Act(h, r), m);
    ActAddLeft(Act(h, r), Scale(-1, m), f);
    ActScaleLeft(-1, m, f);
    MulComm(m, f);
    // (h*r)*f = (f*h)*r
    MulComm(Act(h, r), f);
    MulAssoc(f, h, r);
    ScaleAdd(3, Act(Act(f, h), r), Scale(-1, Act(f, m)));
    ScaleScale(3, -1, Act(f, m));
    ActScaleLeft(3, Act(f, h), r);
  }

  lemma SubMeans(u: Vec, v: Vec)
    requires |u| == |v|
    ensures Sub(u, v) == Add(u, Scale(-1, v))
  {
  }

  // Multiplying the decrypted congruence out by the reciprocal of g.
  lemma RecoverR(g: Vec, ginv: Vec, r: Vec)
    requires |g| == |ginv| == |r| >= 2
    requires CongVec(Act(ginv, g), One(|g|), F3)
    ensures CongVec(Act(Act(g, r), ginv), r, F3)
  {
    hide *;
    var o := One(|g|);
    MulComm(g, r);
    MulAssoc(r, g, ginv);
    MulComm(g, ginv);
    CongVecRefl(r, F3);
    CongVecAct(r, r, Act(g, ginv), o, F3);
    MulOne(r);
  }

  // ----- what the two functions compute ----------------------------------------------------

  function RoundVec(a: Vec): (c: Vec)
    ensures |c| == |a|
  {
    seq(|a|, i requires 0 <= i < |a| => a[i] - Centred(a[i], F3))
  }

  function EncryptVec(r: Vec, h: Vec): (c: Vec)
    requires |r| == |h| >= 2
    ensures |c| == |r|
  {
    RoundVec(CentredVec(Act(h, r), Fq))
  }

  function Evaluated(c: Vec, f: Vec, ginv: Vec): (ev: Vec)
    requires |c| == |f| == |ginv| >= 2
    ensures |ev| == |c|
  {
    var cf3 := CentredVec(Scale(3, CentredVec(Act(c, f), Fq)), Fq);
    CentredVec(Act(CentredVec(cf3, F3), ginv), F3)
  }

  // The fixed weight-w polynomial that stands for a failed decryption.
  function Fallback(n: nat): (r: Vec)
    ensures |r| == n
  {
    seq(n, i => if i < W then 1 else 0)
  }

  function DecryptVec(c: Vec, f: Vec, ginv: Vec): (r: Vec)
    requires |c| == |f| == |ginv| >= 2
    ensures |r| == |c|
  {
    var ev := Evaluated(c, f, ginv);
    if Weight(ev) == W then ev else Fallback(|c|)
  }

  lemma RoundIsSub(a: Vec)
    ensures RoundVec(a) == Sub(a, CentredVec(a, F3))
  {
  }

  // Round keeps the centred range, because 3 divides (q-1)/2.
  lemma RoundRange(a: Vec)
    requires Within(a, Q12)
    ensures Within(RoundVec(a), Q12)
    ensures forall i | 0 <= i < |a| :: RoundVec(a)[i] % 3 == 0
  {
  }

  lemma CentredVecWithin(u: Vec)
    ensures Within(CentredVec(u, Fq), Q12)
    ensures Ternary(CentredVec(u, F3))
  {
  }

  lemma CentredVecOf(u: Vec, v: Vec, F: Field)
    requires CongVec(u, v, F)
    ensures CentredVec(u, F) == CentredVec(v, F)
  {
    forall i | 0 <= i < |u|
      ensures CentredVec(u, F)[i] == CentredVec(v, F)[i]
    {
      var a, b := Centred(u[i], F), Centred(v[i], F);
      CongTrans(a, u[i], v[i], F);
      CongSym(b, v[i], F);
      CongTrans(a, v[i], b, F);
      CentredUnique(a, b, F);
    }
  }

  lemma WithinCentred(u: Vec, b: int)
    requires Within(u, b) && b <= Q12
    ensures CentredVec(u, Fq) == u
  {
    CongVecRefl(u, Fq);
    CentredVecUnique(u, u, Fq);
  }

  lemma TernaryCentred(u: Vec)
    requires Ternary(u)
    ensures CentredVec(u, F3) == u
  {
    CongVecRefl(u, F3);
    CentredVecUnique(u, u, F3);
  }

  lemma CongVecMultiple(u: Vec, v: Vec)
    requires |u| == |v|
    ensures CongVec(Add(u, Scale(-3, v)), u, F3)
  {
    forall i | 0 <= i < |u|
      ensures Cong(Add(u, Scale(-3, v))[i], u[i], F3)
    {
      CongFromQuotient(u[i] + -3 * v[i], u[i], -v[i], F3);
    }
  }

  // The rounding error of a ciphertext: the ternary m with c = h*r - m in Rq.
  ghost function RoundingError(h: Vec, r: Vec): (m: Vec)
    requires |h| == |r| >= 2
    ensures |m| == |h|
  {
    CentredVec(CentredVec(Act(h, r), Fq), F3)
  }

  lemma CiphertextCong(h: Vec, r: Vec)
    requires |h| == |r| >= 2
    ensures CongVec(EncryptVec(r, h), Sub(Act(h, r), RoundingError(h, r)), Fq)
    ensures Ternary(RoundingError(h, r))
  {
    var hr := CentredVec(Act(h, r), Fq);
    RoundIsSub(hr);
    CentredVecWithin(hr);
    hide Act, CentredVec, Sub, CongVec, RoundVec;
    CentredVecCong(Act(h, r), Fq);
    CongVecSub(hr, Act(h, r), CentredVec(hr, F3), Fq);
  }

  lemma LiftMeans(f: Vec, g: Vec, r: Vec, m: Vec)
    requires |f| == |g| == |r| == |m| >= 2
    ensures Lift(f, g, r, m) == Add(Act(g, r), Scale(-3, Act(f, m)))
  {
  }

  lemma KeyPairMeans(f: Vec, g: Vec, h: Vec)
    requires |f| == |g| == |h| >= 2 && KeyPair(f, g, h)
    ensures CongVec(Scale(3, Act(f, h)), g, Fq)
  {
  }

  // 3*c*f and the lift agree modulo q.
  lemma TripleCong(f: Vec, g: Vec, h: Vec, r: Vec, c: Vec, m: Vec)
    requires |f| == |g| == |h| == |r| == |c| == |m| >= 2
    requires KeyPair(f, g, h) && CongVec(c, Sub(Act(h, r), m), Fq)
    ensures CongVec(Scale(3, CentredVec(Act(c, f), Fq)), Lift(f, g, r, m), Fq)
  {
    hide *;
    var d := Sub(Act(h, r), m);
    CongVecRefl(f, Fq);
    CongVecAct(c, d, f, f, Fq);
    CentredVecCong(Act(c, f), Fq);
    CongVecTrans(CentredVec(Act(c, f), Fq), Act(c, f), Act(d, f), Fq);
    CongRefl(3, Fq);
    CongVecScale(3, 3, CentredVec(Act(c, f), Fq), Act(d, f), Fq);
    Rearrange(f, h, r, m);
    // 3*f*h = g
    KeyPairMeans(f, g, h);
    CongVecRefl(r, Fq);
    var gr := Act(Scale(3, Act(f, h)), r);
    CongVecAct(Scale(3, Act(f, h)), g, r, r, Fq);
    var e := Scale(-3, Act(f, m));
    CongVecRefl(e, Fq);
    CongVecAdd(gr, Act(g, r), e, e, Fq);
    LiftMeans(f, g, r, m);
    CongVecTrans(Scale(3, CentredVec(Act(c, f), Fq)), Add(gr, e), Lift(f, g, r, m), Fq);
  }

  // cf3 is the integer polynomial g*r - 3*f*m itself.
  lemma DecryptedLift(f: Vec, g: Vec, h: Vec, r: Vec)
    requires |f| == |g| == |h| == |r| >= 2 && KeyPair(f, g, h)
    requires Ternary(f) && Ternary(g) && Ternary(r)
    requires 2 * Weight(r) + 6 * Weight(f) <= Q12
    ensures CentredVec(Scale(3, CentredVec(Act(EncryptVec(r, h), f), Fq)), Fq)
         == Lift(f, g, r, RoundingError(h, r))
  {
    hide *;
    var m := RoundingError(h, r);
    var c := EncryptVec(r, h);
    CiphertextCong(h, r);
    TripleCong(f, g, h, r, c, m);
    var n := Lift(f, g, r, m);
    CentredVecOf(Scale(3, CentredVec(Act(c, f), Fq)), n, Fq);
    LiftBound(f, g, r, m);
    WithinCentred(n, 2 * Weight(r) + 6 * Weight(f));
  }

  // e = g*r mod 3, and multiplying by ginv leaves r.
  lemma LiftDecrypts(f: Vec, g: Vec, ginv: Vec, r: Vec, m: Vec)
    requires |f| == |g| == |ginv| == |r| == |m| >= 2 && Ternary(r)
    requires CongVec(Act(ginv, g), One(|g|), F3)
    ensures CentredVec(Act(CentredVec(Lift(f, g, r, m), F3), ginv), F3) == r
  {
    hide *;
    var n := Lift(f, g, r, m);
    LiftMeans(f, g, r, m);
    CongVecMultiple(Act(g, r), Act(f, m));
    var e := CentredVec(n, F3);
    CentredVecCong(n, F3);
    CongVecTrans(e, n, Act(g, r), F3);
    CongVecRefl(ginv, F3);
    CongVecAct(e, Act(g, r), ginv, ginv, F3);
    RecoverR(g, ginv, r);
    CongVecTrans(Act(e, ginv), Act(Act(g, r), ginv), r, F3);
    CentredVecOf(Act(e, ginv), r, F3);
    TernaryCentred(r);
  }

  lemma EvaluatedMeans(c: Vec, f: Vec, ginv: Vec)
    requires |c| == |f| == |ginv| >= 2
    ensures Evaluated(c, f, ginv)
         == CentredVec(Act(CentredVec(CentredVec(Scale(3, CentredVec(Act(c, f), Fq)), Fq), F3), ginv), F3)
  {
  }

  // Decryption recovers r exactly, for every key pair and every short r.
  lemma DecryptsWhatWasEncrypted(f: Vec, g: Vec, h: Vec, ginv: Vec, r: Vec)
    requires |f| == |g| == |h| == |ginv| == |r| >= 2 && KeyPair(f, g, h)
    requires Ternary(f) && Ternary(g) && Ternary(r)
    requires CongVec(Act(ginv, g), One(|g|), F3)
    requires Weight(f) == W && Weight(r) == W
    ensures DecryptVec(EncryptVec(r, h), f, ginv) == r
  {
    hide Evaluated, EncryptVec, KeyPair, Ternary, CongVec, Weight, Fallback, Act, One;
    DecryptedLift(f, g, h, r);
    LiftDecrypts(f, g, ginv, r, RoundingError(h, r));
    EvaluatedMeans(EncryptVec(r, h), f, ginv);
  }

  // ----- the code ------------------------------------------------------------------

  // 0 if r has weight w, else -1; r[i] & 1 is the parity bit of r[i].
  method WeightwMask(r: Vec) returns (mask: int)
    requires |r| < 0x4000 && Ternary(r)
    ensures mask == if Weight(r) == W then 0 else -1
  {
    var weight := 0;
    for i := 0 to |r|
      invariant weight == Weight(r[..i]) && 0 <= weight <= i
    {
      assert r[..i + 1][..i] == r[..i];
      weight := weight + r[i] % 2;
    }
    assert r[..|r|] == r;
    mask := Int16NonzeroMask(weight - W);
  }

  method R3FromRq(r: Vec) returns (out: Vec)
    requires Int16(r)
    ensures out == CentredVec(r, F3)
  {
    out := [];
    for i := 0 to |r|
      invariant out == CentredVec(r, F3)[..i]
    {
      var t := F3Freeze(r[i]);
      out := out + [t];
    }
  }

  method RqMult3(f: Vec) returns (h: Vec)
    requires Int16(f)
    ensures h == CentredVec(Scale(3, f), Fq)
  {
    h := [];
    for i := 0 to |f|
      invariant h == CentredVec(Scale(3, f), Fq)[..i]
    {
      var t := FqFreeze(3 * f[i]);
      h := h + [t];
    }
  }

  method Round(a: Vec) returns (out: Vec)
    requires Int16(a)
    ensures out == RoundVec(a)
  {
    out := [];
    for i := 0 to |a|
      invariant out == RoundVec(a)[..i]
    {
      var t := F3Freeze(a[i]);
      out := out + [a[i] - t];
    }
  }

  lemma WithinInt16(u: Vec)
    requires Within(u, Q12)
    ensures Int16(u)
  {
  }

  lemma TernaryInt8(u: Vec)
    requires Ternary(u)
    ensures Int8(u)
  {
  }

  // c = Encrypt(r, h)
  method Encrypt(r: Vec, h: Vec) returns (c: Vec)
    requires |r| == |h| >= 2 && Ternary(r) && Within(h, Q12)
    ensures c == EncryptVec(r, h)
    ensures Within(c, Q12) && forall i | 0 <= i < |c| :: c[i] % 3 == 0
  {
    WithinInt16(h);
    TernaryInt8(r);
    var hr := RqMultSmall(h, r);
    CentredVecWithin(Act(h, r));
    WithinInt16(hr);
    RoundRange(hr);
    c := Round(hr);
  }

  lemma FallbackTernary(n: nat)
    ensures Ternary(Fallback(n))
  {
  }

  // r[i] = ((ev[i] ^ 1) & ~mask) ^ 1 below w, ev[i] & ~mask from there on
  method KeepUnderMask(ev: Vec, mask: int) returns (r: Vec)
    requires |ev| >= W && IsMask(mask)
    ensures r == if mask == 0 then ev else Fallback(|ev|)
  {
    hide Xor, And;
    r := [];
    for i := 0 to W
      invariant |r| == i && forall k | 0 <= k < i :: r[k] == if mask == 0 then ev[k] else 1
    {
      KeepOrDefault(mask, ev[i]);
      r := r + [Xor(And(Xor(ev[i], 1), Not(mask)), 1)];
    }
    for i := W to |ev|
      invariant |r| == i
      invariant forall k | 0 <= k < i :: r[k] == if mask == 0 then ev[k] else if k < W then 1 else 0
    {
      KeepOrDefault(mask, ev[i]);
      r := r + [And(ev[i], Not(mask))];
    }
    assert r == if mask == 0 then ev else Fallback(|ev|);
  }

  // r = Decrypt(c, (f, ginv)): the weight-w result, or a fixed one.
  method Decrypt(c: Vec, f: Vec, ginv: Vec) returns (r: Vec)
    requires |c| == |f| == |ginv| && W <= |c| < 0x4000
    requires Int16(c) && Int8(f) && Int8(ginv)
    ensures r == DecryptVec(c, f, ginv) && Ternary(r)
  {
    FallbackTernary(|c|);
    hide CentredVec, Act, Scale, Weight, Within, Ternary, Int16, Int8, Fallback;
    var cf := RqMultSmall(c, f);
    CentredVecWithin(Act(c, f));
    WithinInt16(cf);
    var cf3 := RqMult3(cf);
    CentredVecWithin(Scale(3, cf));
    WithinInt16(cf3);
    var e := R3FromRq(cf3);
    CentredVecWithin(cf3);
    TernaryInt8(e);
    var ev := R3Mult(e, ginv);
    CentredVecWithin(Act(e, ginv));
    var mask := WeightwMask(ev);
    r := KeepUnderMask(ev, mask);
  }
}
