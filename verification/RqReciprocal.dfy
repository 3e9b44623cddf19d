/**
 The constant-time reciprocal in Rq (vendor-sntrup761/sntrup761.c:572-635): the division
 steps of module Reciprocal over Z/q, started from 1/3. Whenever the run ends with delta
 0, the output is the inverse of three times the input.
 */
module RqReciprocal {
  import opened ModArith
  import opened PolyRing
  import opened DivMod
  import opened Masks
  import opened RingMult
  import opened Reciprocal
  import opened Fermat

  // 1/3 modulo q.
  const Third := -1530

  lemma ThirdIs(c: int)
    requires IsCentred(c, Fq) && Cong(3 * c, 1, Fq)
    ensures c == Third
  {
    CongSub(3 * c, 1, 3 * Third);
    assert 3 * c - 3 * Third == 3 * (c - Third);
    Euclid(3, c - Third);
    CongShift(c, Third);
    CentredUnique(c, Third, Fq);
  }

  lemma CongSub(a: int, b: int, c: int)
    requires Cong(a, b, Fq) && Cong(c, b, Fq)
    ensures Cong(a - c, 0, Fq)
  {
    var k := CongQuotient(a, b, Fq);
    var l := CongQuotient(c, b, Fq);
    Distribute(k, l, Q);
    CongFromQuotient(a - c, 0, k - l, Fq);
  }

  lemma CongShift(a: int, b: int)
    requires Cong(a - b, 0, Fq)
    ensures Cong(a, b, Fq)
  {
  }

  // ----- one division step ----------------------------------------------------------------

  // g[i] = Fq_freeze(f0 * g[i] - g0 * f[i])
  method CombineInPlace(f0: int, g: array<int>, g0: int, f: array<int>)
    requires f != g && f.Length == g.Length && IsCentred(f0, Fq) && IsCentred(g0, Fq)
    requires AllCentred(f[..], Fq) && AllCentred(g[..], Fq)
    modifies g
    ensures g[..] == Combine(f0, old(g[..]), -g0, f[..], Fq)
  {
    for i := 0 to g.Length
      invariant forall k | i <= k < g.Length :: g[k] == old(g[k])
      invariant forall k | 0 <= k < i :: g[k] == Centred(f0 * old(g[k]) + -g0 * f[k], Fq)
    {
      CentredAt(f[..], i, Fq);
      CentredAt(old(g[..]), i, Fq);
      ProductRange(Q12, Q12, f0, g[i]);
      ProductRange(Q12, Q12, g0, f[i]);
      assert -g0 * f[i] == -(g0 * f[i]);
      g[i] := FqFreeze(f0 * g[i] - g0 * f[i]);
    }
  }

  method DivStepInPlace(f: array<int>, g: array<int>, v: array<int>, r: array<int>, delta: int)
    returns (delta': int)
    requires Distinct4(f, g, v, r)
    requires f.Length == g.Length == v.Length == r.Length >= 3
    requires Shape(Recip(f[..], g[..], v[..], r[..], delta), f.Length - 1, Fq)
    requires -0x8000 < delta < 0x7fff
    modifies f, g, v, r
    ensures Recip(f[..], g[..], v[..], r[..], delta')
         == DivStep(Recip(old(f[..]), old(g[..]), old(v[..]), old(r[..]), delta), Fq)
  {
    hide Combine, ShiftUp, ShiftDown, AllCentred;
    ghost var s := Recip(f[..], g[..], v[..], r[..], delta);
    assert s.f[0] == f[0] && s.g[0] == g[0];
    CentredAt(s.f, 0, Fq);
    CentredAt(s.g, 0, Fq);
    ShiftUpInPlace(v);
    ShiftUpCentred(s.v);
    var swap;
    swap, delta' := NextDelta(delta, g[0]);
    assert (swap != 0) == Swaps(s);
    SwapUnderMask(swap, f, g, v, r);
    var f0, g0 := f[0], g[0];
    assert f[..][0] == f0 && g[..][0] == g0;
    CombineInPlace(f0, g, g0, f);
    CombineInPlace(f0, r, g0, v);
    ShiftDownInPlace(g);
  }

  lemma ShiftUpCentred(v: Vec)
    requires |v| > 0 && AllCentred(v, Fq)
    ensures AllCentred(ShiftUp(v), Fq)
  {
  }

  // ----- the whole run --------------------------------------------------------------------

  // out[i] = Fq_freeze(scale * v[p - 1 - i])
  method WriteOutput(scale: int, v: array<int>, p: nat) returns (out: Vec)
    requires v.Length == p + 1 && IsCentred(scale, Fq) && AllCentred(v[..], Fq)
    ensures out == CentredVec(Scale(scale, Reversed(v[..], p)), Fq)
  {
    out := [];
    for i := 0 to p
      invariant |out| == i && forall k | 0 <= k < i :: out[k] == Centred(scale * v[p - 1 - k], Fq)
    {
      CentredAt(v[..], p - 1 - i, Fq);
      ProductRange(Q12, Q12, scale, v[p - 1 - i]);
      var c := FqFreeze(scale * v[p - 1 - i]);
      out := out + [c];
    }
  }

  // Division by the constant that f has become.
  lemma ScaledCofactor(rv: Vec, a: Vec, c: int, scale: int, out: Vec)
    requires |rv| == |a| == |out| >= 2 && out == CentredVec(Scale(scale, rv), Fq)
    requires CongVec(Act(rv, a), Scale(c, Origin(Third, |a|)), Fq) && Cong(c * scale, 1, Fq)
    ensures CongVec(Scale(3, Act(out, a)), One(|a|), Fq)
  {
    hide *;
    var p, o := |a|, One(|a|);
    OriginMeans(p);
    // out * a = scale * rv * a
    CentredVecCong(Scale(scale, rv), Fq);
    CongVecRefl(a, Fq);
    CongVecAct(out, Scale(scale, rv), a, a, Fq);
    ActScaleLeft(scale, rv, a);
    // = scale * c / 3
    CongRefl(scale, Fq);
    CongVecScale(scale, scale, Act(rv, a), Scale(c, Scale(Third, o)), Fq);
    CongVecTrans(Act(out, a), Scale(scale, Act(rv, a)), Scale(scale, Scale(c, Scale(Third, o))), Fq);
    CongRefl(3, Fq);
    CongVecScale(3, 3, Act(out, a), Scale(scale, Scale(c, Scale(Third, o))), Fq);
    // three times that is 1
    ScaleScale(c, Third, o);
    ScaleScale(scale, c * Third, o);
    ScaleScale(3, scale * (c * Third), o);
    Cancels(c, scale);
    CongVecRefl(o, Fq);
    CongVecScale(3 * (scale * (c * Third)), 1, o, o, Fq);
    ScaleOne(o);
    CongVecTrans(Scale(3, Act(out, a)), Scale(3 * (scale * (c * Third)), o), o, Fq);
  }

  lemma OriginMeans(p: nat)
    requires p >= 2
    ensures Origin(Third, p) == Scale(Third, One(p))
  {
  }

  lemma Cancels(c: int, scale: int)
    requires Cong(c * scale, 1, Fq)
    ensures Cong(3 * (scale * (c * Third)), 1, Fq)
  {
    hide Cong;
    assert 3 * (scale * (c * Third)) == (c * scale) * (3 * Third);
    CongFromQuotient(3 * Third, 1, -1, Fq);
    CongMul(c * scale, 1, 3 * Third, 1, Fq);
  }

  // Returns 0 with out the reciprocal of 3a if there is one, else -1.
  method RqRecip3(a: Vec) returns (out: Vec, status: int)
    requires 2 <= |a| < 0x2000 && Ternary(a)
    ensures status == if HasInverse(a, Fq) then 0 else -1
    ensures |out| == |a| && AllCentred(out, Fq)
    ensures status == 0 ==> CongVec(Scale(3, Act(out, a)), One(|a|), Fq)
  {
    hide Cong, CongVec, Act, Start, DivStep, Run, Scale, Reversed, Sound, Shape, X, One, Origin, AllCentred, Ternary, CentredVec, HasInverse;
    var p := |a|;
    var f, g, v, r := new int[p + 1], new int[p + 1], new int[p + 1], new int[p + 1];
    var third := FqRecip(3);
    ThirdIs(third);
    InitRecip(a, third, f, g, v, r);
    var delta := 1;
    SmallIsCentred(a);
    StartSound(a, Third, Fq);
    SoundShape(Start(a, Third), Origin(Third, p), X(a), 0, Fq);
    RunStart(Start(a, Third), Fq);
    StartDelta(a, Third);
    for loop := 0 to 2 * p - 1
      invariant Recip(f[..], g[..], v[..], r[..], delta) == Run(Start(a, Third), loop, Fq)
    {
      RunInvariant(Start(a, Third), p, loop, Fq);
      RunStep(Start(a, Third), loop, Fq);
      delta := DivStepInPlace(f, g, v, r, delta);
    }
    ghost var s := Run(Start(a, Third), 2 * p - 1, Fq);
    RunInvariant(Start(a, Third), p, 2 * p - 1, Fq);
    ShapeMeans(s, p);
    var f0 := f[0];
    assert f0 == s.f[0];
    var scale := FqRecip(f0);
    out := WriteOutput(scale, v, p);
    CentredVecCentred(Scale(scale, Reversed(s.v, p)));
    status := Int16NonzeroMask(delta);
    if delta == 0 {
      CofactorSound(a, Third, Fq);
      ScaledCofactor(Reversed(s.v, p), a, f0, scale, out);
      ThriceInverts(out, a);
    } else if HasInverse(a, Fq) {
      InvertibleSucceeds(a, Third, Fq);
    }
  }

  lemma ThriceInverts(out: Vec, a: Vec)
    requires |out| == |a| >= 2 && CongVec(Scale(3, Act(out, a)), One(|a|), Fq)
    ensures HasInverse(a, Fq)
  {
    hide *;
    ActScaleLeft(3, out, a);
    InverseWitness(Scale(3, out), a, Fq);
  }

  lemma SmallIsCentred(a: Vec)
    requires Ternary(a)
    ensures AllCentred(a, Fq)
  {
  }

  lemma ShapeMeans(s: Recip, p: nat)
    requires Shape(s, p, Fq)
    ensures s.f[0] != 0 && IsCentred(s.f[0], Fq) && AllCentred(s.v, Fq) && |s.v| == p + 1
  {
  }

  lemma CentredVecCentred(u: Vec)
    ensures AllCentred(CentredVec(u, Fq), Fq)
  {
  }
}
