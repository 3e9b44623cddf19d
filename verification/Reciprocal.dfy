/**
 The constant-time reciprocals (vendor-sntrup761/sntrup761.c:466-525, 572-635): 2p-1
 division steps on the reversed input and the reversed modulus, over Z/3 and over Z/q.
 Whenever the run ends with delta 0, its cofactor is the inverse of its input up to a
 constant. The code over Z/3 is here; the code over Z/q is in module RqReciprocal.
 */
module Reciprocal {
  import opened ModArith
  import opened PolyRing
  import opened DivMod
  import opened Masks
  import opened TwosComplement
  import opened Fermat

  // f and g are reversed polynomials; v and r are the cofactors.
  datatype Recip = Recip(f: Vec, g: Vec, v: Vec, r: Vec, delta: int)

  ghost predicate Ternary(a: Vec) { forall i | 0 <= i < |a| :: -1 <= a[i] <= 1 }

  ghost predicate AllCentred(a: Vec, F: Field) { forall i | 0 <= i < |a| :: IsCentred(a[i], F) }

  ghost predicate Shape(s: Recip, p: nat, F: Field) {
    p >= 2 && |s.f| == |s.g| == |s.v| == |s.r| == p + 1
    && AllCentred(s.f, F) && AllCentred(s.g, F) && AllCentred(s.v, F) && AllCentred(s.r, F)
    && s.f[0] != 0
  }

  // x*a + y*b, coefficients frozen.
  function Combine(x: int, a: Vec, y: int, b: Vec, F: Field): (c: Vec)
    requires |a| == |b|
    ensures |c| == |a| && forall i | 0 <= i < |c| :: IsCentred(c[i], F)
  {
    seq(|a|, i requires 0 <= i < |a| => Centred(x * a[i] + y * b[i], F))
  }

  // The factors of a step whose constant terms are f0 and g0: g becomes x*g + y*f.
  function Keep(f0: int, F: Field): int { if F == F3 then 1 else f0 }

  function Cancel(f0: int, g0: int, F: Field): int { if F == F3 then -g0 * f0 else -g0 }

  function ShiftUp(v: Vec): (w: Vec)
    requires |v| > 0
    ensures |w| == |v|
  {
    [0] + v[..|v| - 1]
  }

  function ShiftDown(g: Vec): (w: Vec)
    requires |g| > 0
    ensures |w| == |g|
  {
    g[1..] + [0]
  }

  predicate Swaps(s: Recip)
    requires |s.g| > 0
  {
    s.delta > 0 && s.g[0] != 0
  }

  // One iteration of the loop.
  function DivStep(s: Recip, F: Field): (t: Recip)
    requires |s.f| == |s.g| == |s.v| == |s.r| > 0
    ensures |t.f| == |t.g| == |t.v| == |t.r| == |s.f|
  {
    var v := ShiftUp(s.v);
    if Swaps(s) then
      var x, y := Keep(s.g[0], F), Cancel(s.g[0], s.f[0], F);
      Recip(s.g, ShiftDown(Combine(x, s.f, y, s.g, F)), s.r, Combine(x, v, y, s.r, F), 1 - s.delta)
    else
      var x, y := Keep(s.f[0], F), Cancel(s.f[0], s.g[0], F);
      Recip(s.f, ShiftDown(Combine(x, s.g, y, s.f, F)), v, Combine(x, s.r, y, v, F), s.delta + 1)
  }

  function Run(s: Recip, n: nat, F: Field): (t: Recip)
    requires |s.f| == |s.g| == |s.v| == |s.r| > 0
    ensures |t.f| == |t.g| == |t.v| == |t.r| == |s.f|
  {
    if n == 0 then s else DivStep(Run(s, n - 1, F), F)
  }

  // 1 - x^(p-1) - x^p: the modulus x^p - x - 1 reversed.
  function ReversedModulus(p: nat): (f: Vec)
    requires p >= 2
    ensures |f| == p + 1
  {
    seq(p + 1, i => if i == 0 then 1 else if i == p - 1 || i == p then -1 else 0)
  }

  // c: what r starts with.
  function Start(a: Vec, c: int): (s: Recip)
    requires |a| >= 2
    ensures |s.f| == |s.g| == |s.v| == |s.r| == |a| + 1
  {
    var p := |a|;
    Recip(ReversedModulus(p),
          seq(p + 1, i => if 0 <= i < p then a[p - 1 - i] else 0),
          Zero(p + 1), Scale(c, One(p + 1)), 1)
  }

  // ----- evaluation at 1/x --------------------------------------------------------

  // x^p times the reversed polynomial a evaluated at 1/x, as an element of the ring.
  function Rev(a: Vec): (b: Vec)
    ensures |b| == |a|
  {
    seq(|a|, i requires 0 <= i < |a| => a[|a| - 1 - i])
  }

  function Eval(a: Vec, u: Vec): (w: Vec)
    requires |u| >= 2
    ensures |w| == |u|
  {
    Act(Rev(a), u)
  }

  lemma XCancel(u: Vec, v: Vec, F: Field)
    requires |u| == |v| >= 2 && CongVec(X(u), X(v), F)
    ensures CongVec(u, v, F)
  {
    hide Cong;
    var n := |u|;
    assert Cong(u[n - 1], v[n - 1], F) by { assert X(u)[0] == u[n - 1] && X(v)[0] == v[n - 1]; }
    forall i | 0 <= i < n ensures Cong(u[i], v[i], F) {
      if i == 0 {
        assert X(u)[1] == u[0] + u[n - 1] && X(v)[1] == v[0] + v[n - 1];
        CongCancel(u[0], v[0], u[n - 1], v[n - 1], F);
      } else if i < n - 1 {
        assert X(u)[i + 1] == u[i] && X(v)[i + 1] == v[i];
      }
    }
  }

  lemma CongCancel(a: int, b: int, c: int, d: int, F: Field)
    requires Cong(a + c, b + d, F) && Cong(c, d, F)
    ensures Cong(a, b, F)
  {
  }

  lemma {:induction false} XPowCancel(u: Vec, v: Vec, k: nat, F: Field)
    requires |u| == |v| >= 2 && CongVec(XPow(u, k), XPow(v, k), F)
    ensures CongVec(u, v, F)
  {
    if k > 0 {
      XCancel(XPow(u, k - 1), XPow(v, k - 1), F);
      XPowCancel(u, v, k - 1, F);
    }
  }

  lemma ZeroTerm(u: Vec, v: Vec)
    requires |u| == |v|
    ensures Add(u, Scale(0, v)) == u
  {
  }

  lemma AddZero(u: Vec)
    ensures Add(Zero(|u|), u) == u
  {
  }

  // Multiplying by x on the left of the coefficient list.
  lemma {:induction false} ActShift(f: Vec, u: Vec)
    requires |u| >= 2
    ensures Act([0] + f, u) == X(Act(f, u))
  {
    hide X, XPow;
    if f == [] {
      ActZeroTerm(u);
    } else {
      var n := |f| - 1;
      ActShift(f[..n], u);
      assert ([0] + f)[..n + 1] == [0] + f[..n];
      XLinear(Act(f[..n], u), Scale(f[n], XPow(u, n)), 0);
      XLinear(XPow(u, n), XPow(u, n), f[n]);
      XPowNext(u, n);
    }
  }

  lemma XPowNext(u: Vec, n: nat)
    requires |u| >= 2
    ensures XPow(u, n + 1) == X(XPow(u, n))
  {
  }

  lemma XZero(n: nat)
    requires n >= 2
    ensures X(Zero(n)) == Zero(n)
  {
  }

  lemma ActZeroTerm(u: Vec)
    requires |u| >= 2
    ensures Act([0], u) == X(Zero(|u|)) == X(Act([], u))
  {
    hide X, Scale, Add;
    XZero(|u|);
    ActSingle(0, u);
    ZeroTerm(Zero(|u|), u);
  }

  lemma ActSingle(c: int, u: Vec)
    requires |u| >= 2
    ensures Act([c], u) == Add(Zero(|u|), Scale(c, u))
  {
    hide X, Scale, Add;
    assert [c][..0] == [];
  }

  // A zero leading entry, shifted out, divides by 1/x.
  lemma EvalShiftDown(g: Vec, u: Vec)
    requires |u| >= 2 && |g| > 0 && g[0] == 0
    ensures Eval(ShiftDown(g), u) == X(Eval(g, u))
  {
    var n := |g| - 1;
    var h := Rev(g)[..n];
    assert Rev(ShiftDown(g)) == [0] + h;
    ActShift(h, u);
    assert Rev(g)[n] == 0;
    ZeroTerm(Act(h, u), XPow(u, n));
  }

  // Nothing is lost by the shift when the top cell is zero.
  lemma EvalShiftUp(v: Vec, u: Vec)
    requires |u| >= 2 && |v| > 0 && v[|v| - 1] == 0
    ensures X(Eval(ShiftUp(v), u)) == Eval(v, u)
  {
    assert ShiftDown(ShiftUp(v)) == v;
    EvalShiftDown(ShiftUp(v), u);
  }

  lemma EvalCombine(x: int, a: Vec, y: int, b: Vec, u: Vec, F: Field)
    requires |u| >= 2 && |a| == |b|
    ensures CongVec(Eval(Combine(x, a, y, b, F), u), Add(Scale(x, Eval(a, u)), Scale(y, Eval(b, u))), F)
  {
    hide Cong, Centred, Act;
    var c := Rev(Combine(x, a, y, b, F));
    var d := Add(Scale(x, Rev(a)), Scale(y, Rev(b)));
    assert CongVec(c, d, F);
    CongVecRefl(u, F);
    CongVecAct(c, d, u, u, F);
    ActAddLeft(Scale(x, Rev(a)), Scale(y, Rev(b)), u);
    ActScaleLeft(x, Rev(a), u);
    ActScaleLeft(y, Rev(b), u);
  }

  // ----- the congruence ------------------------------------------------------------

  // f and g, evaluated on o, are the cofactors v and r times w, up to a power of x that
  // grows with every step (w is the reversed input evaluated at 1/x).
  ghost predicate Related(o: Vec, a: Vec, extra: nat, b: Vec, w: Vec, n: nat, F: Field)
    requires |w| == |o| >= 2
  {
    CongVec(XPow(Eval(a, o), |w| + extra), XPow(Eval(b, w), n), F)
  }

  ghost predicate Congruence(s: Recip, o: Vec, w: Vec, n: nat, F: Field)
    requires |w| == |o| >= 2
  {
    Related(o, s.f, 1, s.v, w, n, F) && Related(o, s.g, 0, s.r, w, n, F)
  }

  // x^k times an evaluated combination.
  lemma XPowCombine(x: int, a: Vec, y: int, b: Vec, u: Vec, k: nat, F: Field)
    requires |u| >= 2 && |a| == |b|
    ensures CongVec(XPow(Eval(Combine(x, a, y, b, F), u), k),
                    Add(Scale(x, XPow(Eval(a, u), k)), Scale(y, XPow(Eval(b, u), k))), F)
  {
    hide Cong, CongVec, Eval, XPow, Combine;
    EvalCombine(x, a, y, b, u, F);
    var ea, eb := Eval(a, u), Eval(b, u);
    CongVecXPow(Eval(Combine(x, a, y, b, F), u), Add(Scale(x, ea), Scale(y, eb)), k, F);
    XPowLinear(Scale(x, ea), Scale(y, eb), 0, k);
    XPowLinear(ea, ea, x, k);
    XPowLinear(eb, eb, y, k);
  }

  lemma RelatedCombine(o: Vec, x: int, a: Vec, b: Vec, y: int, c: Vec, d: Vec, w: Vec, n: nat, F: Field)
    requires |w| == |o| >= 2 && |a| == |c| && |b| == |d|
    requires Related(o, a, 0, b, w, n, F) && Related(o, c, 0, d, w, n, F)
    ensures Related(o, Combine(x, a, y, c, F), 0, Combine(x, b, y, d, F), w, n, F)
  {
    hide Cong, CongVec, Eval, XPow, Combine;
    var p := |w|;
    var ea, ec, eb, ed := XPow(Eval(a, o), p), XPow(Eval(c, o), p), XPow(Eval(b, w), n), XPow(Eval(d, w), n);
    XPowCombine(x, a, y, c, o, p, F);
    XPowCombine(x, b, y, d, w, n, F);
    CongRefl(x, F);
    CongRefl(y, F);
    CongVecScale(x, x, ea, eb, F);
    CongVecScale(y, y, ec, ed, F);
    CongVecAdd(Scale(x, ea), Scale(x, eb), Scale(y, ec), Scale(y, ed), F);
    var left, right := XPow(Eval(Combine(x, a, y, c, F), o), p), XPow(Eval(Combine(x, b, y, d, F), w), n);
    CongVecTrans(left, Add(Scale(x, ea), Scale(y, ec)), Add(Scale(x, eb), Scale(y, ed)), F);
    CongVecSym(right, Add(Scale(x, eb), Scale(y, ed)), F);
    CongVecTrans(left, Add(Scale(x, eb), Scale(y, ed)), right, F);
  }

  // Before the shift of v there is one power of x more on each side.
  lemma RelatedShiftUp(o: Vec, f: Vec, v: Vec, w: Vec, n: nat, F: Field)
    requires |w| == |o| >= 2 && |v| > 0 && v[|v| - 1] == 0
    requires Related(o, f, 1, v, w, n, F)
    ensures Related(o, f, 0, ShiftUp(v), w, n, F)
  {
    hide Cong, CongVec, Eval;
    EvalShiftUp(v, w);
    var a, b := Eval(f, o), Eval(ShiftUp(v), w);
    XPowAdd(b, 1, n);
    assert XPow(b, 1) == X(XPow(b, 0));
    XCancel(XPow(a, |w|), XPow(b, n), F);
  }

  lemma RelatedNext(o: Vec, f: Vec, v: Vec, w: Vec, n: nat, F: Field)
    requires |w| == |o| >= 2 && Related(o, f, 0, v, w, n, F)
    ensures Related(o, f, 1, v, w, n + 1, F)
  {
    hide Cong, CongVec, Eval;
    CongVecX(XPow(Eval(f, o), |w|), XPow(Eval(v, w), n), F);
  }

  lemma RelatedShiftDown(o: Vec, g: Vec, r: Vec, w: Vec, n: nat, F: Field)
    requires |w| == |o| >= 2 && |g| > 0 && g[0] == 0 && Related(o, g, 0, r, w, n, F)
    ensures Related(o, ShiftDown(g), 0, r, w, n + 1, F)
  {
    hide Cong, CongVec, Eval;
    EvalShiftDown(g, o);
    XPowAdd(Eval(g, o), 1, |w|);
    assert XPow(Eval(g, o), 1) == X(XPow(Eval(g, o), 0));
    CongVecX(XPow(Eval(g, o), |w|), XPow(Eval(r, w), n), F);
  }

  // The factors eliminate the constant term, whichever way round the pair is.
  lemma ConstantTermVanishes(a: Vec, b: Vec, F: Field)
    requires |a| == |b| > 0 && AllCentred(a, F) && AllCentred(b, F) && b[0] != 0
    ensures Combine(Keep(b[0], F), a, Cancel(b[0], a[0], F), b, F)[0] == 0
  {
    var a0, b0 := a[0], b[0];
    if F == F3 {
      assert a0 == 0 || a0 == 1 || a0 == -1;
      assert b0 == 1 || b0 == -1;
      assert 1 * a0 + (-a0 * b0) * b0 == 0;
    } else {
      assert b0 * a0 + -a0 * b0 == 0;
    }
  }

  lemma CongruenceStep(s: Recip, o: Vec, w: Vec, n: nat, F: Field)
    requires |w| == |o| >= 2 && Shape(s, |w|, F) && s.v[|w|] == 0
    requires Congruence(s, o, w, n, F)
    ensures Congruence(DivStep(s, F), o, w, n + 1, F)
  {
    hide Related, Combine, AllCentred, Keep, Cancel;
    var v := ShiftUp(s.v);
    RelatedShiftUp(o, s.f, s.v, w, n, F);
    if Swaps(s) {
      var x, y := Keep(s.g[0], F), Cancel(s.g[0], s.f[0], F);
      ConstantTermVanishes(s.f, s.g, F);
      RelatedCombine(o, x, s.f, v, y, s.g, s.r, w, n, F);
      RelatedShiftDown(o, Combine(x, s.f, y, s.g, F), Combine(x, v, y, s.r, F), w, n, F);
      RelatedNext(o, s.g, s.r, w, n, F);
    } else {
      var x, y := Keep(s.f[0], F), Cancel(s.f[0], s.g[0], F);
      ConstantTermVanishes(s.g, s.f, F);
      RelatedCombine(o, x, s.g, s.r, y, s.f, v, w, n, F);
      RelatedShiftDown(o, Combine(x, s.g, y, s.f, F), Combine(x, s.r, y, v, F), w, n, F);
      RelatedNext(o, s.f, v, w, n, F);
    }
  }

  // ----- degrees ---------------------------------------------------------------------

  // Every nonzero coefficient of a has index at most half of bound.
  ghost predicate DegreeAtMost(a: Vec, bound: int) {
    forall i | 0 <= i < |a| && a[i] != 0 :: 2 * i <= bound
  }

  ghost predicate Degrees(s: Recip, p: nat, n: nat) {
    && DegreeAtMost(s.f, 2 * p - 1 - n + s.delta)
    && DegreeAtMost(s.g, 2 * p - 1 - n - s.delta)
    && DegreeAtMost(s.v, n + s.delta - 1)
    && DegreeAtMost(s.r, n - s.delta + 1)
  }

  lemma DegreeCombine(x: int, a: Vec, y: int, b: Vec, bound: int, F: Field)
    requires |a| == |b|
    requires DegreeAtMost(a, bound) && (y == 0 || DegreeAtMost(b, bound))
    ensures DegreeAtMost(Combine(x, a, y, b, F), bound)
  {
    forall i | 0 <= i < |a| && Combine(x, a, y, b, F)[i] != 0
      ensures 2 * i <= bound
    {
      ZeroEntry(x, a[i], y, b[i], F);
    }
  }

  lemma ZeroEntry(x: int, a: int, y: int, b: int, F: Field)
    ensures a == 0 && (y == 0 || b == 0) ==> Centred(x * a + y * b, F) == 0
  {
    if a == 0 && (y == 0 || b == 0) { assert x * a == 0 && y * b == 0; }
  }

  lemma DegreeShiftDown(g: Vec, bound: int)
    requires |g| > 0 && DegreeAtMost(g, bound)
    ensures DegreeAtMost(ShiftDown(g), bound - 2)
  {
    forall i | 0 <= i < |g| && ShiftDown(g)[i] != 0
      ensures 2 * i <= bound - 2
    {
      assert g[i + 1] != 0;
    }
  }

  lemma DegreeShiftUp(v: Vec, bound: int)
    requires |v| > 0 && DegreeAtMost(v, bound)
    ensures DegreeAtMost(ShiftUp(v), bound + 2)
  {
    forall i | 0 <= i < |v| && ShiftUp(v)[i] != 0
      ensures 2 * i <= bound + 2
    {
      assert v[i - 1] != 0;
    }
  }

  lemma DegreeWeaken(a: Vec, bound: int, larger: int)
    requires DegreeAtMost(a, bound) && bound <= larger
    ensures DegreeAtMost(a, larger)
  {
  }

  lemma DegreesStep(s: Recip, p: nat, n: nat, F: Field)
    requires Shape(s, p, F) && Degrees(s, p, n)
    ensures Degrees(DivStep(s, F), p, n + 1)
  {
    hide DegreeAtMost, Combine, AllCentred, Keep;
    var v := ShiftUp(s.v);
    var b := 2 * p - 1 - n;
    DegreeShiftUp(s.v, n + s.delta - 1);
    if Swaps(s) {
      var x, y := Keep(s.g[0], F), Cancel(s.g[0], s.f[0], F);
      DegreeWeaken(s.g, b - s.delta, b + s.delta);
      DegreeCombine(x, s.f, y, s.g, b + s.delta, F);
      DegreeShiftDown(Combine(x, s.f, y, s.g, F), b + s.delta);
      DegreeWeaken(s.r, n - s.delta + 1, n + s.delta + 1);
      DegreeCombine(x, v, y, s.r, n + s.delta + 1, F);
    } else {
      var x, y := Keep(s.f[0], F), Cancel(s.f[0], s.g[0], F);
      if s.delta <= 0 {
        DegreeWeaken(s.f, b + s.delta, b - s.delta);
        DegreeWeaken(v, n + s.delta + 1, n - s.delta + 1);
      } else {
        assert s.g[0] == 0 && y == 0;
      }
      DegreeCombine(x, s.g, y, s.f, b - s.delta, F);
      DegreeShiftDown(Combine(x, s.g, y, s.f, F), b - s.delta);
      DegreeCombine(x, s.r, y, v, n - s.delta + 1, F);
    }
  }

  // ----- a cofactor that overflows ----------------------------------------------------

  // With `left` steps to go, delta can no longer end at zero.
  ghost predicate Doomed(delta: int, left: int) { delta >= left + 2 || delta + left < 0 }

  lemma DoomedStep(s: Recip, left: int, F: Field)
    requires |s.f| == |s.g| == |s.v| == |s.r| > 0 && left >= 1
    requires Doomed(s.delta, left)
    ensures Doomed(DivStep(s, F).delta, left - 1)
  {
  }

  // A shift that would lose the top cell of v happens only in a doomed run.
  lemma OverflowDooms(s: Recip, p: nat, n: nat, F: Field)
    requires Shape(s, p, F) && Degrees(s, p, n) && s.v[p] != 0
    ensures Doomed(s.delta, 2 * p - 1 - n)
  {
  }

  lemma ShapeStep(s: Recip, p: nat, F: Field)
    requires Shape(s, p, F)
    ensures Shape(DivStep(s, F), p, F)
  {
    hide Combine;
  }

  // ----- the whole run ----------------------------------------------------------------

  ghost predicate Sound(s: Recip, o: Vec, w: Vec, n: nat, F: Field)
    requires |w| == |o| >= 2
  {
    Shape(s, |w|, F)
    && (Doomed(s.delta, 2 * |w| - 1 - n) || (Degrees(s, |w|, n) && Congruence(s, o, w, n, F)))
  }

  lemma SoundStep(s: Recip, o: Vec, w: Vec, n: nat, F: Field)
    requires |w| == |o| >= 2 && n < 2 * |w| - 1 && Sound(s, o, w, n, F)
    ensures Sound(DivStep(s, F), o, w, n + 1, F)
  {
    hide Degrees, Congruence, Combine, AllCentred;
    var left := 2 * |w| - 1 - n;
    ShapeStep(s, |w|, F);
    if Doomed(s.delta, left) {
      DoomedStep(s, left, F);
    } else {
      if s.v[|w|] != 0 {
        OverflowDooms(s, |w|, n, F);
      }
      DegreesStep(s, |w|, n, F);
      CongruenceStep(s, o, w, n, F);
    }
  }

  lemma {:induction false} RunSound(s: Recip, o: Vec, w: Vec, n: nat, F: Field)
    requires |w| == |o| >= 2 && n <= 2 * |w| - 1
    requires |s.f| == |s.g| == |s.v| == |s.r| > 0
    requires Sound(s, o, w, 0, F)
    ensures Sound(Run(s, n, F), o, w, n, F)
  {
    hide Sound, DivStep;
    if n > 0 {
      RunSound(s, o, w, n - 1, F);
      SoundStep(Run(s, n - 1, F), o, w, n - 1, F);
    }
  }

  lemma {:induction false} EvalZero(n: nat, u: Vec)
    requires |u| >= 2
    ensures Act(Zero(n), u) == Zero(|u|)
  {
    assert Zero(n) == Scale(0, Zero(n));
    ActScaleLeft(0, Zero(n), u);
    assert Scale(0, Act(Zero(n), u)) == Zero(|u|);
  }

  // x^p - x - 1 acts as zero.
  lemma ModulusVanishes(p: nat)
    requires p >= 2
    ensures Eval(ReversedModulus(p), One(p)) == Zero(p)
  {
    var m := Rev(ReversedModulus(p));
    var lo := m[..p];
    assert m[p] == 1;
    assert lo == seq(p, i => if i == 0 || i == 1 then -1 else 0);
    ActOnOne(lo, p);
    assert lo + Zero(0) == lo;
    XPowAt(One(p), p - 1);
    var e := XPow(One(p), p - 1);
    forall t | 0 <= t < p
      ensures Add(lo, Scale(1, X(e)))[t] == 0
    {
      assert e[p - 1] == Folded(One(p), p - 1, p - 1) == 1;
      assert e[0] == Folded(One(p), p - 1, 0) == if p == 1 then 1 else 0;
      if t > 1 {
        assert e[t - 1] == Folded(One(p), p - 1, t - 1) == 0;
      }
    }
    assert Add(lo, Scale(1, X(e))) == Zero(p);
  }

  // What f and g are evaluated on at the start.
  function Origin(c: int, p: nat): (o: Vec)
    requires p >= 2
    ensures |o| == p
  {
    Scale(c, One(p))
  }

  lemma EvalOrigin(f: Vec, c: int, p: nat)
    requires p >= 2
    ensures Eval(f, Origin(c, p)) == Scale(c, Eval(f, One(p)))
  {
    ActLinearRight(Rev(f), One(p), One(p), c);
  }

  lemma StartF(c: int, p: nat, w: Vec, F: Field)
    requires p >= 2 && |w| == p
    ensures Related(Origin(c, p), ReversedModulus(p), 1, Zero(p + 1), w, 0, F)
  {
    hide Cong, ReversedModulus, Act;
    var o := One(p);
    ModulusVanishes(p);
    EvalOrigin(ReversedModulus(p), c, p);
    assert Scale(c, Zero(p)) == Zero(p);
    assert Rev(Zero(p + 1)) == Zero(p + 1);
    EvalZero(p + 1, w);
    assert Zero(p) == Scale(0, o);
    XPowLinear(o, o, 0, p + 1);
    assert Scale(0, XPow(o, p + 1)) == Zero(p);
    CongVecRefl(Zero(p), F);
  }

  // A single coefficient at the end of the list is a multiple of a power of x.
  lemma ActLast(n: nat, c: int, u: Vec)
    requires |u| >= 2
    ensures Act(Zero(n) + [c], u) == Scale(c, XPow(u, n))
  {
    hide XPow, Add, Scale, Zero;
    EvalZero(n, u);
    assert (Zero(n) + [c])[..n] == Zero(n);
    AddZero(Scale(c, XPow(u, n)));
  }

  lemma StartG(a: Vec, c: int, F: Field)
    requires |a| >= 2
    ensures Related(Origin(c, |a|), Start(a, c).g, 0, Scale(c, One(|a| + 1)), X(a), 0, F)
  {
    hide Cong, Act, XPow, X;
    var p := |a|;
    var g, w := Start(a, c).g, X(a);
    // g evaluates to c * x * a, and r to c * x^p
    assert Rev(g) == [0] + a;
    ActShift(a, One(p));
    MulOne(a);
    EvalOrigin(g, c, p);
    XPowLinear(w, w, c, p);
    assert Rev(Scale(c, One(p + 1))) == Zero(p) + [c];
    ActLast(p, c, w);
    XPowZero(w, c, p);
    CongVecRefl(Scale(c, XPow(w, p)), F);
  }

  lemma XPowZero(w: Vec, c: int, p: nat)
    requires |w| >= 2
    ensures XPow(Scale(c, XPow(w, p)), 0) == Scale(c, XPow(w, p))
  {
  }

  lemma StartSound(a: Vec, c: int, F: Field)
    requires |a| >= 2 && AllCentred(a, F) && IsCentred(c, F)
    ensures Sound(Start(a, c), Origin(c, |a|), X(a), 0, F)
  {
    hide Related;
    StartF(c, |a|, X(a), F);
    StartG(a, c, F);
    assert Shape(Start(a, c), |a|, F);
    assert Degrees(Start(a, c), |a|, 0);
  }

  function Reversed(v: Vec, p: nat): (w: Vec)
    requires |v| == p + 1
    ensures |w| == p
  {
    seq(p, i requires 0 <= i < p => v[p - 1 - i])
  }

  lemma TwoSteps(b: Vec, k: nat)
    requires |b| >= 2
    ensures XPow(X(X(b)), k) == XPow(b, k + 2)
  {
    assert XPow(b, 2) == X(XPow(b, 1)) && XPow(b, 1) == X(XPow(b, 0));
    XPowAdd(b, 2, k);
  }

  // With delta = 0 the degree bounds leave f constant.
  lemma FinalF(f: Vec, o: Vec, p: nat)
    requires |o| == p >= 2 && |f| == p + 1 && DegreeAtMost(f, 0)
    ensures XPow(Eval(f, o), p + 1) == XPow(Scale(f[0], o), 2 * p + 1)
  {
    hide *;
    RevConstant(f, p);
    EvalMeans(f, o);
    ActLast(p, f[0], o);
    var e := XPow(o, p);
    XPowLinear(e, e, f[0], p + 1);
    XPowAdd(o, p, p + 1);
    XPowLinear(o, o, f[0], 2 * p + 1);
  }

  lemma RevConstant(f: Vec, p: nat)
    requires |f| == p + 1 && DegreeAtMost(f, 0)
    ensures Rev(f) == Zero(p) + [f[0]]
  {
  }

  lemma RevBelowTop(v: Vec, p: nat)
    requires |v| == p + 1 && v[p] == 0
    ensures Rev(v) == [0] + Reversed(v, p)
  {
  }

  lemma ActX(f: Vec, u: Vec)
    requires |u| >= 2
    ensures Act(f, X(u)) == X(Act(f, u))
  {
    ActXPow(f, u, 1);
    assert XPow(u, 1) == X(XPow(u, 0));
    assert XPow(Act(f, u), 1) == X(XPow(Act(f, u), 0));
  }

  // ... and v below its array's last cell.
  lemma FinalV(v: Vec, a: Vec, p: nat)
    requires p == |a| >= 2 && |v| == p + 1 && v[p] == 0
    ensures XPow(Eval(v, X(a)), 2 * p - 1) == XPow(Act(Reversed(v, p), a), 2 * p + 1)
  {
    hide *;
    RevBelowTop(v, p);
    var rv := Reversed(v, p);
    ActShift(rv, X(a));
    ActX(rv, a);
    TwoSteps(Act(rv, a), 2 * p - 1);
    EvalMeans(v, X(a));
  }

  lemma EvalMeans(v: Vec, u: Vec)
    requires |u| >= 2
    ensures Eval(v, u) == Act(Rev(v), u)
  {
  }

  // A run that ends with delta = 0 was never doomed, so its bounds hold.
  lemma FinalBounds(s: Recip, o: Vec, w: Vec, p: nat, F: Field)
    requires p == |w| == |o| >= 2 && Sound(s, o, w, 2 * p - 1, F) && s.delta == 0
    ensures |s.f| == |s.v| == p + 1
    ensures DegreeAtMost(s.f, 0) && s.v[p] == 0 && s.f[0] != 0 && AllCentred(s.f, F) && AllCentred(s.v, F)
    ensures Related(o, s.f, 1, s.v, w, 2 * p - 1, F)
  {
    hide Related;
  }

  lemma RelatedMeans(o: Vec, a: Vec, extra: nat, b: Vec, w: Vec, n: nat, F: Field)
    requires |w| == |o| >= 2 && Related(o, a, extra, b, w, n, F)
    ensures CongVec(XPow(Eval(a, o), |w| + extra), XPow(Eval(b, w), n), F)
  {
  }

  lemma FinalEquation(s: Recip, o: Vec, a: Vec, p: nat, F: Field)
    requires p == |a| == |o| >= 2 && |s.f| == |s.v| == p + 1
    requires DegreeAtMost(s.f, 0) && s.v[p] == 0
    requires Related(o, s.f, 1, s.v, X(a), 2 * p - 1, F)
    ensures CongVec(Act(Reversed(s.v, p), a), Scale(s.f[0], o), F)
  {
    hide *;
    var rv := Reversed(s.v, p);
    FinalF(s.f, o, p);
    FinalV(s.v, a, p);
    RelatedMeans(o, s.f, 1, s.v, X(a), 2 * p - 1, F);
    XPowCancel(Scale(s.f[0], o), Act(rv, a), 2 * p + 1, F);
    CongVecSym(Scale(s.f[0], o), Act(rv, a), F);
  }

  // A run that ends with delta 0: its cofactor is the inverse of a, up to the constant that
  // f has become and the constant that r started with.
  lemma CofactorSound(a: Vec, c: int, F: Field)
    requires |a| >= 2 && AllCentred(a, F) && IsCentred(c, F)
    requires Run(Start(a, c), 2 * |a| - 1, F).delta == 0
    ensures var s := Run(Start(a, c), 2 * |a| - 1, F);
            && s.f[0] != 0 && IsCentred(s.f[0], F) && AllCentred(s.v, F)
            && CongVec(Act(Reversed(s.v, |a|), a), Scale(s.f[0], Origin(c, |a|)), F)
  {
    hide *;
    var p := |a|;
    StartSound(a, c, F);
    RunSound(Start(a, c), Origin(c, p), X(a), 2 * p - 1, F);
    var s := Run(Start(a, c), 2 * p - 1, F);
    FinalBounds(s, Origin(c, p), X(a), p, F);
    FinalEquation(s, Origin(c, p), a, p, F);
    assert IsCentred(s.f[0], F) by { CentredAt(s.f, 0, F); }
  }

  lemma CentredAt(a: Vec, i: nat, F: Field)
    requires AllCentred(a, F) && i < |a|
    ensures IsCentred(a[i], F)
  {
  }

  // ----- over Z/3 -------------------------------------------------------------------

  // What the code returns.
  function Output(s: Recip, p: nat): (out: Vec)
    requires |s.f| == |s.v| == p + 1 && p >= 1
    ensures |out| == p
  {
    Scale(s.f[0], Reversed(s.v, p))
  }

  lemma SignSquare(c: int)
    requires c == 1 || c == -1
    ensures c * c == 1
  {
  }

  lemma ScaleOne(u: Vec)
    ensures Scale(1, u) == u
  {
  }

  lemma TernaryIsCentred(a: Vec)
    ensures Ternary(a) <==> AllCentred(a, F3)
  {
  }

  // Success means the reciprocal is right: out * a = 1 in R3.
  lemma InverseSound(a: Vec)
    requires |a| >= 2 && Ternary(a)
    requires Run(Start(a, 1), 2 * |a| - 1, F3).delta == 0
    ensures CongVec(Act(Output(Run(Start(a, 1), 2 * |a| - 1, F3), |a|), a), One(|a|), F3)
  {
    hide *;
    var p := |a|;
    TernaryIsCentred(a);
    OneIsCentred();
    CofactorSound(a, 1, F3);
    var s := Run(Start(a, 1), 2 * p - 1, F3);
    var c, rv := s.f[0], Reversed(s.v, p);
    OriginOne(p);
    // multiply by c, whose square is 1
    CongRefl(c, F3);
    CongVecScale(c, c, Act(rv, a), Scale(c, One(p)), F3);
    ActScaleLeft(c, rv, a);
    ScaleScale(c, c, One(p));
    SignOf(c);
    SignSquare(c);
    ScaleOne(One(p));
    OutputMeans(s, p);
  }

  lemma OneIsCentred()
    ensures IsCentred(1, F3)
  {
  }

  lemma OriginOne(p: nat)
    requires p >= 2
    ensures Origin(1, p) == One(p)
  {
  }

  lemma SignOf(c: int)
    requires IsCentred(c, F3) && c != 0
    ensures c == 1 || c == -1
  {
  }

  lemma OutputMeans(s: Recip, p: nat)
    requires |s.f| == |s.v| == p + 1 && p >= 1
    ensures Output(s, p) == Scale(s.f[0], Reversed(s.v, p))
  {
  }

  // ----- a run that fails ---------------------------------------------------------------

  ghost predicate Inverts(u: Vec, a: Vec, F: Field) {
    |u| == |a| >= 2 && CongVec(Act(u, a), One(|a|), F)
  }

  // u * a = 1 for some u.
  ghost predicate HasInverse(a: Vec, F: Field) { exists u :: Inverts(u, a, F) }

  ghost predicate AllZero(g: Vec) { forall i | 0 <= i < |g| :: g[i] == 0 }

  // What holds in every run, an overflow of v included: r never becomes zero, and unless
  // delta has dropped for good, r times the input is g.
  ghost predicate Traced(s: Recip, o: Vec, w: Vec, n: nat, F: Field)
    requires |w| == |o| >= 2
  {
    && Shape(s, |w|, F) && Degrees(s, |w|, n) && s.r[0] != 0
    && (s.delta + 2 * |w| - 1 - n < 0
        || (Related(o, s.g, 0, s.r, w, n, F) && (Related(o, s.f, 1, s.v, w, n, F) || AllZero(s.g))))
  }

  lemma FactorsNonzero(f0: int, g0: int, F: Field)
    ensures f0 != 0 ==> Keep(f0, F) != 0
    ensures f0 != 0 && g0 != 0 && IsCentred(f0, F) && IsCentred(g0, F) ==> Cancel(f0, g0, F) != 0
    ensures IsCentred(f0, F) ==> IsCentred(Keep(f0, F), F)
    ensures IsCentred(f0, F) && IsCentred(g0, F) ==> IsCentred(Cancel(f0, g0, F), F)
    ensures Cancel(f0, 0, F) == 0
  {
    if F == F3 && IsCentred(f0, F) && IsCentred(g0, F) {
      assert f0 == 0 || f0 == 1 || f0 == -1;
    }
  }

  lemma ProductNonzero(a: int, b: int, F: Field)
    requires IsCentred(a, F) && IsCentred(b, F) && a != 0 && b != 0
    ensures Centred(a * b, F) != 0
  {
    match F
    case F3 =>
      SignOf(a);
      SignOf(b);
    case Fq =>
      hide Cong, Centred;
      if Centred(a * b, Fq) == 0 {
        CentredCong(a * b, Fq);
        NoZeroDivisor(a, b);
        NonzeroIsNot(b);
      }
  }

  lemma CentredCong(a: int, F: Field)
    ensures Cong(a, Centred(a, F), F)
  {
    CongSym(Centred(a, F), a, F);
  }

  lemma NoZeroDivisor(a: int, b: int)
    requires IsCentred(a, Fq) && a != 0 && Cong(a * b, 0, Fq)
    ensures Cong(b, 0, Fq)
  {
    hide Cong;
    if a > 0 {
      Euclid(a, b);
    } else {
      assert a * b == (-a) * (-b);
      Euclid(-a, -b);
      NegativeCong(b);
    }
  }

  lemma NegativeCong(b: int)
    requires Cong(-b, 0, Fq)
    ensures Cong(b, 0, Fq)
  {
  }

  lemma NonzeroIsNot(b: int)
    requires IsCentred(b, Fq) && b != 0
    ensures !Cong(b, 0, Fq)
  {
  }

  // The constant term of r is only ever multiplied by a factor of the step.
  lemma RemainderStep(s: Recip, p: nat, F: Field)
    requires Shape(s, p, F) && s.r[0] != 0
    ensures DivStep(s, F).r[0] != 0
  {
    var v := ShiftUp(s.v);
    var f0, g0, r0 := s.f[0], s.g[0], s.r[0];
    FactorsNonzero(f0, g0, F);
    FactorsNonzero(g0, f0, F);
    if Swaps(s) {
      var x, y := Keep(g0, F), Cancel(g0, f0, F);
      ProductNonzero(y, r0, F);
      assert Combine(x, v, y, s.r, F)[0] == Centred(x * 0 + y * r0, F);
    } else {
      var x, y := Keep(f0, F), Cancel(f0, g0, F);
      ProductNonzero(x, r0, F);
      assert Combine(x, s.r, y, v, F)[0] == Centred(x * r0 + y * 0, F);
    }
  }

  lemma CombineNone(x: int, a: Vec, b: Vec, F: Field)
    requires |a| == |b|
    ensures Combine(x, a, 0, b, F) == Combine(x, a, 0, a, F)
  {
    forall i | 0 <= i < |a|
      ensures Combine(x, a, 0, b, F)[i] == Combine(x, a, 0, a, F)[i]
    {
      assert 0 * b[i] == 0 && 0 * a[i] == 0;
    }
  }

  lemma CombineZero(x: int, a: Vec, F: Field)
    requires AllZero(a)
    ensures AllZero(Combine(x, a, 0, a, F))
  {
  }

  // Once g is zero, it stays zero, and only r is scaled.
  lemma ZeroStep(s: Recip, o: Vec, w: Vec, n: nat, F: Field)
    requires |w| == |o| >= 2 && Shape(s, |w|, F) && AllZero(s.g)
    requires Related(o, s.g, 0, s.r, w, n, F)
    ensures var t := DivStep(s, F); AllZero(t.g) && Related(o, t.g, 0, t.r, w, n + 1, F)
  {
    hide Related, Combine, AllCentred, Keep, Cancel;
    var v := ShiftUp(s.v);
    FactorsNonzero(s.f[0], 0, F);
    var x := Keep(s.f[0], F);
    CombineNone(x, s.g, s.f, F);
    CombineNone(x, s.r, v, F);
    CombineZero(x, s.g, F);
    RelatedCombine(o, x, s.g, s.r, 0, s.g, s.r, w, n, F);
    RelatedShiftDown(o, Combine(x, s.g, 0, s.g, F), Combine(x, s.r, 0, s.r, F), w, n, F);
  }

  lemma TracedStep(s: Recip, o: Vec, w: Vec, n: nat, F: Field)
    requires |w| == |o| >= 2 && n < 2 * |w| - 1 && Traced(s, o, w, n, F)
    ensures Traced(DivStep(s, F), o, w, n + 1, F)
  {
    hide Related, Combine, AllCentred;
    var p := |w|;
    ShapeStep(s, p, F);
    DegreesStep(s, p, n, F);
    RemainderStep(s, p, F);
    if s.delta + 2 * p - 1 - n >= 0 {
      if AllZero(s.g) {
        ZeroStep(s, o, w, n, F);
      } else {
        if s.v[p] != 0 { OverflowDooms(s, p, n, F); }
        CongruenceStep(s, o, w, n, F);
      }
    }
  }

  lemma {:induction false} RunTraced(s: Recip, o: Vec, w: Vec, n: nat, F: Field)
    requires |w| == |o| >= 2 && n <= 2 * |w| - 1
    requires |s.f| == |s.g| == |s.v| == |s.r| > 0
    requires Traced(s, o, w, 0, F)
    ensures Traced(Run(s, n, F), o, w, n, F)
  {
    hide Traced, DivStep;
    if n > 0 {
      RunTraced(s, o, w, n - 1, F);
      TracedStep(Run(s, n - 1, F), o, w, n - 1, F);
    }
  }

  lemma StartTraced(a: Vec, c: int, F: Field)
    requires |a| >= 2 && AllCentred(a, F) && IsCentred(c, F) && c != 0
    ensures Traced(Start(a, c), Origin(c, |a|), X(a), 0, F)
  {
    hide Related;
    StartF(c, |a|, X(a), F);
    StartG(a, c, F);
    assert Shape(Start(a, c), |a|, F);
    assert Degrees(Start(a, c), |a|, 0);
  }

  // A run that does not end with delta 0 ends with g = 0, and r below its last cell.
  lemma FailedBounds(s: Recip, o: Vec, w: Vec, p: nat, F: Field)
    requires p == |w| == |o| >= 2 && Traced(s, o, w, 2 * p - 1, F) && s.delta != 0
    ensures |s.g| == |s.r| == p + 1 && s.g == Zero(p + 1)
    ensures s.r[0] != 0 && s.r[p] == 0 && AllCentred(s.r, F)
    ensures Related(o, s.g, 0, s.r, w, 2 * p - 1, F)
  {
    hide Related;
    assert s.delta > 0;
    assert forall i | 0 <= i < |s.g| :: s.g[i] == 0;
  }

  // Then r annihilates the input.
  lemma FailedEquation(r: Vec, o: Vec, a: Vec, p: nat, F: Field)
    requires p == |a| == |o| >= 2 && |r| == p + 1 && r[p] == 0
    requires Related(o, Zero(p + 1), 0, r, X(a), 2 * p - 1, F)
    ensures CongVec(Act(Reversed(r, p), a), Zero(p), F)
  {
    hide *;
    var z := Reversed(r, p);
    RelatedMeans(o, Zero(p + 1), 0, r, X(a), 2 * p - 1, F);
    FinalV(r, a, p);
    EvalMeans(Zero(p + 1), o);
    RevZero(p + 1);
    EvalZero(p + 1, o);
    XPowOfZero(p, p);
    XPowOfZero(p, 2 * p + 1);
    XPowCancel(Zero(p), Act(z, a), 2 * p + 1, F);
    CongVecSym(Zero(p), Act(z, a), F);
  }

  lemma RevZero(n: nat)
    ensures Rev(Zero(n)) == Zero(n)
  {
  }

  lemma {:induction false} XPowOfZero(p: nat, k: nat)
    requires p >= 2
    ensures XPow(Zero(p), k) == Zero(p)
  {
    if k > 0 { XPowOfZero(p, k - 1); }
  }

  // A polynomial with an inverse annihilates nothing but zero.
  lemma InverseCancels(a: Vec, z: Vec, F: Field)
    requires |a| == |z| >= 2 && HasInverse(a, F) && CongVec(Act(z, a), Zero(|a|), F)
    ensures CongVec(z, Zero(|a|), F)
  {
    hide Cong, CongVec, Act, One, Zero;
    var p := |a|;
    var u :| Inverts(u, a, F);
    CongVecRefl(z, F);
    CongVecRefl(u, F);
    CongVecAct(z, z, Act(u, a), One(p), F);
    MulOne(z);
    ActCommute(z, u, a);
    CongVecAct(u, u, Act(z, a), Zero(p), F);
    ActOfZero(u, p);
    CongVecSym(Act(u, Act(z, a)), z, F);
    CongVecTrans(z, Act(u, Act(z, a)), Zero(p), F);
  }

  lemma ActOfZero(u: Vec, p: nat)
    requires p >= 2
    ensures Act(u, Zero(p)) == Zero(p)
  {
    ActLinearRight(u, Zero(p), Zero(p), 0);
    assert Zero(p) == Scale(0, Zero(p));
    assert Scale(0, Act(u, Zero(p))) == Zero(p);
  }

  // A run over an invertible input never fails.
  lemma InvertibleSucceeds(a: Vec, c: int, F: Field)
    requires |a| >= 2 && AllCentred(a, F) && IsCentred(c, F) && c != 0
    requires HasInverse(a, F)
    ensures Run(Start(a, c), 2 * |a| - 1, F).delta == 0
  {
    hide *;
    var p := |a|;
    StartTraced(a, c, F);
    RunTraced(Start(a, c), Origin(c, p), X(a), 2 * p - 1, F);
    var s := Run(Start(a, c), 2 * p - 1, F);
    if s.delta != 0 {
      FailedBounds(s, Origin(c, p), X(a), p, F);
      FailedEquation(s.r, Origin(c, p), a, p, F);
      InverseCancels(a, Reversed(s.r, p), F);
      CentredAt(s.r, 0, F);
      LastEntry(s.r, p, F);
    }
  }

  lemma LastEntry(r: Vec, p: nat, F: Field)
    requires |r| == p + 1 && p >= 1 && CongVec(Reversed(r, p), Zero(p), F) && IsCentred(r[0], F)
    ensures r[0] == 0
  {
    assert Cong(Reversed(r, p)[p - 1], Zero(p)[p - 1], F);
    CentredUnique(r[0], 0, F);
  }

  // Over Z/3 the run ends with delta 0 exactly if the input is invertible.
  lemma SucceedsIffInvertible(a: Vec)
    requires |a| >= 2 && Ternary(a)
    ensures Run(Start(a, 1), 2 * |a| - 1, F3).delta == 0 <==> HasInverse(a, F3)
  {
    hide *;
    TernaryIsCentred(a);
    OneIsCentred();
    var s := Run(Start(a, 1), 2 * |a| - 1, F3);
    if s.delta == 0 {
      InverseSound(a);
      InverseWitness(Output(s, |a|), a, F3);
    }
    if HasInverse(a, F3) { InvertibleSucceeds(a, 1, F3); }
  }

  lemma InverseWitness(u: Vec, a: Vec, F: Field)
    requires |u| == |a| >= 2 && CongVec(Act(u, a), One(|a|), F)
    ensures HasInverse(a, F)
  {
    assert Inverts(u, a, F);
  }

  // ----- the code ----------------------------------------------------------------

  ghost predicate Distinct4(f: array<int>, g: array<int>, v: array<int>, r: array<int>) {
    f != g && f != v && f != r && g != v && g != r && v != r
  }

  // for (i = p; i > 0; --i) v[i] = v[i - 1]; v[0] = 0;
  method ShiftUpInPlace(v: array<int>)
    requires v.Length > 0
    modifies v
    ensures v[..] == ShiftUp(old(v[..]))
  {
    var p := v.Length - 1;
    for i := p downto 0
      invariant forall k | 0 <= k <= i :: v[k] == old(v[k])
      invariant forall k | i < k <= p :: v[k] == old(v[k - 1])
    {
      v[i + 1] := v[i];
    }
    v[0] := 0;
  }

  // The masked exchange of f with g and of v with r.
  method SwapUnderMask(swap: int, f: array<int>, g: array<int>, v: array<int>, r: array<int>)
    requires Distinct4(f, g, v, r) && IsMask(swap)
    requires f.Length == g.Length == v.Length == r.Length
    modifies f, g, v, r
    ensures swap == 0 ==> f[..] == old(f[..]) && g[..] == old(g[..]) && v[..] == old(v[..]) && r[..] == old(r[..])
    ensures swap != 0 ==> f[..] == old(g[..]) && g[..] == old(f[..]) && v[..] == old(r[..]) && r[..] == old(v[..])
  {
    hide Xor, And;
    for i := 0 to f.Length
      invariant forall k | i <= k < f.Length ::
        f[k] == old(f[k]) && g[k] == old(g[k]) && v[k] == old(v[k]) && r[k] == old(r[k])
      invariant forall k | 0 <= k < i ::
        if swap == 0 then f[k] == old(f[k]) && g[k] == old(g[k]) && v[k] == old(v[k]) && r[k] == old(r[k])
        else f[k] == old(g[k]) && g[k] == old(f[k]) && v[k] == old(r[k]) && r[k] == old(v[k])
    {
      SwapMask(swap, f[i], g[i]);
      SwapMask(swap, v[i], r[i]);
      var t := And(swap, Xor(f[i], g[i]));
      f[i], g[i] := Xor(f[i], t), Xor(g[i], t);
      t := And(swap, Xor(v[i], r[i]));
      v[i], r[i] := Xor(v[i], t), Xor(r[i], t);
    }
  }

  // for (i = 0; i < p + 1; ++i) g[i] = F3_freeze(g[i] + sign * f[i]);
  method CombineInPlace(g: array<int>, sign: int, f: array<int>)
    requires f != g && f.Length == g.Length && -1 <= sign <= 1
    requires Ternary(f[..]) && Ternary(g[..])
    modifies g
    ensures g[..] == Combine(1, old(g[..]), sign, f[..], F3)
  {
    for i := 0 to g.Length
      invariant forall k | i <= k < g.Length :: g[k] == old(g[k])
      invariant forall k | 0 <= k < i :: g[k] == Centred(1 * old(g[k]) + sign * f[k], F3)
    {
      assert -1 <= f[..][i] <= 1 && -1 <= old(g[..])[i] <= 1;
      assert -1 <= sign * f[i] <= 1 by {
        assert f[i] == 0 || f[i] == 1 || f[i] == -1;
      }
      g[i] := F3Freeze(g[i] + sign * f[i]);
    }
  }

  // for (i = 0; i < p; ++i) g[i] = g[i + 1]; g[p] = 0;
  method ShiftDownInPlace(g: array<int>)
    requires g.Length > 0
    modifies g
    ensures g[..] == ShiftDown(old(g[..]))
  {
    var p := g.Length - 1;
    for i := 0 to p
      invariant forall k | 0 <= k < i :: g[k] == old(g[k + 1])
      invariant forall k | i <= k <= p :: g[k] == old(g[k])
    {
      g[i] := g[i + 1];
    }
    g[p] := 0;
  }

  // The swap mask and the next delta.
  method NextDelta(delta: int, g0: int) returns (swap: int, delta': int)
    requires -0x8000 < delta < 0x7fff && -0x8000 <= g0 < 0x8000
    ensures IsMask(swap) && (swap != 0 <==> delta > 0 && g0 != 0)
    ensures delta' == if swap != 0 then 1 - delta else delta + 1
  {
    hide Xor, And;
    var negative := Int16NegativeMask(-delta);
    var nonzero := Int16NonzeroMask(g0);
    AndMask(nonzero);
    swap := And(negative, nonzero);
    SelectMask(swap, delta, -delta);
    delta' := Xor(delta, And(swap, Xor(delta, -delta)));
    delta' := delta' + 1;
  }

  method DivStepInPlace(f: array<int>, g: array<int>, v: array<int>, r: array<int>, delta: int)
    returns (delta': int)
    requires Distinct4(f, g, v, r)
    requires f.Length == g.Length == v.Length == r.Length >= 3
    requires Shape(Recip(f[..], g[..], v[..], r[..], delta), f.Length - 1, F3)
    requires -0x8000 < delta < 0x7fff
    modifies f, g, v, r
    ensures Recip(f[..], g[..], v[..], r[..], delta')
         == DivStep(Recip(old(f[..]), old(g[..]), old(v[..]), old(r[..]), delta), F3)
  {
    hide Xor, And;
    ghost var s := Recip(f[..], g[..], v[..], r[..], delta);
    assert s.f[0] == f[0] && s.g[0] == g[0];
    ShiftUpInPlace(v);
    var sign := -g[0] * f[0];
    SignRange(g[0], f[0]);
    var swap;
    swap, delta' := NextDelta(delta, g[0]);
    assert (swap != 0) == Swaps(s);
    assert Ternary(v[..]) && Ternary(f[..]) && Ternary(g[..]) && Ternary(r[..]);
    assert sign == Cancel(s.g[0], s.f[0], F3) == Cancel(s.f[0], s.g[0], F3) by { SignCommutes(s.g[0], s.f[0]); }
    SwapUnderMask(swap, f, g, v, r);
    hide Combine, ShiftUp, ShiftDown;
    CombineInPlace(g, sign, f);
    CombineInPlace(r, sign, v);
    ShiftDownInPlace(g);
  }

  lemma SignCommutes(a: int, b: int)
    ensures -a * b == -b * a
  {
  }

  lemma SignRange(a: int, b: int)
    requires -1 <= a <= 1 && -1 <= b <= 1
    ensures -1 <= -a * b <= 1
  {
    assert a == 0 || a == 1 || a == -1;
  }

  lemma {:induction false} RunInvariant(s: Recip, p: nat, n: nat, F: Field)
    requires |s.f| == |s.g| == |s.v| == |s.r| > 0
    requires Shape(s, p, F) && s.delta == 1
    ensures Shape(Run(s, n, F), p, F)
    ensures -(n as int) <= Run(s, n, F).delta <= n + 1
  {
    hide Shape, Combine;
    if n > 0 {
      RunInvariant(s, p, n - 1, F);
      ShapeStep(Run(s, n - 1, F), p, F);
    }
  }

  method InitRecip(a: Vec, c: int, f: array<int>, g: array<int>, v: array<int>, r: array<int>)
    requires |a| >= 2 && Distinct4(f, g, v, r)
    requires f.Length == g.Length == v.Length == r.Length == |a| + 1
    modifies f, g, v, r
    ensures Recip(f[..], g[..], v[..], r[..], 1) == Start(a, c)
  {
    var p := |a|;
    for i := 0 to p + 1
      invariant forall k | 0 <= k < i :: v[k] == 0
    {
      v[i] := 0;
    }
    for i := 0 to p + 1
      invariant forall k | 0 <= k < i :: r[k] == 0
      invariant forall k | 0 <= k <= p :: v[k] == 0
    {
      r[i] := 0;
    }
    r[0] := c;
    for i := 0 to p
      invariant forall k | 0 <= k < i :: f[k] == 0
      invariant v[..] == Zero(p + 1) && r[..] == Scale(c, One(p + 1))
    {
      f[i] := 0;
    }
    f[0] := 1;
    f[p - 1], f[p] := -1, -1;
    assert f[..] == ReversedModulus(p);
    for i := 0 to p
      invariant forall k | p - i <= k < p :: g[k] == a[p - 1 - k]
      invariant v[..] == Zero(p + 1) && r[..] == Scale(c, One(p + 1)) && f[..] == ReversedModulus(p)
    {
      g[p - 1 - i] := a[i];
    }
    g[p] := 0;
    assert g[..] == Start(a, c).g;
  }

  // out[i] = sign * v[p - 1 - i]
  method WriteOutput(sign: int, v: array<int>, p: nat) returns (out: Vec)
    requires v.Length == p + 1
    ensures out == Scale(sign, Reversed(v[..], p))
  {
    out := [];
    for i := 0 to p
      invariant |out| == i && forall k | 0 <= k < i :: out[k] == sign * v[p - 1 - k]
    {
      out := out + [sign * v[p - 1 - i]];
    }
  }

  // Returns 0 with out the reciprocal of a if there is one, else -1.
  method R3Recip(a: Vec) returns (out: Vec, status: int)
    requires 2 <= |a| < 0x2000 && Ternary(a)
    ensures status == if HasInverse(a, F3) then 0 else -1
    ensures out == Output(Run(Start(a, 1), 2 * |a| - 1, F3), |a|) && Ternary(out)
    ensures status == 0 ==> CongVec(Act(out, a), One(|a|), F3)
  {
    hide CongVec, Act, Start, DivStep, Run, Output, Scale, Reversed, Sound, Shape, X, One, HasInverse;
    var p := |a|;
    var f, g, v, r := new int[p + 1], new int[p + 1], new int[p + 1], new int[p + 1];
    InitRecip(a, 1, f, g, v, r);
    var delta := 1;
    TernaryIsCentred(a);
    OneIsCentred();
    StartSound(a, 1, F3);
    SoundShape(Start(a, 1), Origin(1, p), X(a), 0, F3);
    RunStart(Start(a, 1), F3);
    StartDelta(a, 1);
    for loop := 0 to 2 * p - 1
      invariant Recip(f[..], g[..], v[..], r[..], delta) == Run(Start(a, 1), loop, F3)
    {
      RunInvariant(Start(a, 1), p, loop, F3);
      RunStep(Start(a, 1), loop, F3);
      delta := DivStepInPlace(f, g, v, r, delta);
    }
    ghost var s := Run(Start(a, 1), 2 * p - 1, F3);
    RunInvariant(Start(a, 1), p, 2 * p - 1, F3);
    var sign := f[0];
    assert sign == s.f[0];
    out := WriteOutput(sign, v, p);
    OutputTernary(s, p);
    OutputMeans(s, p);
    status := Int16NonzeroMask(delta);
    SucceedsIffInvertible(a);
    if status == 0 {
      InverseSound(a);
    }
  }

  lemma SoundShape(s: Recip, o: Vec, w: Vec, n: nat, F: Field)
    requires |w| == |o| >= 2 && Sound(s, o, w, n, F)
    ensures Shape(s, |w|, F)
  {
  }

  lemma RunStart(s: Recip, F: Field)
    requires |s.f| == |s.g| == |s.v| == |s.r| > 0
    ensures Run(s, 0, F) == s
  {
  }

  lemma StartDelta(a: Vec, c: int)
    requires |a| >= 2
    ensures Start(a, c).delta == 1
  {
  }

  lemma RunStep(s: Recip, n: nat, F: Field)
    requires |s.f| == |s.g| == |s.v| == |s.r| > 0
    ensures Run(s, n + 1, F) == DivStep(Run(s, n, F), F)
  {
  }

  lemma OutputTernary(s: Recip, p: nat)
    requires Shape(s, p, F3)
    ensures Ternary(Output(s, p))
  {
    forall i | 0 <= i < p
      ensures -1 <= Output(s, p)[i] <= 1
    {
      SignRange(-s.f[0], s.v[p - 1 - i]);
    }
  }
}
