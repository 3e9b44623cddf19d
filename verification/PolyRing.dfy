/**
 The ring Z[x]/(x^p - x - 1) on coefficient sequences of length p (least
 degree first). A polynomial f acts on a vector u as the sum of f[j] * X^j(u),
 where X multiplies by x and folds x^p into x + 1. The product of the ring is
 Act itself. Nothing here depends on the value of p.
 */
module PolyRing {
  import opened ModArith

  type Vec = seq<int>

  function Zero(n: nat): (z: Vec)
    ensures |z| == n
  {
    seq(n, i => 0)
  }

  function One(n: nat): (o: Vec)
    ensures |o| == n
  {
    seq(n, i => if i == 0 then 1 else 0)
  }

  function Add(u: Vec, v: Vec): (s: Vec)
    requires |u| == |v|
    ensures |s| == |u|
  {
    seq(|u|, i requires 0 <= i < |u| => u[i] + v[i])
  }

  function Scale(c: int, u: Vec): (s: Vec)
    ensures |s| == |u|
  {
    seq(|u|, i requires 0 <= i < |u| => c * u[i])
  }

  // Multiplication by x modulo x^p - x - 1.
  function X(u: Vec): (s: Vec)
    requires |u| >= 2
    ensures |s| == |u|
  {
    seq(|u|, i requires 0 <= i < |u| =>
      if i == 0 then u[|u| - 1]
      else if i == 1 then u[0] + u[|u| - 1]
      else u[i - 1])
  }

  function XPow(u: Vec, k: nat): (s: Vec)
    requires |u| >= 2
    ensures |s| == |u|
  {
    if k == 0 then u else X(XPow(u, k - 1))
  }

  function Act(f: Vec, u: Vec): (s: Vec)
    requires |u| >= 2
    ensures |s| == |u|
  {
    if f == [] then Zero(|u|)
    else Add(Act(f[..|f| - 1], u), Scale(f[|f| - 1], XPow(u, |f| - 1)))
  }

  // ----- X and XPow are linear ------------------------------------------------

  lemma XLinear(u: Vec, v: Vec, c: int)
    requires |u| == |v| >= 2
    ensures X(Add(u, v)) == Add(X(u), X(v))
    ensures X(Scale(c, u)) == Scale(c, X(u))
  {
    assert c * (u[0] + u[|u| - 1]) == c * u[0] + c * u[|u| - 1];
  }

  lemma {:induction false} XPowLinear(u: Vec, v: Vec, c: int, k: nat)
    requires |u| == |v| >= 2
    ensures XPow(Add(u, v), k) == Add(XPow(u, k), XPow(v, k))
    ensures XPow(Scale(c, u), k) == Scale(c, XPow(u, k))
  {
    if k > 0 {
      XPowLinear(u, v, c, k - 1);
      XLinear(XPow(u, k - 1), XPow(v, k - 1), c);
    }
  }

  lemma {:induction false} XPowAdd(u: Vec, j: nat, k: nat)
    requires |u| >= 2
    ensures XPow(XPow(u, j), k) == XPow(u, j + k)
  {
    if k > 0 {
      XPowAdd(u, j, k - 1);
    }
  }

  // ----- vector identities ------------------------------------------------------

  lemma AddShuffle(a: Vec, b: Vec, c: Vec, d: Vec)
    requires |a| == |b| == |c| == |d|
    ensures Add(Add(a, b), Add(c, d)) == Add(Add(a, c), Add(b, d))
  {
  }

  lemma ScaleAdd(c: int, u: Vec, v: Vec)
    requires |u| == |v|
    ensures Scale(c, Add(u, v)) == Add(Scale(c, u), Scale(c, v))
  {
    forall i | 0 <= i < |u|
      ensures Scale(c, Add(u, v))[i] == Add(Scale(c, u), Scale(c, v))[i]
    {
      assert c * (u[i] + v[i]) == c * u[i] + c * v[i];
    }
  }

  lemma ScaleScale(c: int, d: int, u: Vec)
    ensures Scale(c, Scale(d, u)) == Scale(d, Scale(c, u)) == Scale(c * d, u)
  {
    forall i | 0 <= i < |u|
      ensures Scale(c, Scale(d, u))[i] == Scale(d, Scale(c, u))[i] == Scale(c * d, u)[i]
    {
      assert c * (d * u[i]) == d * (c * u[i]) == (c * d) * u[i];
    }
  }

  lemma SumScale(c: int, d: int, u: Vec)
    ensures Scale(c + d, u) == Add(Scale(c, u), Scale(d, u))
  {
    forall i | 0 <= i < |u|
      ensures Scale(c + d, u)[i] == Add(Scale(c, u), Scale(d, u))[i]
    {
      assert (c + d) * u[i] == c * u[i] + d * u[i];
    }
  }

  // ----- Act is bilinear and commutes with X -----------------------------------------

  lemma {:induction false} ActLinearRight(f: Vec, u: Vec, v: Vec, c: int)
    requires |u| == |v| >= 2
    ensures Act(f, Add(u, v)) == Add(Act(f, u), Act(f, v))
    ensures Act(f, Scale(c, u)) == Scale(c, Act(f, u))
  {
    if f != [] {
      var n := |f| - 1;
      ActLinearRight(f[..n], u, v, c);
      XPowLinear(u, v, c, n);
      ScaleAdd(f[n], XPow(u, n), XPow(v, n));
      AddShuffle(Act(f[..n], u), Act(f[..n], v), Scale(f[n], XPow(u, n)), Scale(f[n], XPow(v, n)));
      ScaleScale(f[n], c, XPow(u, n));
      ScaleAdd(c, Act(f[..n], u), Scale(f[n], XPow(u, n)));
    }
  }

  lemma {:induction false} ActAddLeft(f: Vec, g: Vec, u: Vec)
    requires |f| == |g| && |u| >= 2
    ensures Act(Add(f, g), u) == Add(Act(f, u), Act(g, u))
  {
    if f == [] {
      assert Zero(|u|) == Add(Zero(|u|), Zero(|u|));
    } else {
      var n := |f| - 1;
      ActAddLeft(f[..n], g[..n], u);
      assert Add(f, g)[..n] == Add(f[..n], g[..n]);
      SumScale(f[n], g[n], XPow(u, n));
      AddShuffle(Act(f[..n], u), Act(g[..n], u), Scale(f[n], XPow(u, n)), Scale(g[n], XPow(u, n)));
    }
  }

  lemma {:induction false} ActScaleLeft(c: int, f: Vec, u: Vec)
    requires |u| >= 2
    ensures Act(Scale(c, f), u) == Scale(c, Act(f, u))
  {
    if f == [] {
      assert Zero(|u|) == Scale(c, Zero(|u|));
    } else {
      var n := |f| - 1;
      ActScaleLeft(c, f[..n], u);
      assert Scale(c, f)[..n] == Scale(c, f[..n]);
      ScaleScale(c, f[n], XPow(u, n));
      ScaleAdd(c, Act(f[..n], u), Scale(f[n], XPow(u, n)));
    }
  }

  lemma {:induction false} ActXPow(f: Vec, u: Vec, k: nat)
    requires |u| >= 2
    ensures Act(f, XPow(u, k)) == XPow(Act(f, u), k)
  {
    if f == [] {
      XPowLinear(Zero(|u|), Zero(|u|), 0, k);
      assert Zero(|u|) == Scale(0, Zero(|u|));
      assert Scale(0, XPow(Zero(|u|), k)) == Zero(|u|);
    } else {
      var n := |f| - 1;
      ActXPow(f[..n], u, k);
      XPowAdd(u, k, n);
      XPowAdd(u, n, k);
      XPowLinear(Act(f[..n], u), Scale(f[n], XPow(u, n)), 0, k);
      XPowLinear(XPow(u, n), XPow(u, n), f[n], k);
    }
  }

  // Polynomials in X commute as operators.
  lemma {:induction false} ActCommute(f: Vec, g: Vec, u: Vec)
    requires |u| >= 2
    ensures Act(f, Act(g, u)) == Act(g, Act(f, u))
  {
    if f == [] {
      ActLinearRight(g, Zero(|u|), Zero(|u|), 0);
      assert Zero(|u|) == Scale(0, Zero(|u|));
      assert Scale(0, Act(g, Zero(|u|))) == Zero(|u|);
    } else {
      var n := |f| - 1;
      ActCommute(f[..n], g, u);
      ActXPow(g, u, n);
      ActLinearRight(g, Act(f[..n], u), Scale(f[n], XPow(u, n)), 0);
      ActLinearRight(g, XPow(u, n), XPow(u, n), f[n]);
    }
  }

  // ----- the powers of x that stay below the modulus -----------------------------------

  // The coefficient of x^t in x^j * g, for j < p: nothing folds twice.
  function Folded(g: Vec, j: nat, t: nat): int
    requires t < |g| && j <= |g| - 1
  {
    (if t >= j then g[t - j] else g[t + |g| - j])
    + (if 1 <= t <= j then g[t + |g| - 1 - j] else 0)
  }

  lemma {:induction false} XPowAt(g: Vec, j: nat)
    requires |g| >= 2 && j <= |g| - 1
    ensures forall t | 0 <= t < |g| :: XPow(g, j)[t] == Folded(g, j, t)
  {
    if j > 0 {
      XPowAt(g, j - 1);
    }
  }

  lemma XPowOne(p: nat, n: nat)
    requires p >= 2 && n < p
    ensures XPow(One(p), n) == seq(p, t => if t == n then 1 else 0)
  {
    XPowAt(One(p), n);
    forall t | 0 <= t < p
      ensures XPow(One(p), n)[t] == if t == n then 1 else 0
    {
      assert XPow(One(p), n)[t] == Folded(One(p), n, t);
    }
  }

  lemma AppendTerm(f: Vec, c: int, p: nat)
    requires |f| < p
    ensures Add(f + Zero(p - |f|), Scale(c, seq(p, t => if t == |f| then 1 else 0)))
         == f + [c] + Zero(p - |f| - 1)
  {
  }

  lemma {:induction false} ActOnOne(f: Vec, p: nat)
    requires p >= 2 && |f| <= p
    ensures Act(f, One(p)) == f + Zero(p - |f|)
  {
    if f == [] {
      assert Zero(p) == f + Zero(p - |f|);
    } else {
      var n := |f| - 1;
      ActOnOne(f[..n], p);
      XPowOne(p, n);
      AppendTerm(f[..n], f[n], p);
      assert f[..n] + [f[n]] == f;
    }
  }

  // ----- the ring laws --------------------------------------------------------------

  lemma MulOne(f: Vec)
    requires |f| >= 2
    ensures Act(f, One(|f|)) == f
    ensures Act(One(|f|), f) == f
  {
    ActOnOne(f, |f|);
    assert f + Zero(0) == f;
    MulComm(One(|f|), f);
  }

  lemma MulComm(f: Vec, g: Vec)
    requires |f| == |g| >= 2
    ensures Act(f, g) == Act(g, f)
  {
    var o := One(|f|);
    ActOnOne(f, |f|);
    ActOnOne(g, |f|);
    assert f + Zero(0) == f && g + Zero(0) == g;
    ActCommute(f, g, o);
  }

  lemma MulAssoc(f: Vec, g: Vec, h: Vec)
    requires |f| == |g| == |h| >= 2
    ensures Act(Act(f, g), h) == Act(f, Act(g, h))
  {
    MulComm(Act(f, g), h);
    ActCommute(h, f, g);
    MulComm(h, g);
  }

  // ----- coefficients in a field ------------------------------------------------------

  ghost predicate CongVec(u: Vec, v: Vec, F: Field)
  {
    |u| == |v| && forall i | 0 <= i < |u| :: Cong(u[i], v[i], F)
  }

  lemma CongVecRefl(u: Vec, F: Field)
    ensures CongVec(u, u, F)
  {
  }

  lemma CongVecSym(u: Vec, v: Vec, F: Field)
    requires CongVec(u, v, F)
    ensures CongVec(v, u, F)
  {
    forall i | 0 <= i < |u| ensures Cong(v[i], u[i], F) { CongSym(u[i], v[i], F); }
  }

  lemma CongVecTrans(u: Vec, v: Vec, w: Vec, F: Field)
    requires CongVec(u, v, F) && CongVec(v, w, F)
    ensures CongVec(u, w, F)
  {
    forall i | 0 <= i < |u| ensures Cong(u[i], w[i], F) { CongTrans(u[i], v[i], w[i], F); }
  }

  lemma CongVecAdd(u: Vec, u': Vec, v: Vec, v': Vec, F: Field)
    requires |u| == |v| && CongVec(u, u', F) && CongVec(v, v', F)
    ensures CongVec(Add(u, v), Add(u', v'), F)
  {
    forall i | 0 <= i < |u| ensures Cong(Add(u, v)[i], Add(u', v')[i], F) {
      CongAdd(u[i], u'[i], v[i], v'[i], F);
    }
  }

  lemma CongVecScale(c: int, c': int, u: Vec, u': Vec, F: Field)
    requires Cong(c, c', F) && CongVec(u, u', F)
    ensures CongVec(Scale(c, u), Scale(c', u'), F)
  {
    forall i | 0 <= i < |u| ensures Cong(Scale(c, u)[i], Scale(c', u')[i], F) {
      CongMul(c, c', u[i], u'[i], F);
    }
  }

  lemma CongVecX(u: Vec, v: Vec, F: Field)
    requires |u| >= 2 && CongVec(u, v, F)
    ensures CongVec(X(u), X(v), F)
  {
    CongAdd(u[0], v[0], u[|u| - 1], v[|v| - 1], F);
  }

  lemma {:induction false} CongVecXPow(u: Vec, v: Vec, k: nat, F: Field)
    requires |u| >= 2 && CongVec(u, v, F)
    ensures CongVec(XPow(u, k), XPow(v, k), F)
  {
    if k > 0 {
      CongVecXPow(u, v, k - 1, F);
      CongVecX(XPow(u, k - 1), XPow(v, k - 1), F);
    }
  }

  lemma {:induction false} CongVecAct(f: Vec, f': Vec, u: Vec, u': Vec, F: Field)
    requires |u| >= 2 && CongVec(f, f', F) && CongVec(u, u', F)
    ensures CongVec(Act(f, u), Act(f', u'), F)
  {
    if f != [] {
      var n := |f| - 1;
      CongVecAct(f[..n], f'[..n], u, u', F);
      CongVecXPow(u, u', n, F);
      CongVecScale(f[n], f'[n], XPow(u, n), XPow(u', n), F);
      CongVecAdd(Act(f[..n], u), Act(f'[..n], u'),
                 Scale(f[n], XPow(u, n)), Scale(f'[n], XPow(u', n)), F);
    }
  }
}
