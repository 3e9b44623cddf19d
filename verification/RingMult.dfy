/**
 Multiplication modulo x^p - x - 1 as the code does it: schoolbook convolution
 into 2p-1 cells, then one fold of the high half
 (vendor-sntrup761/sntrup761.c:433-464, 529-560).
 */
module RingMult {
  import opened ModArith
  import opened PolyRing
  import opened DivMod

  function CentredVec(u: Vec, F: Field): (v: Vec)
    ensures |v| == |u|
  {
    seq(|u|, i requires 0 <= i < |u| => Centred(u[i], F))
  }

  lemma CentredVecCong(u: Vec, F: Field)
    ensures CongVec(CentredVec(u, F), u, F)
  {
  }

  // Congruent vectors have the same centred representative.
  lemma CentredVecUnique(u: Vec, v: Vec, F: Field)
    requires CongVec(u, v, F)
    requires forall i | 0 <= i < |u| :: IsCentred(u[i], F)
    ensures u == CentredVec(v, F)
  {
    forall i | 0 <= i < |u|
      ensures u[i] == CentredVec(v, F)[i]
    {
      CongSym(Centred(v[i], F), v[i], F);
      CongTrans(u[i], v[i], Centred(v[i], F), F);
      CentredUnique(u[i], Centred(v[i], F), F);
    }
  }

  function At(g: Vec, k: int): int { if 0 <= k < |g| then g[k] else 0 }

  // The first n terms of the coefficient of x^k in f*g.
  ghost function Conv(f: Vec, g: Vec, k: int, n: nat): int
    requires n <= |f|
  {
    if n == 0 then 0 else Conv(f, g, k, n - 1) + f[n - 1] * At(g, k - (n - 1))
  }

  // The inner loops skip exactly the terms that are zero.
  lemma {:induction false} ConvLow(f: Vec, g: Vec, k: int, n: nat)
    requires n <= |f| && n <= k - |g| + 1
    ensures Conv(f, g, k, n) == 0
  {
    if n > 0 {
      ConvLow(f, g, k, n - 1);
    }
  }

  lemma {:induction false} ConvHigh(f: Vec, g: Vec, k: nat, n: nat)
    requires k + 1 <= n <= |f|
    ensures Conv(f, g, k, n) == Conv(f, g, k, k + 1)
  {
    if n > k + 1 {
      ConvHigh(f, g, k, n - 1);
    }
  }

  // Coefficient t of the product after folding, counting the first n terms.
  ghost function FoldedConv(f: Vec, g: Vec, t: nat, n: nat): int
    requires n <= |f|
  {
    Conv(f, g, t, n) + Conv(f, g, t + |g|, n) + if t >= 1 then Conv(f, g, t + |g| - 1, n) else 0
  }

  lemma DistributeThree(x: int, a: int, b: int, c: int)
    ensures x * (a + b + c) == x * a + x * b + x * c
  {
  }

  lemma {:induction false} FoldIsAct(f: Vec, g: Vec, t: nat, n: nat)
    requires |f| == |g| >= 2 && t < |g| && n <= |f|
    ensures FoldedConv(f, g, t, n) == Act(f[..n], g)[t]
  {
    if n > 0 {
      hide XPow;
      FoldIsAct(f, g, t, n - 1);
      assert f[..n][..n - 1] == f[..n - 1];
      XPowAt(g, n - 1);
      var j := n - 1;
      var a, b, c := At(g, t - j), At(g, t + |g| - j), if t >= 1 then At(g, t + |g| - 1 - j) else 0;
      assert Folded(g, j, t) == a + b + c;
      DistributeThree(f[j], a, b, c);
    }
  }

  // What cell k < p holds, modulo m, once the high cells above i are folded in.
  ghost function FoldedAbove(f: Vec, g: Vec, k: nat, i: int): int
  {
    Conv(f, g, k, |f|)
    + (if k + |g| > i then Conv(f, g, k + |g|, |f|) else 0)
    + (if k >= 1 && k + |g| - 1 > i then Conv(f, g, k + |g| - 1, |f|) else 0)
  }

  ghost predicate Folding(fg: Vec, f: Vec, g: Vec, i: int, F: Field)
  {
    |f| == |g| >= 2 && |fg| == 2 * |g| - 1
    && (forall k | 0 <= k < |g| :: Cong(fg[k], FoldedAbove(f, g, k, i), F))
    && (forall k | |g| <= k < |fg| :: Cong(fg[k], Conv(f, g, k, |f|), F))
  }

  lemma FoldingStart(fg: Vec, f: Vec, g: Vec, F: Field)
    requires |f| == |g| >= 2 && |fg| == 2 * |g| - 1
    requires forall k | 0 <= k < |fg| :: Cong(fg[k], Conv(f, g, k, |f|), F)
    ensures Folding(fg, f, g, 2 * |g| - 2, F)
  {
    ConvLow(f, g, 2 * |g| - 1, |f|);
  }

  lemma FoldingStep(fg: Vec, fg': Vec, f: Vec, g: Vec, i: int, a: int, b: int, F: Field)
    requires Folding(fg, f, g, i, F) && |g| <= i < |fg|
    requires Cong(a, fg[i - |g|] + fg[i], F) && Cong(b, fg[i - |g| + 1] + fg[i], F)
    requires fg' == fg[i - |g| := a][i - |g| + 1 := b]
    ensures Folding(fg', f, g, i - 1, F)
  {
    hide Cong, Conv;
    var n := i - |g|;
    var c := Conv(f, g, i, |f|);
    CongAdd(fg[n], FoldedAbove(f, g, n, i), fg[i], c, F);
    CongTrans(a, fg[n] + fg[i], FoldedAbove(f, g, n, i) + c, F);
    CongAdd(fg[n + 1], FoldedAbove(f, g, n + 1, i), fg[i], c, F);
    CongTrans(b, fg[n + 1] + fg[i], FoldedAbove(f, g, n + 1, i) + c, F);
  }

  lemma FoldingEnd(fg: Vec, f: Vec, g: Vec, F: Field)
    requires Folding(fg, f, g, |g| - 1, F)
    ensures CongVec(fg[..|g|], Act(f, g), F)
  {
    forall t | 0 <= t < |g|
      ensures Cong(fg[..|g|][t], Act(f, g)[t], F)
    {
      FoldIsAct(f, g, t, |f|);
      assert f[..|f|] == f;
      assert FoldedAbove(f, g, t, |g| - 1) == FoldedConv(f, g, t, |f|);
    }
  }

  lemma ConvTerm(f: Vec, g: Vec, k: int, n: nat, old_: int, new_: int, F: Field)
    requires n < |f| && 0 <= k - n < |g|
    requires Cong(old_, Conv(f, g, k, n), F)
    requires Cong(new_, old_ + f[n] * g[k - n], F)
    ensures Cong(new_, Conv(f, g, k, n + 1), F)
  {
    CongAdd(old_, Conv(f, g, k, n), f[n] * g[k - n], f[n] * g[k - n], F);
    CongTrans(new_, old_ + f[n] * g[k - n], Conv(f, g, k, n + 1), F);
  }

  lemma ProductRange(a: int, b: int, x: int, y: int)
    requires -a <= x <= a && -b <= y <= b
    ensures -(a * b) <= x * y <= a * b
  {
    assert (a - x) * (b + y) >= 0 && (a + x) * (b - y) >= 0;
    assert (a - x) * (b - y) >= 0 && (a + x) * (b + y) >= 0;
  }

  // Any int8_t contents, centred or not.
  ghost predicate Int8(f: Vec) { forall i | 0 <= i < |f| :: -0x80 <= f[i] < 0x80 }

  ghost predicate Int16(f: Vec) { forall i | 0 <= i < |f| :: -0x8000 <= f[i] < 0x8000 }

  // One cell of the convolution: the inner loop over j in lo..hi.
  method R3Cell(f: Vec, g: Vec, k: nat, lo: nat, hi: nat) returns (result: int)
    requires |f| == |g| >= 2 && Int8(f) && Int8(g)
    requires k < |f| ==> lo == 0 && hi == k + 1
    requires k >= |f| ==> k < 2 * |f| - 1 && lo == k - |f| + 1 && hi == |f|
    ensures IsCentred(result, F3) && Cong(result, Conv(f, g, k, |f|), F3)
  {
    result := 0;
    CongRefl(0, F3);
    assert Conv(f, g, k, 0) == 0;
    hide Cong, Centred, Conv;
    if lo > 0 {
      ConvLow(f, g, k, lo);
    }
    for j := lo to hi
      invariant IsCentred(result, F3) && Cong(result, Conv(f, g, k, j), F3)
    {
      ProductRange(0x80, 0x80, f[j], g[k - j]);
      var t := F3Freeze(result + f[j] * g[k - j]);
      ConvTerm(f, g, k, j, result, t, F3);
      result := t;
    }
    if k < |f| {
      ConvHigh(f, g, k, |f|);
    }
  }

  // The fold of the high half, from the top cell down.
  method R3Fold(fg: array<int>, ghost f: Vec, ghost g: Vec, p: nat)
    requires p == |g| && fg.Length == 2 * p - 1
    requires Folding(fg[..], f, g, 2 * p - 2, F3)
    requires forall k | 0 <= k < fg.Length :: IsCentred(fg[k], F3)
    modifies fg
    ensures Folding(fg[..], f, g, p - 1, F3)
    ensures forall k | 0 <= k < fg.Length :: IsCentred(fg[k], F3)
  {
    hide Cong, Conv, Centred, FoldedAbove;
    for i := p + p - 1 downto p
      invariant forall k | 0 <= k < fg.Length :: IsCentred(fg[k], F3)
      invariant Folding(fg[..], f, g, i - 1, F3)
    {
      ghost var before := fg[..];
      var a := F3Freeze(fg[i - p] + fg[i]);
      fg[i - p] := a;
      var b := F3Freeze(fg[i - p + 1] + fg[i]);
      fg[i - p + 1] := b;
      assert fg[..] == before[i - p := a][i - p + 1 := b];
      FoldingStep(before, fg[..], f, g, i, a, b, F3);
    }
  }

  // h = f*g in R3 = (Z/3)[x]/(x^p - x - 1)
  method R3Mult(f: Vec, g: Vec) returns (h: Vec)
    requires |f| == |g| >= 2 && Int8(f) && Int8(g)
    ensures h == CentredVec(Act(f, g), F3)
  {
    var p := |f|;
    var fg := new int[p + p - 1];
    for i := 0 to p
      invariant forall k | 0 <= k < i :: IsCentred(fg[k], F3) && Cong(fg[k], Conv(f, g, k, p), F3)
    {
      var result := R3Cell(f, g, i, 0, i + 1);
      fg[i] := result;
    }
    for i := p to p + p - 1
      invariant forall k | 0 <= k < i :: IsCentred(fg[k], F3) && Cong(fg[k], Conv(f, g, k, p), F3)
    {
      var result := R3Cell(f, g, i, i - p + 1, p);
      fg[i] := result;
    }
    FoldingStart(fg[..], f, g, F3);
    R3Fold(fg, f, g, p);
    FoldingEnd(fg[..], f, g, F3);
    h := fg[..p];
    assert fg[..][..p] == h;
    CentredVecUnique(h, Act(f, g), F3);
  }

  // One cell of the convolution: the inner loop over j in lo..hi.
  method RqCell(f: Vec, g: Vec, k: nat, lo: nat, hi: nat) returns (result: int)
    requires |f| == |g| >= 2 && Int16(f) && Int8(g)
    requires k < |f| ==> lo == 0 && hi == k + 1
    requires k >= |f| ==> k < 2 * |f| - 1 && lo == k - |f| + 1 && hi == |f|
    ensures IsCentred(result, Fq) && Cong(result, Conv(f, g, k, |f|), Fq)
  {
    result := 0;
    CongRefl(0, Fq);
    assert Conv(f, g, k, 0) == 0;
    hide Cong, Centred, Conv;
    if lo > 0 {
      ConvLow(f, g, k, lo);
    }
    for j := lo to hi
      invariant IsCentred(result, Fq) && Cong(result, Conv(f, g, k, j), Fq)
    {
      ProductRange(0x8000, 0x80, f[j], g[k - j]);
      var t := FqFreeze(result + f[j] * g[k - j]);
      ConvTerm(f, g, k, j, result, t, Fq);
      result := t;
    }
    if k < |f| {
      ConvHigh(f, g, k, |f|);
    }
  }

  // The fold of the high half, from the top cell down.
  method RqFold(fg: array<int>, ghost f: Vec, ghost g: Vec, p: nat)
    requires p == |g| && fg.Length == 2 * p - 1
    requires Folding(fg[..], f, g, 2 * p - 2, Fq)
    requires forall k | 0 <= k < fg.Length :: IsCentred(fg[k], Fq)
    modifies fg
    ensures Folding(fg[..], f, g, p - 1, Fq)
    ensures forall k | 0 <= k < fg.Length :: IsCentred(fg[k], Fq)
  {
    hide Cong, Conv, Centred, FoldedAbove;
    for i := p + p - 1 downto p
      invariant forall k | 0 <= k < fg.Length :: IsCentred(fg[k], Fq)
      invariant Folding(fg[..], f, g, i - 1, Fq)
    {
      ghost var before := fg[..];
      var a := FqFreeze(fg[i - p] + fg[i]);
      fg[i - p] := a;
      var b := FqFreeze(fg[i - p + 1] + fg[i]);
      fg[i - p + 1] := b;
      assert fg[..] == before[i - p := a][i - p + 1 := b];
      FoldingStep(before, fg[..], f, g, i, a, b, Fq);
    }
  }

  // h = f*g in Rq = (Z/q)[x]/(x^p - x - 1), g small
  method RqMultSmall(f: Vec, g: Vec) returns (h: Vec)
    requires |f| == |g| >= 2 && Int16(f) && Int8(g)
    ensures h == CentredVec(Act(f, g), Fq)
  {
    var p := |f|;
    var fg := new int[p + p - 1];
    for i := 0 to p
      invariant forall k | 0 <= k < i :: IsCentred(fg[k], Fq) && Cong(fg[k], Conv(f, g, k, p), Fq)
    {
      var result := RqCell(f, g, i, 0, i + 1);
      fg[i] := result;
    }
    for i := p to p + p - 1
      invariant forall k | 0 <= k < i :: IsCentred(fg[k], Fq) && Cong(fg[k], Conv(f, g, k, p), Fq)
    {
      var result := RqCell(f, g, i, i - p + 1, p);
      fg[i] := result;
    }
    FoldingStart(fg[..], f, g, Fq);
    RqFold(fg, f, g, p);
    FoldingEnd(fg[..], f, g, Fq);
    h := fg[..p];
    assert fg[..][..p] == h;
    CentredVecUnique(h, Act(f, g), Fq);
  }
}
