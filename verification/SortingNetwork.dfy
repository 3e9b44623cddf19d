/**
 The data-oblivious sort (vendor-sntrup761/sntrup761.c:13-112), distance by distance:
 every pass p merges pairs of sorted subsequences with stride 2p into sorted
 subsequences with stride p.
 */
module SortingNetwork {

  function Min(a: int, b: int): int { if a <= b then a else b }

  function Max(a: int, b: int): int { if a <= b then b else a }

  // ----- powers of two -----------------------------------------------------------------

  // b is a times a power of two.
  ghost predicate Doubles(a: nat, b: nat)
    decreases b - a
  {
    0 < a <= b && (a == b || Doubles(2 * a, b))
  }

  lemma {:induction false} DoublesHalf(a: nat, b: nat)
    requires Doubles(a, b) && a < b
    ensures b % 2 == 0 && Doubles(a, b / 2)
    decreases b - a
  {
    if 2 * a < b {
      DoublesHalf(2 * a, b);
    }
  }

  lemma {:induction false} DoublesTrans(a: nat, b: nat, c: nat)
    requires Doubles(a, b) && Doubles(b, c)
    ensures Doubles(a, c)
    decreases b - a
  {
    if a < b {
      DoublesTrans(2 * a, b, c);
    }
  }

  // Nothing in a chain of doublings lies strictly between r/2 and r.
  lemma {:induction false} DoublesGap(s: nat, r: nat, t: nat)
    requires Doubles(s, t) && Doubles(r, t) && s <= r < 2 * s
    ensures s == r
    decreases t - s
  {
    if r < t {
      DoublesGap(2 * s, 2 * r, t);
    }
  }

  // ----- blocks --------------------------------------------------------------------------

  // Position j lies in an even-numbered block of length p.
  predicate EvenBlock(j: nat, p: nat)
    requires p > 0
  {
    if j < p then true else if j < 2 * p then false else EvenBlock(j - 2 * p, p)
  }

  lemma {:induction false} NextBlock(j: nat, p: nat)
    requires p > 0
    ensures EvenBlock(j + p, p) == !EvenBlock(j, p)
  {
    if j >= 2 * p {
      NextBlock(j - 2 * p, p);
    }
  }

  lemma {:induction false} SameBlock(j: nat, p: nat, r: nat)
    requires p > 0 && Doubles(2 * p, r)
    ensures EvenBlock(j + r, p) == EvenBlock(j, p)
    decreases r
  {
    if r > 2 * p {
      DoublesHalf(2 * p, r);
      SameBlock(j, p, r / 2);
      SameBlock(j + r / 2, p, r / 2);
    }
  }

  // ----- the network, stage by stage -------------------------------------------------------

  // Compare-exchange (j, j + p) for every j in an even block.
  function Pairwise(y: seq<int>, p: nat): (z: seq<int>)
    requires p > 0
    ensures |z| == |y|
  {
    seq(|y|, i requires 0 <= i < |y| =>
      if EvenBlock(i, p) then (if i + p < |y| then Min(y[i], y[i + p]) else y[i])
      else (BlockStart(i, p); Max(y[i - p], y[i])))
  }

  lemma BlockStart(i: nat, p: nat)
    requires p > 0 && !EvenBlock(i, p)
    ensures i >= p && EvenBlock(i - p, p)
  {
    NextBlock(i - p, p);
  }

  // Compare-exchange (j + p, j + r) for every j in an even block.
  function Stage(y: seq<int>, p: nat, r: nat): (z: seq<int>)
    requires p > 0 && r >= 2 * p
    ensures |z| == |y|
  {
    seq(|y|, i requires 0 <= i < |y| =>
      if EvenBlock(i, p) then (if i >= r then Max(y[i - r + p], y[i]) else y[i])
      else (BlockStart(i, p); if i - p + r < |y| then Min(y[i], y[i - p + r]) else y[i]))
  }

  // The stages of distance top, top/2, ..., 2h, in that order.
  function Stages(y: seq<int>, p: nat, top: nat, h: nat): (z: seq<int>)
    requires 0 < p <= h
    ensures |z| == |y|
    decreases top - h
  {
    if h >= top then y else Stage(Stages(y, p, top, 2 * h), p, 2 * h)
  }

  // ----- what the stages keep -----------------------------------------------------------------

  ghost predicate Strided(y: seq<int>, d: nat) {
    forall i, k | 0 <= i && k == i + d && k < |y| :: y[i] <= y[k]
  }

  ghost predicate PairsOrdered(y: seq<int>, p: nat)
    requires p > 0
  {
    forall j: nat, k | EvenBlock(j, p) && k == j + p && k < |y| :: y[j] <= y[k]
  }

  ghost predicate CrossOrdered(y: seq<int>, p: nat, r: nat)
    requires 0 < p <= r
  {
    forall j: nat, i, k | EvenBlock(j, p) && i == j + p && k == j + r && k < |y| :: y[i] <= y[k]
  }

  lemma {:induction false} StridedFar(y: seq<int>, p: nat, r: nat, i: nat)
    requires p > 0 && Strided(y, 2 * p) && Doubles(2 * p, r) && i + r < |y|
    ensures y[i] <= y[i + r]
    decreases r
  {
    if r > 2 * p {
      DoublesHalf(2 * p, r);
      StridedFar(y, p, r / 2, i);
      StridedFar(y, p, r / 2, i + r / 2);
    }
  }

  lemma PairwiseAt(y: seq<int>, p: nat, i: nat)
    requires p > 0 && i < |y|
    ensures EvenBlock(i, p) ==> Pairwise(y, p)[i] == if i + p < |y| then Min(y[i], y[i + p]) else y[i]
    ensures !EvenBlock(i, p) ==> i >= p && EvenBlock(i - p, p) && Pairwise(y, p)[i] == Max(y[i - p], y[i])
  {
    if !EvenBlock(i, p) {
      BlockStart(i, p);
    }
  }

  lemma PairwiseStrided(y: seq<int>, p: nat)
    requires p > 0 && Strided(y, 2 * p)
    ensures Strided(Pairwise(y, p), 2 * p) && PairsOrdered(Pairwise(y, p), p)
  {
    hide Pairwise, EvenBlock;
    var z := Pairwise(y, p);
    forall i, k | 0 <= i && k == i + 2 * p && k < |y|
      ensures z[i] <= z[k]
    {
      SameBlock(i, p, 2 * p);
      PairwiseAt(y, p, i);
      PairwiseAt(y, p, k);
    }
    forall j: nat, k | EvenBlock(j, p) && k == j + p && k < |y|
      ensures z[j] <= z[k]
    {
      NextBlock(j, p);
      PairwiseAt(y, p, j);
      PairwiseAt(y, p, k);
    }
  }

  lemma StageAt(y: seq<int>, p: nat, r: nat, i: nat)
    requires p > 0 && r >= 2 * p && i < |y|
    ensures EvenBlock(i, p) ==> Stage(y, p, r)[i] == if i >= r then Max(y[i - r + p], y[i]) else y[i]
    ensures !EvenBlock(i, p) ==> i >= p && EvenBlock(i - p, p)
    ensures !EvenBlock(i, p) ==> Stage(y, p, r)[i] == if i - p + r < |y| then Min(y[i], y[i - p + r]) else y[i]
  {
    if !EvenBlock(i, p) {
      BlockStart(i, p);
    }
  }

  lemma StageStrided(y: seq<int>, p: nat, r: nat)
    requires p > 0 && Doubles(2 * p, r) && Strided(y, 2 * p)
    ensures Strided(Stage(y, p, r), 2 * p)
  {
    hide Stage, EvenBlock;
    var z := Stage(y, p, r);
    forall i, k | 0 <= i && k == i + 2 * p && k < |y|
      ensures z[i] <= z[k]
    {
      SameBlock(i, p, 2 * p);
      StageAt(y, p, r, i);
      StageAt(y, p, r, k);
    }
  }

  lemma StagePairs(y: seq<int>, p: nat, r: nat, j: nat)
    requires p > 0 && Doubles(2 * p, r) && Strided(y, 2 * p)
    requires PairsOrdered(y, p) && CrossOrdered(y, p, 2 * r)
    requires EvenBlock(j, p) && j + p < |y|
    ensures Stage(y, p, r)[j] <= Stage(y, p, r)[j + p]
  {
    hide Stage, EvenBlock;
    NextBlock(j, p);
    StageAt(y, p, r, j);
    StageAt(y, p, r, j + p);
    if j + r < |y| {
      StridedFar(y, p, r, j);
    }
    if j >= r {
      StridedFar(y, p, r, j - r + p);
      SameBlock(j - r, p, r);
    }
  }

  lemma StageCross(y: seq<int>, p: nat, r: nat, j: nat)
    requires p > 0 && Doubles(2 * p, r)
    requires EvenBlock(j, p) && j + r < |y|
    ensures Stage(y, p, r)[j + p] <= Stage(y, p, r)[j + r]
  {
    hide Stage, EvenBlock;
    NextBlock(j, p);
    SameBlock(j, p, r);
    StageAt(y, p, r, j + p);
    StageAt(y, p, r, j + r);
  }

  lemma StageOrdered(y: seq<int>, p: nat, r: nat)
    requires p > 0 && Doubles(2 * p, r) && Strided(y, 2 * p)
    requires PairsOrdered(y, p) && CrossOrdered(y, p, 2 * r)
    ensures PairsOrdered(Stage(y, p, r), p) && CrossOrdered(Stage(y, p, r), p, r)
  {
    hide Stage, EvenBlock, Strided;
    forall j: nat, k | EvenBlock(j, p) && k == j + p && k < |y|
      ensures Stage(y, p, r)[j] <= Stage(y, p, r)[k]
    {
      StagePairs(y, p, r, j);
    }
    forall j: nat, i, k | EvenBlock(j, p) && i == j + p && k == j + r && k < |y|
      ensures Stage(y, p, r)[i] <= Stage(y, p, r)[k]
    {
      StageCross(y, p, r, j);
    }
  }

  lemma {:induction false} StagesOrdered(y: seq<int>, p: nat, top: nat, h: nat)
    requires 0 < p && Doubles(p, h) && Doubles(h, top) && |y| <= 2 * top
    requires Strided(y, 2 * p) && PairsOrdered(y, p)
    ensures Strided(Stages(y, p, top, h), 2 * p) && PairsOrdered(Stages(y, p, top, h), p)
    ensures CrossOrdered(Stages(y, p, top, h), p, 2 * h)
    decreases top - h
  {
    hide Stage, Strided, PairsOrdered;
    if h < top {
      DoublesNext(p, h);
      StagesOrdered(y, p, top, 2 * h);
      StageStrided(Stages(y, p, top, 2 * h), p, 2 * h);
      StageOrdered(Stages(y, p, top, 2 * h), p, 2 * h);
    }
  }

  lemma {:induction false} DoublesNext(a: nat, b: nat)
    requires Doubles(a, b)
    ensures Doubles(a, 2 * b) && Doubles(2 * a, 2 * b)
    decreases b - a
  {
    if a < b {
      DoublesNext(2 * a, b);
    }
  }

  // A whole pass: sorted with stride 2p in, sorted with stride p out.
  function Pass(x: seq<int>, p: nat, top: nat): (z: seq<int>)
    requires p > 0
    ensures |z| == |x|
  {
    Stages(Pairwise(x, p), p, top, p)
  }

  lemma PassSorts(x: seq<int>, p: nat, top: nat)
    requires Doubles(p, top) && |x| <= 2 * top && Strided(x, 2 * p)
    ensures Strided(Pass(x, p, top), p)
  {
    PairwiseStrided(x, p);
    StagesOrdered(Pairwise(x, p), p, top, p);
    var z := Pass(x, p, top);
    hide Stages, Pairwise, EvenBlock, Doubles;
    forall i, k | 0 <= i && k == i + p && k < |z|
      ensures z[i] <= z[k]
    {
      if !EvenBlock(i, p) {
        BlockStart(i, p);
        assert k == (i - p) + 2 * p;
      }
    }
  }
}
