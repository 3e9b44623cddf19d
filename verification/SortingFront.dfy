/**
 The order in which the sort really works (vendor-sntrup761/sntrup761.c:50-93): it visits
 the compare-exchanges of one pass position by position rather than distance by
 distance. The front says which stage of the network each cell of the array has reached
 while the code sweeps through it.
 */
module SortingFront {
  import opened SortingNetwork

  // ----- the front: how far the position-by-position sweep has taken each cell ----------------

  // With every comparison of positions before j made, and those of j at distances
  // above r, cell e of an even block has taken part in its stage of distance s.
  ghost predicate Reached(e: nat, s: nat, j: nat, r: nat) {
    e < j + s || (e == j + s && s > r)
  }

  // Cells of odd blocks are written once, when their position's turn is over.
  ghost predicate FrontOdd(x: seq<int>, y: seq<int>, p: nat, top: nat, j: nat)
    requires p > 0 && |x| == |y|
  {
    forall k: nat | k < |x| && !EvenBlock(k, p) ::
      x[k] == if k < j + p then Stages(y, p, top, p)[k] else y[k]
  }

  // Cells of even blocks advance one stage at a time.
  ghost predicate FrontEven(x: seq<int>, y: seq<int>, p: nat, top: nat, j: nat, r: nat)
    requires p > 0 && |x| == |y|
  {
    forall e: nat, h: nat | e < |x| && EvenBlock(e, p) && Doubles(p, h) && Doubles(h, top)
      && Reached(e, 2 * h, j, r) && (h == p || !Reached(e, h, j, r)) ::
      x[e] == Stages(y, p, top, h)[e]
  }

  ghost predicate Front(x: seq<int>, y: seq<int>, p: nat, top: nat, j: nat, r: nat) {
    0 < p && Doubles(p, top) && |x| == |y| <= 2 * top
    && FrontOdd(x, y, p, top, j) && FrontEven(x, y, p, top, j, r)
  }

  // Before anything is compared, every cell is at the network's input.
  lemma FrontStart(y: seq<int>, p: nat, top: nat)
    requires 0 < p && Doubles(p, top) && |y| <= 2 * top
    ensures Front(y, y, p, top, 0, 2 * top)
  {
    forall k: nat | k < |y| && !EvenBlock(k, p)
      ensures k >= p
    {
      BlockStart(k, p);
    }
    forall e: nat, h: nat | e < |y| && EvenBlock(e, p) && Doubles(p, h) && Doubles(h, top)
      && Reached(e, 2 * h, 0, 2 * top) && (h == p || !Reached(e, h, 0, 2 * top))
      ensures y[e] == Stages(y, p, top, h)[e]
    {
      UntouchedEven(y, p, top, h, e);
    }
  }

  // Stages whose partner cell lies outside leave a cell alone.
  lemma {:induction false} UntouchedEven(y: seq<int>, p: nat, top: nat, h: nat, e: nat)
    requires 0 < p && Doubles(p, h) && Doubles(h, top) && e < |y| && EvenBlock(e, p) && e < 2 * h
    ensures Stages(y, p, top, h)[e] == y[e]
    decreases top - h
  {
    hide Stage;
    if h < top {
      DoublesNext(p, h);
      UntouchedEven(y, p, top, 2 * h, e);
      StageAt(Stages(y, p, top, 2 * h), p, 2 * h, e);
    }
  }

  lemma {:induction false} UntouchedOdd(y: seq<int>, p: nat, top: nat, h: nat, k: nat)
    requires 0 < p && Doubles(p, h) && Doubles(h, top) && k < |y| && !EvenBlock(k, p) && k - p + 2 * h >= |y|
    ensures Stages(y, p, top, h)[k] == y[k]
    decreases top - h
  {
    hide Stage;
    if h < top {
      DoublesNext(p, h);
      UntouchedOdd(y, p, top, 2 * h, k);
      StageAt(Stages(y, p, top, 2 * h), p, 2 * h, k);
    }
  }

  // One compare-exchange (a, x[j + r]) moves the front by one stage.
  lemma FrontStep(x: seq<int>, y: seq<int>, p: nat, top: nat, j: nat, r: nat, a: int)
    requires Front(x, y, p, top, j, r) && EvenBlock(j, p)
    requires Doubles(p, r / 2) && r % 2 == 0 && Doubles(r, top) && j + r < |x|
    requires a == Stages(y, p, top, r)[j + p]
    ensures Front(x[j + r := Max(a, x[j + r])], y, p, top, j, r / 2)
    ensures Min(a, x[j + r]) == Stages(y, p, top, r / 2)[j + p]
  {
    hide Stages, EvenBlock, Stage;
    var h0 := r / 2;
    var e0 := j + r;
    var x' := x[e0 := Max(a, x[e0])];
    var before, after := Stages(y, p, top, r), Stages(y, p, top, h0);
    DoublesNext(p, h0);
    SameBlock(j, p, r);
    NextBlock(j, p);
    StagesUnfold(y, p, top, h0);
    DoublesTrans(p, r, top);
    assert x[e0] == before[e0] by {
      assert Reached(e0, 2 * r, j, r) && !Reached(e0, r, j, r);
    }
    StageAt(before, p, r, e0);
    StageAt(before, p, r, j + p);
    assert FrontOdd(x', y, p, top, j);
    forall e: nat, h: nat | e < |x'| && EvenBlock(e, p) && Doubles(p, h) && Doubles(h, top)
      && Reached(e, 2 * h, j, h0) && (h == p || !Reached(e, h, j, h0))
      ensures x'[e] == Stages(y, p, top, h)[e]
    {
      if e == e0 {
        HalfOrMore(h, h0, top);
        assert h == h0;
      } else {
        OtherCells(e, h, p, top, j, r);
      }
    }
  }

  lemma StagesUnfold(y: seq<int>, p: nat, top: nat, h: nat)
    requires 0 < p <= h && Doubles(2 * h, top)
    ensures Stages(y, p, top, h) == Stage(Stages(y, p, top, 2 * h), p, 2 * h)
  {
  }

  lemma HalfOrMore(h: nat, h0: nat, top: nat)
    requires Doubles(h, top) && Doubles(2 * h0, top) && h0 > 0
    ensures h == h0 || 2 * h <= h0 || h >= 2 * h0
  {
    if h0 <= h < 2 * h0 {
      assert Doubles(h0, top);
      DoublesGap(h0, h, top);
    } else if h < h0 < 2 * h {
      assert Doubles(h0, top);
      DoublesGap(h, h0, top);
    }
  }

  // Only the comparison just made changes what has been reached.
  lemma OtherCells(e: nat, h: nat, p: nat, top: nat, j: nat, r: nat)
    requires 0 < p && Doubles(p, h) && Doubles(h, top) && Doubles(r, top) && r % 2 == 0 && Doubles(p, r / 2)
    requires e != j + r
    requires Reached(e, 2 * h, j, r / 2) && (h == p || !Reached(e, h, j, r / 2))
    ensures Reached(e, 2 * h, j, r) && (h == p || !Reached(e, h, j, r))
  {
    if e == j + 2 * h && 2 * h <= r {
      HalfOrMore(h, r / 2, top);
      assert false;
    }
  }

  // All comparisons of j made: the front passes to j + 1.
  lemma FrontNext(x: seq<int>, y: seq<int>, p: nat, top: nat, j: nat, a: int)
    requires Front(x, y, p, top, j, p) && EvenBlock(j, p) && j + p < |x|
    requires a == Stages(y, p, top, p)[j + p]
    ensures Front(x[j + p := a], y, p, top, j + 1, 2 * top)
  {
    hide Stages, EvenBlock;
    NextBlock(j, p);
    var x' := x[j + p := a];
    forall k: nat | k < |x| && !EvenBlock(k, p)
      ensures x'[k] == if k < j + 1 + p then Stages(y, p, top, p)[k] else y[k]
    {
    }
    forall e: nat, h: nat | e < |x'| && EvenBlock(e, p) && Doubles(p, h) && Doubles(h, top)
      && Reached(e, 2 * h, j + 1, 2 * top) && (h == p || !Reached(e, h, j + 1, 2 * top))
      ensures x'[e] == Stages(y, p, top, h)[e]
    {
      assert Reached(e, 2 * h, j, p);
      assert h == p || !Reached(e, h, j, p);
    }
  }

  // Positions in odd blocks have no comparisons of their own.
  lemma FrontSkip(x: seq<int>, y: seq<int>, p: nat, top: nat, j: nat)
    requires Front(x, y, p, top, j, 2 * top) && !EvenBlock(j, p)
    ensures Front(x, y, p, top, j + 1, 2 * top)
  {
    hide Stages, EvenBlock;
    NextBlock(j, p);
    forall k: nat | k < |x| && !EvenBlock(k, p)
      ensures x[k] == if k < j + 1 + p then Stages(y, p, top, p)[k] else y[k]
    {
    }
    forall e: nat, h: nat | e < |x| && EvenBlock(e, p) && Doubles(p, h) && Doubles(h, top)
      && Reached(e, 2 * h, j + 1, 2 * top) && (h == p || !Reached(e, h, j + 1, 2 * top))
      ensures x[e] == Stages(y, p, top, h)[e]
    {
      DoublesNext(p, h);
      if e == j + 2 * h {
        SameBlock(j, p, 2 * h);
      }
      assert Reached(e, 2 * h, j, 2 * top);
    }
  }

  lemma {:induction false} FrontSkipBlock(x: seq<int>, y: seq<int>, p: nat, top: nat, i: nat, n: nat)
    requires Front(x, y, p, top, i, 2 * top) && n <= p && !EvenBlock(i, p)
    requires forall k: nat | i <= k < i + p :: !EvenBlock(k, p)
    ensures Front(x, y, p, top, i + n, 2 * top)
    decreases n
  {
    hide Front, EvenBlock;
    if n > 0 {
      FrontSkipBlock(x, y, p, top, i, n - 1);
      FrontSkip(x, y, p, top, i + n - 1);
    }
  }

  // When no position is left with a comparison, the array is the network's output.
  lemma FrontEnd(x: seq<int>, y: seq<int>, p: nat, top: nat, j: nat)
    requires Front(x, y, p, top, j, 2 * top) && j + 2 * p >= |x|
    ensures x == Stages(y, p, top, p)
  {
    hide Stages, EvenBlock;
    forall k | 0 <= k < |x|
      ensures x[k] == Stages(y, p, top, p)[k]
    {
      if EvenBlock(k, p) {
        assert Doubles(p, p) && Reached(k, 2 * p, j, 2 * top);
      } else if k >= j + p {
        BlockStart(k, p);
        UntouchedOdd(y, p, top, p, k);
      }
    }
  }

  // Distances whose partner lies outside the array are never visited at j.
  lemma FrontEnter(x: seq<int>, y: seq<int>, p: nat, top: nat, j: nat, q: nat)
    requires Front(x, y, p, top, j, 2 * top) && Doubles(p, q) && Doubles(q, top) && j + 2 * q >= |x|
    requires EvenBlock(j, p) && j + p < |x|
    ensures Front(x, y, p, top, j, q)
    ensures x[j + p] == Stages(y, p, top, q)[j + p]
  {
    hide Stages, EvenBlock;
    NextBlock(j, p);
    UntouchedOdd(y, p, top, q, j + p);
    forall e: nat, h: nat | e < |x| && EvenBlock(e, p) && Doubles(p, h) && Doubles(h, top)
      && Reached(e, 2 * h, j, q) && (h == p || !Reached(e, h, j, q))
      ensures x[e] == Stages(y, p, top, h)[e]
    {
      FarDistance(q, h, top);
      assert Reached(e, 2 * h, j, 2 * top);
    }
  }

  // Distances above q are at least 2q.
  lemma FarDistance(h: nat, q: nat, top: nat)
    requires Doubles(h, top) && Doubles(q, top)
    ensures h <= q || h >= 2 * q
  {
    if q < h < 2 * q {
      DoublesGap(q, h, top);
    }
  }

  // ----- the first loop of a pass -----------------------------------------------------------------

  ghost predicate PairFront(x: seq<int>, y: seq<int>, p: nat, j: nat)
    requires p > 0
  {
    |x| == |y| && forall k: nat | k < |y| ::
      x[k] == if k < (if EvenBlock(k, p) then j else j + p) then Pairwise(y, p)[k] else y[k]
  }

  lemma PairStart(y: seq<int>, p: nat)
    requires p > 0
    ensures PairFront(y, y, p, 0)
  {
    forall k: nat | k < |y| && !EvenBlock(k, p)
      ensures k >= p
    {
      BlockStart(k, p);
    }
  }

  lemma PairStep(x: seq<int>, y: seq<int>, p: nat, j: nat)
    requires p > 0 && PairFront(x, y, p, j) && EvenBlock(j, p) && j + p < |y|
    ensures PairFront(x[j := Min(x[j], x[j + p])][j + p := Max(x[j], x[j + p])], y, p, j + 1)
  {
    hide Pairwise, EvenBlock, Min, Max;
    NextBlock(j, p);
    PairwiseAt(y, p, j);
    PairwiseAt(y, p, j + p);
    assert x[j] == y[j] && x[j + p] == y[j + p];
  }

  lemma PairSkip(x: seq<int>, y: seq<int>, p: nat, i: nat, j: nat)
    requires p > 0 && PairFront(x, y, p, i) && i <= j
    requires forall k: nat | i <= k < j :: !EvenBlock(k, p)
    ensures PairFront(x, y, p, j)
  {
    hide Pairwise;
    forall k: nat | k < |y| && !EvenBlock(k, p)
      ensures k < j + p ==> k < i + p
    {
      BlockStart(k, p);
    }
  }

  lemma PairEnd(x: seq<int>, y: seq<int>, p: nat, j: nat)
    requires p > 0 && PairFront(x, y, p, j) && j + p >= |y|
    ensures x == Pairwise(y, p)
  {
    forall k: nat | k < |y|
      ensures x[k] == Pairwise(y, p)[k]
    {
      PairwiseAt(y, p, k);
    }
  }
}
