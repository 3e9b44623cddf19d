/**
 The code of the data-oblivious sort (vendor-sntrup761/sntrup761.c:13-98): it sorts, in
 place, in bounds, and permutes.
 */
module MergeExchange {
  import opened TwosComplement
  import opened SortingNetwork
  import opened SortingFront

  // ----- the code -----------------------------------------------------------------------------------

  // A block of even number starts at i.
  ghost predicate BlockHead(i: nat, p: nat)
    requires p > 0
  {
    forall k: nat | i <= k < i + p :: EvenBlock(k, p)
  }

  lemma BlockAdvance(i: nat, p: nat)
    requires p > 0 && BlockHead(i, p)
    ensures BlockHead(i + 2 * p, p)
    ensures forall k: nat | i + p <= k < i + 2 * p :: !EvenBlock(k, p)
  {
    forall k: nat | i + 2 * p <= k < i + 3 * p
      ensures EvenBlock(k, p)
    {
      SameBlock(k - 2 * p, p, 2 * p);
    }
    forall k: nat | i + p <= k < i + 2 * p
      ensures !EvenBlock(k, p)
    {
      NextBlock(k - p, p);
    }
  }

  // Exchanging two cells, or not, permutes the sequence.
  lemma ExchangePermutes(s: seq<int>, i: nat, k: nat)
    requires i < k < |s|
    ensures multiset(s[i := Min(s[i], s[k])][k := Max(s[i], s[k])]) == multiset(s)
  {
  }

  ghost predicate IsInt32(a: int) { -INT32 <= a < INT32 }

  ghost predicate Int32s(s: seq<int>) { forall i | 0 <= i < |s| :: IsInt32(s[i]) }

  // int32_MINMAX(a, b)
  method MinMax(a: int, b: int) returns (lo: int, hi: int)
    requires IsInt32(a) && IsInt32(b)
    ensures lo == Min(a, b) && hi == Max(a, b)
  {
    MinMaxExact(a, b);
    hide Xor, And, ShiftRight;
    var ab := Xor(b, a);
    var c := b - a;
    c := Xor(c, And(ab, Xor(c, b)));
    c := ShiftRight(c, 31);
    c := And(c, ab);
    lo := Xor(a, c);
    hi := Xor(b, c);
  }

  // int32_MINMAX(x[i], x[k])
  method CompareExchange(x: array<int>, i: nat, k: nat)
    requires i < k < x.Length && Int32s(x[..])
    modifies x
    ensures Int32s(x[..])
    ensures x[..] == old(x[..])[i := Min(old(x[i]), old(x[k]))][k := Max(old(x[i]), old(x[k]))]
    ensures multiset(x[..]) == multiset(old(x[..]))
  {
    ExchangePermutes(x[..], i, k);
    ghost var s := x[..];
    assert IsInt32(s[i]) && IsInt32(s[k]);
    var lo, hi := MinMax(x[i], x[k]);
    x[i], x[k] := lo, hi;
    assert x[..] == s[i := lo][k := hi];
  }

  // for (j = lo; j < hi; ++j) int32_MINMAX(x[j], x[j+p]), within one even block
  method PairRun(x: array<int>, ghost y: seq<int>, p: nat, lo: nat, hi: nat)
    requires p > 0 && lo <= hi && hi + p <= x.Length && |y| == x.Length
    requires forall k: nat | lo <= k < hi :: EvenBlock(k, p)
    requires PairFront(x[..], y, p, lo) && Int32s(x[..])
    modifies x
    ensures Int32s(x[..])
    ensures PairFront(x[..], y, p, hi)
    ensures multiset(x[..]) == multiset(old(x[..]))
  {
    hide PairFront, EvenBlock, Min, Max, Int32s;
    var j := lo;
    while j < hi
      invariant lo <= j <= hi && PairFront(x[..], y, p, j) && Int32s(x[..])
      invariant multiset(x[..]) == multiset(old(x[..]))
    {
      PairStep(x[..], y, p, j);
      CompareExchange(x, j, j + p);
      j := j + 1;
    }
  }

  method FirstLoop(x: array<int>, p: nat)
    requires p > 0 && Int32s(x[..])
    modifies x
    ensures Int32s(x[..])
    ensures x[..] == Pairwise(old(x[..]), p)
    ensures multiset(x[..]) == multiset(old(x[..]))
  {
    hide Pairwise, PairFront, EvenBlock, Int32s;
    var n := x.Length;
    ghost var y := x[..];
    var i := 0;
    PairStart(y, p);
    FirstHead(p);
    while i + 2 * p <= n
      invariant BlockHead(i, p) && PairFront(x[..], y, p, i) && Int32s(x[..])
      invariant multiset(x[..]) == multiset(y)
    {
      PairRun(x, y, p, i, i + p);
      BlockAdvance(i, p);
      PairSkip(x[..], y, p, i + p, i + 2 * p);
      i := i + 2 * p;
    }
    if i < n - p {
      PairRun(x, y, p, i, n - p);
      i := n - p;
    }
    PairEnd(x[..], y, p, i);
  }

  // Holding x[j + p] in a register does not change the multiset that is permuted.
  lemma RegisterPermutes(s: seq<int>, i: nat, k: nat, a: int)
    requires i < k < |s|
    ensures multiset(s[k := Max(a, s[k])][i := Min(a, s[k])]) == multiset(s[i := a])
  {
    var t := s[i := a];
    ExchangePermutes(t, i, k);
    assert s[k := Max(a, s[k])][i := Min(a, s[k])] == t[i := Min(t[i], t[k])][k := Max(t[i], t[k])];
  }

  // int32_MINMAX(a, x[k]), where a stands for cell i
  method RegisterExchange(x: array<int>, a: int, ghost i: nat, k: nat) returns (a': int)
    requires i < k < x.Length && Int32s(x[..]) && IsInt32(a)
    modifies x
    ensures Int32s(x[..]) && IsInt32(a')
    ensures a' == Min(a, old(x[k])) && x[..] == old(x[..])[k := Max(a, old(x[k]))]
    ensures multiset(x[..][i := a']) == multiset(old(x[..])[i := a])
  {
    RegisterPermutes(x[..], i, k, a);
    ghost var s := x[..];
    assert IsInt32(s[k]);
    var lo, hi := MinMax(a, x[k]);
    a', x[k] := lo, hi;
    assert x[..] == s[k := hi];
  }

  // a = x[j+p]; for (r = q; r > p; r >>= 1) MINMAX(a, x[j+r]); x[j+p] = a;
  method MergeOne(x: array<int>, ghost y: seq<int>, p: nat, q: nat, ghost top: nat, j: nat)
    requires Front(x[..], y, p, top, j, 2 * top) && EvenBlock(j, p)
    requires 0 < p < q && Doubles(p, q) && Doubles(q, top) && j + q < x.Length <= j + 2 * q
    requires |y| == x.Length && Int32s(x[..])
    modifies x
    ensures Int32s(x[..])
    ensures Front(x[..], y, p, top, j + 1, 2 * top)
    ensures multiset(x[..]) == multiset(old(x[..]))
  {
    hide Front, EvenBlock, Stages, Min, Max, Doubles, Int32s, IsInt32;
    DoublesOrder(p, q);
    FrontEnter(x[..], y, p, top, j, q);
    ghost var before := multiset(x[..]);
    var a := x[j + p];
    assert x[..][j + p := a] == x[..];
    CellInt32(x[..], j + p);
    var r: nat := q;
    while r > p
      invariant p <= r <= q && Doubles(p, r) && Doubles(r, top)
      invariant Front(x[..], y, p, top, j, r)
      invariant a == Stages(y, p, top, r)[j + p]
      invariant multiset(x[..][j + p := a]) == before
      invariant Int32s(x[..]) && IsInt32(a)
    {
      DoublesHalf(p, r);
      HalfDoubles(r, top);
      FrontStep(x[..], y, p, top, j, r, a);
      FartherThan(p, r);
      a := RegisterExchange(x, a, j + p, j + r);
      r := r / 2;
    }
    FrontNext(x[..], y, p, top, j, a);
    ghost var s := x[..];
    x[j + p] := a;
    assert x[..] == s[j + p := a];
    UpdateInt32(s, j + p, a);
  }

  lemma CellInt32(s: seq<int>, i: nat)
    requires Int32s(s) && i < |s|
    ensures IsInt32(s[i])
  {
  }

  lemma UpdateInt32(s: seq<int>, i: nat, a: int)
    requires Int32s(s) && i < |s| && IsInt32(a)
    ensures Int32s(s[i := a])
  {
  }

  lemma HalfDoubles(r: nat, top: nat)
    requires r % 2 == 0 && Doubles(r, top)
    ensures Doubles(r / 2, top)
  {
  }

  lemma FartherThan(p: nat, r: nat)
    requires Doubles(p, r) && p < r
    ensures r >= 2 * p
  {
  }

  // The second half of a pass: the comparisons at distances top, ..., 2p.
  method SecondLoop(x: array<int>, ghost y: seq<int>, p: nat, top: nat)
    requires 0 < p && Doubles(p, top) && x[..] == y && x.Length <= 2 * top && Int32s(x[..])
    modifies x
    ensures Int32s(x[..])
    ensures x[..] == Stages(y, p, top, p)
    ensures multiset(x[..]) == multiset(old(x[..]))
  {
    hide Front, EvenBlock, Stages, Doubles, Int32s;
    var n := x.Length;
    var i: nat, j: nat := 0, 0;
    DoublesOrder(p, top);
    FrontStart(y, p, top);
    FirstHead(p);
    DoublesRefl(top);
    var q: nat := top;
    while q > p
      invariant p <= q && Doubles(p, q) && Doubles(q, top)
      invariant BlockHead(i, p) && i <= j < i + p
      invariant n - 2 * q <= j && n - 2 * q < i + p && (j == i || j == n - 2 * q)
      invariant Front(x[..], y, p, top, j, 2 * top)
      invariant multiset(x[..]) == multiset(y) && Int32s(x[..])
    {
      DoublesHalf(p, q);
      HalfDoubles(q, top);
      label done: {
        if j != i {
          while true
            invariant BlockHead(i, p) && i <= j < i + p && n - 2 * q <= j <= n - q
            invariant Front(x[..], y, p, top, j, 2 * top)
            invariant multiset(x[..]) == multiset(y) && Int32s(x[..])
            decreases n - j
          {
            if j == n - q {
              break done;
            }
            MergeOne(x, y, p, q, top, j);
            j := j + 1;
            if j == i + p {
              BlockAdvance(i, p);
              FrontSkipBlock(x[..], y, p, top, i + p, p);
              i := i + 2 * p;
              break;
            }
          }
        }
        while i + p <= n - q
          invariant BlockHead(i, p) && n - 2 * q <= i
          invariant Front(x[..], y, p, top, i, 2 * top)
          invariant multiset(x[..]) == multiset(y) && Int32s(x[..])
        {
          j := i;
          while j < i + p
            invariant i <= j <= i + p
            invariant Front(x[..], y, p, top, j, 2 * top)
            invariant multiset(x[..]) == multiset(y) && Int32s(x[..])
          {
            MergeOne(x, y, p, q, top, j);
            j := j + 1;
          }
          BlockAdvance(i, p);
          FrontSkipBlock(x[..], y, p, top, i + p, p);
          i := i + 2 * p;
        }
        // now i + p > n - q
        j := i;
        while j < n - q
          invariant i <= j && (j <= n - q || j == i)
          invariant Front(x[..], y, p, top, j, 2 * top)
          invariant multiset(x[..]) == multiset(y) && Int32s(x[..])
        {
          MergeOne(x, y, p, q, top, j);
          j := j + 1;
        }
      }
      q := q / 2;
    }
    FrontEnd(x[..], y, p, top, j);
  }

  lemma FirstHead(p: nat)
    requires p > 0
    ensures BlockHead(0, p)
  {
  }

  lemma DoublesRefl(a: nat)
    requires a > 0
    ensures Doubles(a, a)
  {
  }

  lemma DoublesOrder(a: nat, b: nat)
    requires Doubles(a, b)
    ensures 0 < a <= b
  {
  }

  ghost predicate Sorted(s: seq<int>) { forall i, k | 0 <= i <= k < |s| :: s[i] <= s[k] }

  lemma {:induction false} AdjacentSorted(s: seq<int>, i: nat, k: nat)
    requires Strided(s, 1) && i <= k < |s|
    ensures s[i] <= s[k]
    decreases k - i
  {
    if i < k {
      AdjacentSorted(s, i, k - 1);
    }
  }

  // crypto_sort_int32
  method SortInt32(x: array<int>)
    requires Int32s(x[..])
    modifies x
    ensures Int32s(x[..])
    ensures multiset(x[..]) == multiset(old(x[..]))
    ensures Sorted(x[..])
  {
    hide Pass, Stages, Pairwise, Doubles, Strided, Int32s;
    var n := x.Length;
    ghost var s := x[..];
    if n < 2 {
      return;
    }
    var top: nat := 1;
    DoublesRefl(1);
    while top < n - top
      invariant top >= 1 && Doubles(1, top) && x[..] == s
      decreases n - top
    {
      DoublesNext(1, top);
      top := top + top;
    }
    DoublesRefl(top);
    StridedVacuous(x[..], 2 * top);
    var p: nat := top;
    while p >= 1
      invariant p >= 1 ==> Doubles(1, p) && Doubles(p, top) && Strided(x[..], 2 * p)
      invariant p == 0 ==> Strided(x[..], 1)
      invariant multiset(x[..]) == multiset(s) && Int32s(x[..])
    {
      ghost var before := x[..];
      PassSorts(before, p, top);
      PassMeans(before, p, top);
      FirstLoop(x, p);
      SecondLoop(x, x[..], p, top);
      if p > 1 {
        DoublesHalf(1, p);
        HalfDoubles(p, top);
      }
      p := p / 2;
    }
    forall i, k | 0 <= i <= k < |x[..]|
      ensures x[..][i] <= x[..][k]
    {
      AdjacentSorted(x[..], i, k);
    }
  }

  lemma StridedVacuous(s: seq<int>, d: nat)
    requires |s| <= d
    ensures Strided(s, d)
  {
  }

  lemma PassMeans(x: seq<int>, p: nat, top: nat)
    requires p > 0
    ensures Pass(x, p, top) == Stages(Pairwise(x, p), p, top, p)
  {
  }
}
