/**
 Random short polynomials (vendor-sntrup761/sntrup761.c:76-90, 649-662): the low
 two bits of each random word mark it as a coefficient +-1 (the first w words) or
 0 (the rest), and sorting the words shuffles the marks.
 */
module ShortPoly {
  import opened MergeExchange
  import opened TwosComplement
  import opened Reciprocal
  import opened NtruCore

  const UINT32 := 0x1_0000_0000

  ghost predicate Uint32s(s: seq<int>) { forall i | 0 <= i < |s| :: 0 <= s[i] < UINT32 }

  // How many words carry a nonzero mark.
  function Marked(s: seq<int>): nat {
    if s == [] then 0 else Marked(s[..|s| - 1]) + if s[|s| - 1] % 4 == 1 then 0 else 1
  }

  lemma {:induction false} MarkedAppend(s: seq<int>, t: seq<int>)
    ensures Marked(s + t) == Marked(s) + Marked(t)
  {
    if t == [] {
      assert s + t == s;
    } else {
      MarkedAppend(s, t[..|t| - 1]);
      assert (s + t)[..|s + t| - 1] == s + t[..|t| - 1];
    }
  }

  // The marks depend on the words only, not on their order.
  lemma {:induction false} MarkedPermutes(s: seq<int>, t: seq<int>)
    requires multiset(s) == multiset(t)
    ensures Marked(s) == Marked(t)
    decreases |s|
  {
    assert |s| == |multiset(s)| == |multiset(t)| == |t|;
    if s != [] {
      var n := |s| - 1;
      var x := s[n];
      assert x in multiset(t);
      var i :| 0 <= i < |t| && t[i] == x;
      var t' := t[..i] + t[i + 1..];
      assert s == s[..n] + [x];
      assert t == t[..i] + [x] + t[i + 1..];
      assert multiset(s[..n]) == multiset(s) - multiset{x};
      assert multiset(t') == multiset(t) - multiset{x};
      MarkedPermutes(s[..n], t');
      MarkedAppend(t[..i], t[i + 1..]);
      MarkedAppend(t[..i] + [x], t[i + 1..]);
      MarkedAppend(t[..i], [x]);
      assert [x][..0] == [];
    }
  }

  lemma {:induction false} MarkedAll(s: seq<int>, k: nat)
    requires k <= |s|
    requires forall i | 0 <= i < |s| :: (s[i] % 4 == 1) == (i >= k)
    ensures Marked(s) == k
  {
    if k < |s| {
      MarkedAll(s[..|s| - 1], k);
    } else if s != [] {
      MarkedAll(s[..|s| - 1], k - 1);
    }
  }

  // The bits of a word as a signed number, and back.
  function AsInt32(x: int): int { if x >= INT32 then x - UINT32 else x }

  function AsUint32(x: int): int { if x < 0 then x + UINT32 else x }

  // x ^ 2^k for a word of k + 1 bits: the top bit flips.
  lemma {:induction false} XorTopBit(x: int, k: nat)
    requires 0 <= x < 2 * Pow2(k)
    ensures Xor(x, Pow2(k)) == if x < Pow2(k) then x + Pow2(k) else x - Pow2(k)
    decreases k
  {
    hide Xor;
    XorHalf(x, Pow2(k));
    if k > 0 {
      XorTopBit(x / 2, k - 1);
    } else {
      assert 1 / 2 == 0;
      XorZero(x / 2);
    }
  }

  // So x ^ 0x80000000 read as int32 is x - 2^31, and flipping the bit again undoes that.
  lemma FlipSign(x: int)
    ensures 0 <= x < UINT32 ==> AsInt32(Xor(x, INT32)) == x - INT32
    ensures -INT32 <= x < INT32 ==> Xor(AsUint32(x), INT32) == x + INT32
  {
    hide Xor;
    Pow31();
    if 0 <= x < UINT32 { XorTopBit(x, 31); }
    if -INT32 <= x < INT32 { XorTopBit(AsUint32(x), 31); }
  }

  // crypto_sort_uint32: the words between the two loops are read as int32.
  method SortUint32(x: array<int>)
    requires Uint32s(x[..])
    modifies x
    ensures Uint32s(x[..])
    ensures multiset(x[..]) == multiset(old(x[..]))
    ensures Sorted(x[..])
  {
    ghost var s := x[..];
    for j := 0 to x.Length
      invariant forall k | 0 <= k < x.Length :: x[k] == if k < j then s[k] - INT32 else s[k]
    {
      FlipSign(x[j]);
      x[j] := AsInt32(Xor(x[j], INT32));
    }
    ghost var y := x[..];
    assert y == Shifted(s, -INT32);
    SortInt32(x);
    ghost var z := x[..];
    assert forall k | 0 <= k < |z| :: -INT32 <= z[k] < INT32 by { SameValues(y, z); }
    for j := 0 to x.Length
      invariant forall k | 0 <= k < x.Length :: x[k] == if k < j then z[k] + INT32 else z[k]
    {
      FlipSign(x[j]);
      x[j] := Xor(AsUint32(x[j]), INT32);
    }
    assert x[..] == Shifted(z, INT32);
    ShiftedPermutes(y, z, INT32);
    assert Shifted(y, INT32) == s;
  }

  lemma SameValues(s: seq<int>, t: seq<int>)
    requires multiset(s) == multiset(t)
    ensures forall k | 0 <= k < |t| :: t[k] in s
  {
    forall k | 0 <= k < |t| ensures t[k] in s { assert t[k] in multiset(t); }
  }

  function Shifted(s: seq<int>, d: int): (t: seq<int>)
    ensures |t| == |s|
  {
    seq(|s|, i requires 0 <= i < |s| => s[i] + d)
  }

  lemma ShiftedConcat(s: seq<int>, t: seq<int>, d: int)
    ensures Shifted(s + t, d) == Shifted(s, d) + Shifted(t, d)
  {
  }

  lemma ShiftedOne(x: int, d: int)
    ensures Shifted([x], d) == [x + d]
  {
  }

  lemma {:induction false} ShiftedPermutes(s: seq<int>, t: seq<int>, d: int)
    requires multiset(s) == multiset(t)
    ensures multiset(Shifted(s, d)) == multiset(Shifted(t, d))
    decreases |s|
  {
    hide Shifted;
    assert |s| == |multiset(s)| == |multiset(t)| == |t|;
    if s == [] {
      assert t == [];
    } else {
      var n := |s| - 1;
      var x := s[n];
      assert x in multiset(t);
      var i :| 0 <= i < |t| && t[i] == x;
      var a, b := t[..i], t[i + 1..];
      assert s == s[..n] + [x];
      assert t == a + [x] + b;
      assert multiset(s[..n]) == multiset(s) - multiset{x};
      assert multiset(a + b) == multiset(t) - multiset{x};
      ShiftedPermutes(s[..n], a + b, d);
      ShiftedOne(x, d);
      ShiftedConcat(s[..n], [x], d);
      ShiftedConcat(a, b, d);
      ShiftedConcat(a + [x], b, d);
      ShiftedConcat(a, [x], d);
    }
  }

  // in & -2: the low bit cleared, so the low two bits are 0 or 2.
  lemma ClearLow(x: int)
    ensures And(x, -2) == x - x % 2
  {
    AndHalf(x, -2);
    AndMask(x / 2);
    hide And;
  }

  // in & -3: the second bit cleared.
  lemma ClearSecond(x: int)
    ensures And(x, -3) == 4 * (x / 4) + x % 2
  {
    hide And;
    AndHalf(x, -3);
    ClearLow(x / 2);
    Quarters(x, And(x, -3));
  }

  lemma Quarters(x: int, y: int)
    requires y / 2 == x / 2 - x / 2 % 2 && y % 2 == x % 2
    ensures y == 4 * (x / 4) + x % 2
  {
    assert x / 4 == x / 2 / 2;
  }

  // x | 1: the low bit set.
  lemma OrOne(x: int)
    ensures Or(x, 1) == x - x % 2 + 1
  {
    hide And;
    NotHalf(x);
    ClearLow(Not(x));
  }

  ghost predicate EvenWord(x: int) { 0 <= x < UINT32 && x % 2 == 0 }

  ghost predicate ZeroWord(x: int) { 0 <= x < UINT32 && x % 4 == 1 }

  // The mark that word k gets: its lowest bit cleared, or its low two bits set to 01.
  function MarkedWord(x: int, k: int): int { if k < W then x - x % 2 else 4 * (x / 4) + 1 }

  function WordsOf(input: seq<int>): (s: seq<int>)
    ensures |s| == |input|
  {
    seq(|input|, k requires 0 <= k < |input| => MarkedWord(input[k], k))
  }

  lemma MarkEven(x: int)
    requires 0 <= x < UINT32
    ensures And(x, -2) == x - x % 2 && EvenWord(x - x % 2)
  {
    hide And;
    ClearLow(x);
  }

  lemma LowBits(q: int, b: int)
    requires b == 0 || b == 1
    ensures 4 * q + b - (4 * q + b) % 2 + 1 == 4 * q + 1 && (4 * q + 1) % 4 == 1
  {
    var h := 2 * q;
    assert 4 * q == 2 * h && (2 * h + b) % 2 == b;
  }

  lemma MarkZero(x: int)
    requires 0 <= x < UINT32
    ensures Or(And(x, -3), 1) == 4 * (x / 4) + 1 && ZeroWord(4 * (x / 4) + 1)
  {
    hide And, Or;
    ClearSecond(x);
    OrOne(And(x, -3));
    LowBits(x / 4, x % 2);
  }

  // What the first two loops leave: w even words, then words ending in 01.
  ghost predicate MarkedWords(s: seq<int>) {
    |s| == P && forall k | 0 <= k < P :: if k < W then EvenWord(s[k]) else ZeroWord(s[k])
  }

  method MarkWords(input: seq<int>, L: array<int>)
    requires |input| == P && Uint32s(input) && L.Length == P
    modifies L
    ensures L[..] == WordsOf(input) && MarkedWords(L[..])
  {
    hide And, Or, EvenWord, ZeroWord;
    for i := 0 to W
      invariant forall k | 0 <= k < i :: L[k] == MarkedWord(input[k], k) && EvenWord(L[k])
    {
      MarkEven(input[i]);
      L[i] := And(input[i], -2);
    }
    for i := W to P
      invariant forall k | 0 <= k < i ::
        L[k] == MarkedWord(input[k], k) && if k < W then EvenWord(L[k]) else ZeroWord(L[k])
    {
      MarkZero(input[i]);
      L[i] := Or(And(input[i], -3), 1);
    }
  }

  // The low two bits of each word, as a coefficient.
  function CoefficientsOf(s: seq<int>): (out: seq<int>)
    ensures |out| == |s|
  {
    seq(|s|, i requires 0 <= i < |s| => s[i] % 4 - 1)
  }

  // out[i] = (L[i] & 3) - 1
  method ReadMarks(L: array<int>) returns (out: seq<int>)
    requires forall i | 0 <= i < L.Length :: L[i] % 4 != 3
    ensures out == CoefficientsOf(L[..]) && Ternary(out) && Weight(out) == Marked(L[..])
  {
    out := [];
    for i := 0 to L.Length
      invariant |out| == i && forall k | 0 <= k < i :: out[k] == L[k] % 4 - 1
    {
      out := out + [L[i] % 4 - 1];
    }
    assert out == CoefficientsOf(L[..]);
    MarksWeigh(L[..]);
  }

  lemma {:induction false} MarksWeigh(s: seq<int>)
    requires forall i | 0 <= i < |s| :: s[i] % 4 != 3
    ensures Weight(CoefficientsOf(s)) == Marked(s) && Ternary(CoefficientsOf(s))
  {
    if s != [] {
      var n := |s| - 1;
      MarksWeigh(s[..n]);
      assert CoefficientsOf(s)[..n] == CoefficientsOf(s[..n]);
    }
  }

  // out lists the marks of the words in the order of the marked words.
  ghost predicate Shuffles(input: seq<int>, out: seq<int>) {
    exists s :: Sorted(s) && multiset(s) == multiset(WordsOf(input)) && out == CoefficientsOf(s)
  }

  // Equal words cannot be told apart, so the words alone decide the polynomial.
  lemma ShuffleIsUnique(input: seq<int>, a: seq<int>, b: seq<int>)
    requires Shuffles(input, a) && Shuffles(input, b)
    ensures a == b
  {
    var s :| Sorted(s) && multiset(s) == multiset(WordsOf(input)) && a == CoefficientsOf(s);
    var t :| Sorted(t) && multiset(t) == multiset(WordsOf(input)) && b == CoefficientsOf(t);
    SortedIsUnique(s, t);
  }

  lemma LargestLast(s: seq<int>, t: seq<int>)
    requires Sorted(s) && multiset(s) == multiset(t) && |s| == |t| > 0
    ensures t[|t| - 1] <= s[|s| - 1]
  {
    SameValues(s, t);
    var k :| 0 <= k < |s| && s[k] == t[|t| - 1];
    assert s[k] <= s[|s| - 1];
  }

  lemma WithoutLast(s: seq<int>)
    requires |s| > 0
    ensures multiset(s[..|s| - 1]) == multiset(s) - multiset{s[|s| - 1]}
  {
    assert s == s[..|s| - 1] + [s[|s| - 1]];
  }

  lemma {:induction false} SortedIsUnique(s: seq<int>, t: seq<int>)
    requires Sorted(s) && Sorted(t) && multiset(s) == multiset(t)
    ensures s == t
    decreases |s|
  {
    hide Sorted;
    assert |s| == |multiset(s)| == |multiset(t)| == |t|;
    if s != [] {
      var n := |s| - 1;
      LargestLast(s, t);
      LargestLast(t, s);
      WithoutLast(s);
      WithoutLast(t);
      SortedPrefix(s, n);
      SortedPrefix(t, n);
      SortedIsUnique(s[..n], t[..n]);
      assert s == s[..n] + [s[n]] && t == t[..n] + [t[n]];
    }
  }

  lemma SortedPrefix(s: seq<int>, n: nat)
    requires Sorted(s) && n <= |s|
    ensures Sorted(s[..n])
  {
  }

  // Exactly w coefficients are nonzero, and all of those are +-1.
  method ShortFromList(input: seq<int>) returns (out: seq<int>)
    requires |input| == P && Uint32s(input)
    ensures |out| == P && Ternary(out) && Weight(out) == W
    ensures Shuffles(input, out)
  {
    hide Marked, Weight, Ternary, MarkedWords, Uint32s, WordsOf, CoefficientsOf, Sorted;
    var L := new int[P];
    MarkWords(input, L);
    ghost var s := L[..];
    WordMarks(s);
    SortUint32(L);
    MarkedPermutes(s, L[..]);
    MarksKept(s, L[..]);
    out := ReadMarks(L);
  }

  lemma WordMarks(s: seq<int>)
    requires MarkedWords(s)
    ensures Marked(s) == W && Uint32s(s)
  {
    MarkedAll(s, W);
  }

  lemma MarksKept(s: seq<int>, t: seq<int>)
    requires multiset(s) == multiset(t) && MarkedWords(s)
    ensures forall i | 0 <= i < |t| :: t[i] % 4 != 3
  {
    forall i | 0 <= i < |t|
      ensures t[i] % 4 != 3
    {
      assert t[i] in multiset(t);
      assert t[i] in s;
    }
  }
}
