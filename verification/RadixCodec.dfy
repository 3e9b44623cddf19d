/**
 The mixed-radix codec (vendor-sntrup761/sntrup761.c:218-340): Encode merges
 neighbouring digits, moving whole bytes out while the merged radix is 2^14 or
 more, and recurs on the halved list; Decode undoes it, with two size thresholds
 in place of Encode's loop.
 */
module RadixCodec {
  import opened ByteStrings
  import opened DivMod

  ghost predicate Radices(M: seq<int>) { forall i | 0 <= i < |M| :: 0 < M[i] < TWO14 }

  ghost predicate Digits(R: seq<int>, M: seq<int>) {
    |R| == |M| && forall i | 0 <= i < |M| :: 0 <= R[i] < M[i]
  }

  // ----- Encode -----------------------------------------------------------------------

  function CeilShift(m: int): int { (m + 255) / 256 }

  // The loop "while (m >= limit)": bytes emitted, what is left of r and of m.
  function EmitBytes(r: nat, m: int, limit: int): (s: Bytes)
    requires limit >= 2
    decreases m
  {
    if m < limit then [] else [(r % 256) as Byte] + EmitBytes(r / 256, CeilShift(m), limit)
  }

  function EmitRest(r: nat, m: int, limit: int): (s: nat)
    requires limit >= 2
    decreases m
  {
    if m < limit then r else EmitRest(r / 256, CeilShift(m), limit)
  }

  function EmitRadix(m: int, limit: int): (s: int)
    requires limit >= 2
    ensures s < limit
    ensures m > 0 ==> s > 0
    decreases m
  {
    if m < limit then m else EmitRadix(CeilShift(m), limit)
  }

  // Neighbouring digits r0, r1 with radices m0, m1 merge into r0 + r1*m0, of radix m0*m1.
  function PairValue(R: seq<int>, M: seq<int>): int
    requires |R| >= 2 && |M| >= 2
  {
    R[0] + R[1] * M[0]
  }

  function PairModulus(M: seq<int>): int
    requires |M| >= 2
  {
    M[1] * M[0]
  }

  function PairBytes(R: seq<int>, M: seq<int>): Bytes
    requires Digits(R, M)
  {
    if |M| < 2 then []
    else assert Digits(R[2..], M[2..]); MergeNat(R, M);
         EmitBytes(PairValue(R, M), PairModulus(M), TWO14) + PairBytes(R[2..], M[2..])
  }

  function PairDigits(R: seq<int>, M: seq<int>): (R2: seq<int>)
    requires Digits(R, M)
    ensures |R2| == (|M| + 1) / 2
  {
    if |M| < 2 then R
    else assert Digits(R[2..], M[2..]); MergeNat(R, M);
         [EmitRest(PairValue(R, M), PairModulus(M), TWO14)] + PairDigits(R[2..], M[2..])
  }

  function PairRadices(M: seq<int>): (M2: seq<int>)
    ensures |M2| == (|M| + 1) / 2
    ensures Radices(M) ==> Radices(M2)
  {
    if |M| < 2 then M
    else
      var m := PairModulus(M);
      assert Radices(M) ==> M[1] * M[0] > 0 && Radices(M[2..]);
      [EmitRadix(m, TWO14)] + PairRadices(M[2..])
  }

  lemma MergeNat(R: seq<int>, M: seq<int>)
    requires Digits(R, M) && |M| >= 2
    ensures 0 <= PairValue(R, M) < PairModulus(M)
  {
    Merge(R[0], R[1], M[0], M[1]);
  }

  // Two digits in one: the value is in range and both come back out.
  lemma Merge(r0: int, r1: int, m0: int, m1: int)
    requires 0 <= r0 < m0 && 0 <= r1 < m1
    ensures 0 <= r0 + r1 * m0 < m1 * m0
    ensures (r0 + r1 * m0) % m0 == r0 && (r0 + r1 * m0) / m0 == r1
  {
    assert r1 * m0 <= (m1 - 1) * m0 == m1 * m0 - m0;
    DivUnique(r0 + r1 * m0, m0, r1, r0);
  }

  function EncodeSpec(R: seq<int>, M: seq<int>): Bytes
    requires Digits(R, M)
    decreases |M|
  {
    if |M| == 0 then []
    else if |M| == 1 then EmitBytes(R[0], M[0], 2)
    else
      PairDigitsInRange(R, M);
      PairBytes(R, M) + EncodeSpec(PairDigits(R, M), PairRadices(M))
  }

  lemma {:induction false} EmitInRange(r: nat, m: int, limit: int)
    requires limit >= 2 && r < m
    ensures EmitRest(r, m, limit) < EmitRadix(m, limit)
    decreases m
  {
    if m >= limit {
      EmitInRange(r / 256, CeilShift(m), limit);
    }
  }

  lemma {:induction false} PairDigitsInRange(R: seq<int>, M: seq<int>)
    requires Digits(R, M)
    ensures Digits(PairDigits(R, M), PairRadices(M))
  {
    if |M| >= 2 {
      MergeNat(R, M);
      EmitInRange(PairValue(R, M), PairModulus(M), TWO14);
      PairDigitsInRange(R[2..], M[2..]);
    }
  }

  // ----- Decode -----------------------------------------------------------------------

  // The bytes a merged radix m stands for, by Decode's two thresholds.
  function Bottom(m: int): (n: nat) {
    if m > 256 * 16383 then 2 else if m >= TWO14 then 1 else 0
  }

  function BottomRadix(m: int): (t: nat) {
    if m > 256 * 16383 then 256 * 256 else if m >= TWO14 then 256 else 1
  }

  function ShrunkRadix(m: int): int {
    if m > 256 * 16383 then CeilShift(CeilShift(m)) else if m >= TWO14 then CeilShift(m) else m
  }

  function BottomValue(S: Bytes, m: int): (v: nat)
    requires |S| >= Bottom(m)
    ensures v < BottomRadix(m)
  {
    if m > 256 * 16383 then (S[0] as int) + 256 * (S[1] as int)
    else if m >= TWO14 then S[0] as int
    else 0
  }

  function LastBytes(m: int): (n: nat) { if m == 1 then 0 else if m <= 256 then 1 else 2 }

  function PairLength(M: seq<int>): nat {
    if |M| < 2 then 0 else Bottom(PairModulus(M)) + PairLength(M[2..])
  }

  // How many bytes Decode consumes.
  function EncodedLength(M: seq<int>): nat
    requires Radices(M)
    decreases |M|
  {
    if |M| == 0 then 0
    else if |M| == 1 then LastBytes(M[0])
    else PairLength(M) + EncodedLength(PairRadices(M))
  }

  function SplitPairs(S: Bytes, R2: seq<int>, M: seq<int>): (R: seq<int>)
    requires Radices(M) && |S| >= PairLength(M) && |R2| == (|M| + 1) / 2
    ensures |R| == |M|
    decreases |M|
  {
    if |M| < 2 then R2
    else
      var m := PairModulus(M);
      var r := BottomValue(S, m) + BottomRadix(m) * R2[0];
      [r % M[0], (r / M[0]) % M[1]] + SplitPairs(S[Bottom(m)..], R2[1..], M[2..])
  }

  function LastValue(S: Bytes, m: int): (v: nat)
    requires 0 < m && |S| >= LastBytes(m)
    ensures v < m
  {
    if m == 1 then 0
    else if m <= 256 then (S[0] as int) % m
    else ((S[0] as int) + 256 * (S[1] as int)) % m
  }

  function DecodeSpec(S: Bytes, M: seq<int>): (R: seq<int>)
    requires Radices(M) && |S| >= EncodedLength(M)
    ensures |R| == |M|
    decreases |M|
  {
    if |M| == 0 then []
    else if |M| == 1 then
      [LastValue(S, M[0])]
    else
      SplitPairs(S, DecodeSpec(S[PairLength(M)..], PairRadices(M)), M)
  }

  // ----- the round trip ------------------------------------------------------------------

  // Decode's thresholds agree with Encode's loop on every product of two radices.
  lemma Thresholds(r: nat, m: int)
    requires r < m < TWO14 * TWO14
    ensures EmitRadix(m, TWO14) == ShrunkRadix(m)
    ensures |EmitBytes(r, m, TWO14)| == Bottom(m)
    ensures r == BottomValue(EmitBytes(r, m, TWO14), m) + BottomRadix(m) * EmitRest(r, m, TWO14)
  {
    var m1 := CeilShift(m);
    var m2 := CeilShift(m1);
    if m >= TWO14 {
      assert EmitBytes(r, m, TWO14) == [(r % 256) as Byte] + EmitBytes(r / 256, m1, TWO14);
      if m1 >= TWO14 {
        assert m2 < TWO14;
        assert EmitBytes(r / 256, m1, TWO14) == [(r / 256 % 256) as Byte] + EmitBytes(r / 256 / 256, m2, TWO14);
        assert EmitBytes(r / 256 / 256, m2, TWO14) == [];
      }
    }
  }

  lemma ThresholdRadix(m: int)
    requires 0 < m < TWO14 * TWO14
    ensures EmitRadix(m, TWO14) == ShrunkRadix(m)
  {
    Thresholds(0, m);
  }

  lemma LastDigit(r: nat, m: int)
    requires r < m < TWO14
    ensures |EmitBytes(r, m, 2)| == LastBytes(m)
    ensures LastBytes(m) == 0 ==> r == 0
    ensures LastBytes(m) == 1 ==> EmitBytes(r, m, 2)[0] as int == r
    ensures LastBytes(m) == 2 ==> (EmitBytes(r, m, 2)[0] as int) + 256 * (EmitBytes(r, m, 2)[1] as int) == r
  {
    var m1 := CeilShift(m);
    if m > 1 {
      assert EmitBytes(r, m, 2) == [(r % 256) as Byte] + EmitBytes(r / 256, m1, 2);
      if m1 > 1 {
        assert CeilShift(m1) == 1;
        assert EmitBytes(r / 256, m1, 2) == [(r / 256 % 256) as Byte] + EmitBytes(r / 256 / 256, 1, 2);
      }
    }
  }

  lemma ProductBelow(a: int, b: int)
    requires 0 < a < TWO14 && 0 < b < TWO14
    ensures 0 < a * b < TWO14 * TWO14
    ensures a * b == b * a
  {
    MulMono(a, TWO14 - 1, b);
    MulMono(b, TWO14 - 1, TWO14 - 1);
    assert 0 < a * b;
  }

  lemma BottomValuePrefix(S: Bytes, tail: Bytes, m: int)
    requires |S| == Bottom(m)
    ensures BottomValue(S + tail, m) == BottomValue(S, m)
    ensures (S + tail)[Bottom(m)..] == tail
  {
  }

  // The first pair of each list function.
  lemma FirstPair(R: seq<int>, M: seq<int>)
    requires Radices(M) && Digits(R, M) && |M| >= 2
    ensures Digits(R[2..], M[2..]) && Radices(M[2..])
    ensures 0 <= PairValue(R, M) < PairModulus(M)
    ensures PairBytes(R, M)
         == EmitBytes(PairValue(R, M), PairModulus(M), TWO14) + PairBytes(R[2..], M[2..])
    ensures PairDigits(R, M)
         == [EmitRest(PairValue(R, M), PairModulus(M), TWO14)] + PairDigits(R[2..], M[2..])
    ensures PairLength(M) == Bottom(PairModulus(M)) + PairLength(M[2..])
  {
    MergeNat(R, M);
    hide EmitBytes, EmitRest, Bottom;
  }

  lemma SplitFirst(S: Bytes, R2: seq<int>, M: seq<int>, r: int)
    requires Radices(M) && |M| >= 2 && |S| >= PairLength(M) && |R2| == (|M| + 1) / 2
    requires |S| >= Bottom(PairModulus(M))
    requires r == BottomValue(S, PairModulus(M)) + BottomRadix(PairModulus(M)) * R2[0]
    ensures |S[Bottom(PairModulus(M))..]| >= PairLength(M[2..])
    ensures SplitPairs(S, R2, M)
         == [r % M[0], (r / M[0]) % M[1]] + SplitPairs(S[Bottom(PairModulus(M))..], R2[1..], M[2..])
  {
    hide Bottom, BottomValue, BottomRadix;
  }

  // One merged pair comes back as its two digits.
  lemma SplitMerged(S: Bytes, rest: nat, R: seq<int>, M: seq<int>)
    requires Radices(M) && Digits(R, M) && |M| >= 2 && 0 <= PairValue(R, M)
    requires S == EmitBytes(PairValue(R, M), PairModulus(M), TWO14)
    requires rest == EmitRest(PairValue(R, M), PairModulus(M), TWO14)
    ensures |S| == Bottom(PairModulus(M))
    ensures var r := BottomValue(S, PairModulus(M)) + BottomRadix(PairModulus(M)) * rest;
            r == PairValue(R, M) && r % M[0] == R[0] && (r / M[0]) % M[1] == R[1]
  {
    hide Bottom, BottomValue, BottomRadix, EmitBytes, EmitRest;
    ProductBelow(M[0], M[1]);
    Merge(R[0], R[1], M[0], M[1]);
    Thresholds(PairValue(R, M), PairModulus(M));
    DivUnique(R[1], M[1], 0, R[1]);
  }

  lemma {:induction false} SplitUndoesPair(R: seq<int>, M: seq<int>, tail: Bytes)
    requires Radices(M) && Digits(R, M)
    ensures |PairBytes(R, M)| == PairLength(M)
    ensures SplitPairs(PairBytes(R, M) + tail, PairDigits(R, M), M) == R
    decreases |M|
  {
    if |M| >= 2 {
      hide EmitBytes, EmitRest, Bottom, BottomValue, BottomRadix, PairBytes, PairDigits, PairLength, SplitPairs,
           PairValue, PairModulus;
      FirstPair(R, M);
      SplitUndoesPair(R[2..], M[2..], tail);
      var b := EmitBytes(PairValue(R, M), PairModulus(M), TWO14);
      var d := EmitRest(PairValue(R, M), PairModulus(M), TWO14);
      var rest, R2 := PairBytes(R[2..], M[2..]), PairDigits(R, M);
      SplitMerged(b, d, R, M);
      assert PairBytes(R, M) + tail == b + (rest + tail);
      BottomValuePrefix(b, rest + tail, PairModulus(M));
      SplitFirst(b + (rest + tail), R2, M, PairValue(R, M));
      assert R2[1..] == PairDigits(R[2..], M[2..]);
      assert R == [R[0], R[1]] + R[2..];
    }
  }

  lemma LastRoundTrip(r: nat, m: int, tail: Bytes)
    requires r < m < TWO14
    ensures |EmitBytes(r, m, 2)| == LastBytes(m)
    ensures LastValue(EmitBytes(r, m, 2) + tail, m) == r
  {
    LastDigit(r, m);
    hide EmitBytes, LastBytes;
    DivUnique(r, m, 0, r);
  }

  lemma ShortRoundTrip(R: seq<int>, M: seq<int>, tail: Bytes)
    requires Radices(M) && Digits(R, M) && |M| < 2
    ensures |EncodeSpec(R, M)| == EncodedLength(M)
    ensures DecodeSpec(EncodeSpec(R, M) + tail, M) == R
  {
    hide EmitBytes, LastBytes, LastValue;
    if |M| == 1 {
      LastRoundTrip(R[0], M[0], tail);
    }
  }

  lemma EncodeUnfold(R: seq<int>, M: seq<int>)
    requires Radices(M) && Digits(R, M) && |M| >= 2
    ensures Digits(PairDigits(R, M), PairRadices(M)) && Radices(PairRadices(M))
    ensures EncodeSpec(R, M) == PairBytes(R, M) + EncodeSpec(PairDigits(R, M), PairRadices(M))
    ensures EncodedLength(M) == PairLength(M) + EncodedLength(PairRadices(M))
  {
    PairDigitsInRange(R, M);
    hide PairBytes, PairDigits, PairLength, PairRadices;
  }

  lemma DecodeUnfold(S: Bytes, M: seq<int>)
    requires Radices(M) && |M| >= 2 && Radices(PairRadices(M))
    requires |S| >= EncodedLength(M) == PairLength(M) + EncodedLength(PairRadices(M))
    ensures DecodeSpec(S, M) == SplitPairs(S, DecodeSpec(S[PairLength(M)..], PairRadices(M)), M)
  {
    hide PairLength, PairRadices, SplitPairs;
  }

  // Decode(Encode(R, M) ++ tail, M) = R, consuming exactly the bytes produced.
  lemma {:induction false} RoundTrip(R: seq<int>, M: seq<int>, tail: Bytes)
    requires Radices(M) && Digits(R, M)
    ensures |EncodeSpec(R, M)| == EncodedLength(M)
    ensures DecodeSpec(EncodeSpec(R, M) + tail, M) == R
    decreases |M|
  {
    hide *;
    if |M| < 2 {
      ShortRoundTrip(R, M, tail);
    } else {
      EncodeUnfold(R, M);
      var R2, M2 := PairDigits(R, M), PairRadices(M);
      RoundTrip(R2, M2, tail);
      var e, b := EncodeSpec(R2, M2), PairBytes(R, M);
      SplitUndoesPair(R, M, e + tail);
      assert EncodeSpec(R, M) + tail == b + (e + tail);
      assert (b + (e + tail))[PairLength(M)..] == e + tail;
      DecodeUnfold(b + (e + tail), M);
    }
  }

  // Decode of arbitrary bytes still yields digits in range.
  lemma {:induction false} SplitInRange(S: Bytes, R2: seq<int>, M: seq<int>)
    requires Radices(M) && |S| >= PairLength(M) && Digits(R2, PairRadices(M))
    ensures Digits(SplitPairs(S, R2, M), M)
    decreases |M|
  {
    if |M| >= 2 {
      var m := PairModulus(M);
      assert Digits(R2[1..], PairRadices(M[2..]));
      SplitInRange(S[Bottom(m)..], R2[1..], M[2..]);
    }
  }

  lemma {:induction false} DecodeInRange(S: Bytes, M: seq<int>)
    requires Radices(M) && |S| >= EncodedLength(M)
    ensures Digits(DecodeSpec(S, M), M)
    decreases |M|
  {
    if |M| >= 2 {
      DecodeInRange(S[PairLength(M)..], PairRadices(M));
      SplitInRange(S, DecodeSpec(S[PairLength(M)..], PairRadices(M)), M);
    }
  }

  // ----- the code --------------------------------------------------------------------

  // while (m >= limit) { *out++ = r; r >>= 8; m = (m + 255) >> 8; }
  method EmitLoop(r0: nat, m0: int, limit: int) returns (out: Bytes, r: nat, m: int)
    requires limit >= 2
    ensures out == EmitBytes(r0, m0, limit)
    ensures r == EmitRest(r0, m0, limit) && m == EmitRadix(m0, limit)
  {
    out, r, m := [], r0, m0;
    while m >= limit
      invariant EmitBytes(r0, m0, limit) == out + EmitBytes(r, m, limit)
      invariant EmitRest(r0, m0, limit) == EmitRest(r, m, limit)
      invariant EmitRadix(m0, limit) == EmitRadix(m, limit)
      decreases m
    {
      out := out + [(r % 256) as Byte];
      r := r / 256;
      m := CeilShift(m);
    }
  }

  lemma FirstRadix(M: seq<int>)
    requires |M| >= 2
    ensures PairRadices(M) == [EmitRadix(PairModulus(M), TWO14)] + PairRadices(M[2..])
  {
  }

  lemma PairAt(R: seq<int>, M: seq<int>)
    requires |R| >= 2 && |M| >= 2
    ensures PairValue(R, M) == R[0] + R[1] * M[0]
    ensures PairModulus(M) == M[1] * M[0] == M[0] * M[1]
  {
  }

  lemma LastPair(R: seq<int>, M: seq<int>)
    requires Digits(R, M) && |M| < 2
    ensures PairBytes(R, M) == [] && PairDigits(R, M) == R && PairRadices(M) == M && PairLength(M) == 0
  {
  }

  lemma Suffix(R: seq<int>, M: seq<int>, i: nat)
    requires Radices(M) && Digits(R, M) && i <= |M|
    ensures |R| == |M| && Digits(R[i..], M[i..]) && Radices(M[i..])
    ensures R[0..] == R && M[0..] == M
  {
  }

  // The state of one level of Encode after the pairs before index i.
  ghost predicate Encoding(R: seq<int>, M: seq<int>, out: Bytes, a: seq<int>, b: seq<int>, i: nat) {
    i % 2 == 0 && i <= |M| && |a| == |b| == i / 2 && Digits(R, M) && Digits(R[i..], M[i..])
    && PairBytes(R, M) == out + PairBytes(R[i..], M[i..])
    && PairDigits(R, M) == a + PairDigits(R[i..], M[i..])
    && PairRadices(M) == b + PairRadices(M[i..])
  }

  lemma EncodingStart(R: seq<int>, M: seq<int>)
    requires Radices(M) && Digits(R, M)
    ensures Encoding(R, M, [], [], [], 0)
  {
    Suffix(R, M, 0);
    hide PairBytes, PairDigits, PairRadices;
  }

  lemma EncodingStep(R: seq<int>, M: seq<int>, out: Bytes, a: seq<int>, b: seq<int>, i: nat)
    requires Radices(M) && Encoding(R, M, out, a, b, i) && i + 1 < |M|
    requires 0 <= R[i] + R[i + 1] * M[i]
    ensures var v, m := R[i] + R[i + 1] * M[i], M[i + 1] * M[i];
            Encoding(R, M, out + EmitBytes(v, m, TWO14), a + [EmitRest(v, m, TWO14)], b + [EmitRadix(m, TWO14)], i + 2)
  {
    hide PairBytes, PairDigits, PairRadices, EmitBytes, EmitRest, EmitRadix, PairLength, Bottom;
    var R', M' := R[i..], M[i..];
    Suffix(R, M, i);
    Suffix(R, M, i + 2);
    FirstPair(R', M');
    FirstRadix(M');
    assert R'[2..] == R[i + 2..] && M'[2..] == M[i + 2..];
  }

  // One level of Encode: merge neighbours into R2 and M2.
  method EncodePairs(R: seq<int>, M: seq<int>, R2: array<int>, M2: array<int>) returns (out: Bytes)
    requires Radices(M) && Digits(R, M) && |M| >= 2
    requires R2 != M2 && R2.Length == M2.Length == (|M| + 1) / 2
    modifies R2, M2
    ensures out == PairBytes(R, M)
    ensures R2[..] == PairDigits(R, M) && M2[..] == PairRadices(M)
  {
    hide EmitBytes, EmitRest, EmitRadix, PairBytes, PairDigits, PairRadices, Encoding;
    var len := |M|;
    out := [];
    var i := 0;
    EncodingStart(R, M);
    while i < len - 1
      invariant i % 2 == 0 && 0 <= i <= len
      invariant Encoding(R, M, out, R2[..i / 2], M2[..i / 2], i)
    {
      ghost var a, b := R2[..i / 2], M2[..i / 2];
      var m0 := M[i];
      PairNat(R, M, i);
      EncodingStep(R, M, out, a, b, i);
      var bytes, r, m := EmitLoop(R[i] + R[i + 1] * m0, M[i + 1] * m0, TWO14);
      out := out + bytes;
      R2[i / 2] := r;
      M2[i / 2] := m;
      assert R2[..i / 2 + 1] == a + [r] && M2[..i / 2 + 1] == b + [m];
      i := i + 2;
    }
    EncodingEnd(R, M, out, R2[..i / 2], M2[..i / 2], i);
    if i < len {
      R2[i / 2] := R[i];
      M2[i / 2] := M[i];
      assert R2[..] == R2[..i / 2] + [R[i]] && M2[..] == M2[..i / 2] + [M[i]];
    } else {
      assert R2[..] == R2[..i / 2] && M2[..] == M2[..i / 2];
    }
  }

  lemma PairNat(R: seq<int>, M: seq<int>, i: nat)
    requires Digits(R, M) && i + 1 < |M|
    ensures 0 <= R[i] + R[i + 1] * M[i]
  {
    Merge(R[i], R[i + 1], M[i], M[i + 1]);
  }

  lemma EncodingEnd(R: seq<int>, M: seq<int>, out: Bytes, a: seq<int>, b: seq<int>, i: nat)
    requires Encoding(R, M, out, a, b, i) && |M| <= i + 1
    ensures out == PairBytes(R, M)
    ensures PairDigits(R, M) == a + R[i..] && PairRadices(M) == b + M[i..]
    ensures i < |M| ==> R[i..] == [R[i]] && M[i..] == [M[i]]
    ensures i >= |M| ==> R[i..] == [] && M[i..] == []
  {
    LastPair(R[i..], M[i..]);
    hide PairBytes, PairDigits, PairRadices;
  }

  method Encode(R: seq<int>, M: seq<int>) returns (out: Bytes)
    requires Radices(M) && Digits(R, M)
    ensures out == EncodeSpec(R, M) && |out| == EncodedLength(M)
    decreases |M|
  {
    RoundTrip(R, M, []);
    hide PairBytes, PairDigits, PairRadices, EmitBytes, EmitRest, EmitRadix;
    out := [];
    if |M| == 1 {
      var r, m;
      out, r, m := EmitLoop(R[0], M[0], 2);
    }
    if |M| > 1 {
      var R2, M2 := new int[(|M| + 1) / 2], new int[(|M| + 1) / 2];
      out := EncodePairs(R, M, R2, M2);
      EncodeUnfold(R, M);
      var rest := Encode(R2[..], M2[..]);
      out := out + rest;
    }
  }

  lemma FirstShrunk(M: seq<int>)
    requires Radices(M) && |M| >= 2
    ensures 0 < PairModulus(M) < TWO14 * TWO14
    ensures PairRadices(M) == [ShrunkRadix(PairModulus(M))] + PairRadices(M[2..])
    ensures PairLength(M) == Bottom(PairModulus(M)) + PairLength(M[2..])
  {
    hide EmitRadix, ShrunkRadix, Bottom;
    FirstRadix(M);
    ProductBelow(M[0], M[1]);
    ThresholdRadix(PairModulus(M));
  }

  // How many bytes the pairs before index i take.
  ghost function Offset(M: seq<int>, i: nat): int
    requires i <= |M|
  {
    PairLength(M) - PairLength(M[i..])
  }

  // Cell k of the first pass: the bottom part of pair k, read at its offset.
  ghost predicate BottomCell(r: int, t: int, S: Bytes, M: seq<int>, k: nat)
    requires 2 * k + 1 < |M|
  {
    var m := PairModulus(M[2 * k..]);
    0 <= Offset(M, 2 * k) <= |S| && |S[Offset(M, 2 * k)..]| >= Bottom(m)
    && r == BottomValue(S[Offset(M, 2 * k)..], m) && t == BottomRadix(m)
  }

  lemma BottomCellAt(r: int, t: int, S: Bytes, M: seq<int>, k: nat)
    requires 2 * k + 1 < |M|
    requires 0 <= Offset(M, 2 * k) <= |S| && |S[Offset(M, 2 * k)..]| >= Bottom(PairModulus(M[2 * k..]))
    requires r == BottomValue(S[Offset(M, 2 * k)..], PairModulus(M[2 * k..]))
    requires t == BottomRadix(PairModulus(M[2 * k..]))
    ensures BottomCell(r, t, S, M, k)
  {
  }

  // The three branches of the first pass.
  method ReadBottom(S: Bytes, m: int) returns (r: int, t: int, S': Bytes, m': int)
    requires 0 < m && |S| >= Bottom(m)
    ensures r == BottomValue(S, m) && t == BottomRadix(m) && m' == ShrunkRadix(m)
    ensures S' == S[Bottom(m)..]
  {
    if m > 256 * 16383 {
      t := 256 * 256;
      r := (S[0] as int) + 256 * (S[1] as int);
      S' := S[2..];
      m' := CeilShift(CeilShift(m));
    } else if m >= 16384 {
      t := 256;
      r := S[0] as int;
      S' := S[1..];
      m' := CeilShift(m);
    } else {
      t := 1;
      r := 0;
      S' := S;
      m' := m;
    }
  }

  // What one turn of the first pass relies on.
  lemma BottomsNext(S0: Bytes, M: seq<int>, i: nat)
    requires Radices(M) && i + 1 < |M|
    requires 0 <= Offset(M, i) && Offset(M, i) + PairLength(M[i..]) <= |S0|
    ensures var m, S := M[i] * M[i + 1], S0[Offset(M, i)..];
            && m == PairModulus(M[i..]) && 0 < m && Bottom(m) <= |S|
            && PairRadices(M[i..]) == [ShrunkRadix(m)] + PairRadices(M[i + 2..])
            && 0 <= Offset(M, i + 2) && Offset(M, i + 2) + PairLength(M[i + 2..]) <= |S0|
            && S[Bottom(m)..] == S0[Offset(M, i + 2)..]
  {
    hide PairRadices, PairLength, Bottom, ShrunkRadix, PairModulus;
    var M' := M[i..];
    FirstShrunk(M');
    assert M'[2..] == M[i + 2..];
    PairAt(M', M');
  }

  method BottomTurn(S: Bytes, M: seq<int>, i: nat, bottomr: array<int>, bottomt: array<int>, M2: array<int>, ghost S0: Bytes)
    returns (rest: Bytes)
    requires i % 2 == 0 && i + 1 < |M| && 0 < M[i] * M[i + 1] == PairModulus(M[i..]) && Bottom(M[i] * M[i + 1]) <= |S|
    requires 0 <= Offset(M, i) <= |S0| && S == S0[Offset(M, i)..]
    requires bottomr != bottomt && bottomr != M2 && bottomt != M2
    requires bottomr.Length == bottomt.Length == |M| / 2 && M2.Length == (|M| + 1) / 2
    modifies bottomr, bottomt, M2
    ensures rest == S[Bottom(M[i] * M[i + 1])..]
    ensures M2[..i / 2 + 1] == old(M2[..i / 2]) + [ShrunkRadix(M[i] * M[i + 1])]
    ensures forall k | 0 <= k < i / 2 :: bottomr[k] == old(bottomr[k]) && bottomt[k] == old(bottomt[k])
    ensures BottomCell(bottomr[i / 2], bottomt[i / 2], S0, M, i / 2)
  {
    hide BottomValue, BottomRadix, Bottom, ShrunkRadix, PairModulus, BottomCell, Offset;
    var m := M[i] * M[i + 1];
    var r, t, m';
    r, t, rest, m' := ReadBottom(S, m);
    assert i == 2 * (i / 2);
    bottomr[i / 2], bottomt[i / 2] := r, t;
    BottomCellAt(r, t, S0, M, i / 2);
    M2[i / 2] := m';
  }

  // The first pass of Decode: bottom parts, and the next level's radices.
  method DecodeBottoms(S0: Bytes, M: seq<int>, bottomr: array<int>, bottomt: array<int>, M2: array<int>)
    returns (S: Bytes)
    requires Radices(M) && |M| >= 2 && |S0| >= PairLength(M)
    requires bottomr != bottomt && bottomr != M2 && bottomt != M2
    requires bottomr.Length == bottomt.Length == |M| / 2 && M2.Length == (|M| + 1) / 2
    modifies bottomr, bottomt, M2
    ensures S == S0[PairLength(M)..]
    ensures M2[..] == PairRadices(M)
    ensures forall k | 0 <= k < |M| / 2 :: BottomCell(bottomr[k], bottomt[k], S0, M, k)
  {
    hide PairRadices, PairLength, BottomValue, BottomRadix, Bottom, ShrunkRadix, PairModulus, BottomCell, Offset, Radices;
    var len := |M|;
    S := S0;
    var i := 0;
    assert M[0..] == M;
    OffsetEnds(M);
    while i < len - 1
      invariant i % 2 == 0 && 0 <= i <= len
      invariant 0 <= Offset(M, i) && Offset(M, i) + PairLength(M[i..]) <= |S0|
      invariant S == S0[Offset(M, i)..]
      invariant PairRadices(M) == M2[..i / 2] + PairRadices(M[i..])
      invariant forall k | 0 <= k < i / 2 :: BottomCell(bottomr[k], bottomt[k], S0, M, k)
    {
      BottomsNext(S0, M, i);
      ghost var done := M2[..i / 2];
      S := BottomTurn(S, M, i, bottomr, bottomt, M2, S0);
      Regroup(done, [ShrunkRadix(M[i] * M[i + 1])], PairRadices(M[i + 2..]));
      i := i + 2;
    }
    NoPair(M[i..]);
    OffsetLast(M, i);
    if i < len {
      M2[i / 2] := M[i];
      assert M2[..] == M2[..i / 2] + [M[i]];
      assert M[i..] == [M[i]];
    } else {
      assert M2[..] == M2[..i / 2];
    }
  }

  lemma Regroup(a: seq<int>, b: seq<int>, c: seq<int>)
    ensures a + (b + c) == a + b + c
  {
  }

  lemma OffsetEnds(M: seq<int>)
    ensures Offset(M, 0) == 0
  {
    assert M[0..] == M;
  }

  lemma OffsetLast(M: seq<int>, i: nat)
    requires |M| <= i + 1 <= |M| + 1
    ensures Offset(M, i) == PairLength(M)
  {
  }

  lemma NoPair(M: seq<int>)
    requires |M| < 2
    ensures PairRadices(M) == M && PairLength(M) == 0
  {
  }

  lemma LastSplit(S: Bytes, R2: seq<int>, M: seq<int>)
    requires |M| < 2 && Radices(M) && |S| >= PairLength(M) && |R2| == (|M| + 1) / 2
    ensures SplitPairs(S, R2, M) == R2
  {
  }

  // The merged value of a pair fits the divider's 32-bit argument.
  lemma MergedFits(S: Bytes, m: int, d: int)
    requires 0 < m < TWO14 * TWO14 && |S| >= Bottom(m) && 0 <= d < ShrunkRadix(m)
    ensures 0 <= BottomValue(S, m) + BottomRadix(m) * d < TWO32
  {
  }

  // The state of the second pass before the pair at index i.
  ghost predicate Splitting(S: Bytes, R2: seq<int>, M: seq<int>, out: seq<int>, i: nat) {
    i % 2 == 0 && i <= |M| && Radices(M) && Radices(M[i..])
    && |S| >= PairLength(M) && |R2| == (|M| + 1) / 2
    && 0 <= Offset(M, i) && Offset(M, i) + PairLength(M[i..]) <= |S|
    && Digits(R2[i / 2..], PairRadices(M[i..]))
    && SplitPairs(S, R2, M) == out + SplitPairs(S[Offset(M, i)..], R2[i / 2..], M[i..])
  }

  lemma SplittingStart(S: Bytes, R2: seq<int>, M: seq<int>)
    requires Radices(M) && |S| >= PairLength(M) && Digits(R2, PairRadices(M))
    ensures Splitting(S, R2, M, [], 0)
  {
    hide PairRadices, PairLength, SplitPairs;
    assert M[0..] == M && R2[0..] == R2 && S[0..] == S;
  }

  // The merged digit of the pair at i, and what splitting it adds to the output.
  lemma SplittingStep(S: Bytes, R2: seq<int>, M: seq<int>, out: seq<int>, i: nat, r: int, br: int, bt: int)
    requires Splitting(S, R2, M, out, i) && i + 1 < |M|
    requires BottomCell(br, bt, S, M, i / 2) && r == br + bt * R2[i / 2]
    ensures 0 <= r < TWO32 && 0 < M[i] < TWO14 && 0 < M[i + 1] < TWO14
    ensures Splitting(S, R2, M, out + [r % M[i], (r / M[i]) % M[i + 1]], i + 2)
  {
    hide PairRadices, PairLength, BottomValue, BottomRadix, Bottom, ShrunkRadix, SplitPairs, PairModulus;
    var M', S', d' := M[i..], S[Offset(M, i)..], R2[i / 2..];
    FirstShrunk(M');
    assert M'[2..] == M[i + 2..] && d'[1..] == R2[i / 2 + 1..];
    assert Digits(d'[1..], PairRadices(M'[2..]));
    var m := PairModulus(M');
    assert d'[0] < PairRadices(M')[0] == ShrunkRadix(m);
    MergedFits(S', m, d'[0]);
    SplitFirst(S', d', M', r);
    assert S'[Bottom(m)..] == S[Offset(M, i + 2)..];
  }

  lemma SplittingEnd(S: Bytes, R2: seq<int>, M: seq<int>, out: seq<int>, i: nat)
    requires Splitting(S, R2, M, out, i) && |M| <= i + 1
    ensures SplitPairs(S, R2, M) == if i < |M| then out + [R2[i / 2]] else out
  {
    hide PairRadices, PairLength;
    LastSplit(S[Offset(M, i)..], R2[i / 2..], M[i..]);
    hide SplitPairs;
    if i < |M| {
      assert R2[i / 2..] == [R2[i / 2]];
    }
  }

  // The two divisions that split a merged digit.
  method SplitDigit(r: int, m0: int, m1: int) returns (r0: int, r1: int)
    requires 0 <= r < TWO32 && 0 < m0 < TWO14 && 0 < m1 < TWO14
    ensures r0 == r % m0 && r1 == (r / m0) % m1
  {
    hide U32;
    r1, r0 := Uint32DivmodUint14(r, m0);
    DivUnique(r, m0, r1, r0);
    QuotientAtMost(r, m0, r1, r0);
    r1 := Uint32ModUint14(r1, m1);
  }

  // The second pass of Decode: split each merged digit by two divisions.
  method DecodeSplit(ghost S: Bytes, M: seq<int>, bottomr: array<int>, bottomt: array<int>, R2: seq<int>)
    returns (out: seq<int>)
    requires Radices(M) && |M| >= 2 && |S| >= PairLength(M)
    requires Digits(R2, PairRadices(M))
    requires bottomr.Length == bottomt.Length == |M| / 2
    requires forall k | 0 <= k < |M| / 2 :: BottomCell(bottomr[k], bottomt[k], S, M, k)
    ensures out == SplitPairs(S, R2, M)
  {
    hide PairRadices, PairLength, SplitPairs, Splitting, BottomCell, Radices;
    var len := |M|;
    out := [];
    var i := 0;
    SplittingStart(S, R2, M);
    while i < len - 1
      invariant i % 2 == 0 && 0 <= i <= len
      invariant Splitting(S, R2, M, out, i)
    {
      var r := bottomr[i / 2] + bottomt[i / 2] * R2[i / 2];
      SplittingStep(S, R2, M, out, i, r, bottomr[i / 2], bottomt[i / 2]);
      var r0, r1 := SplitDigit(r, M[i], M[i + 1]);
      out := out + [r0, r1];
      i := i + 2;
    }
    SplittingEnd(S, R2, M, out, i);
    if i < len {
      out := out + [R2[i / 2]];
    }
  }

  lemma QuotientAtMost(x: int, m: int, q: int, r: int)
    requires m > 0 && x == q * m + r && 0 <= r && 0 <= q
    ensures q <= x
  {
    MulMono(1, m, q);
  }

  method Decode(S: Bytes, M: seq<int>) returns (out: seq<int>)
    requires Radices(M) && |S| >= EncodedLength(M)
    ensures out == DecodeSpec(S, M) && Digits(out, M)
    decreases |M|
  {
    DecodeInRange(S, M);
    hide PairRadices, PairLength, SplitPairs;
    out := [];
    if |M| == 1 {
      var d := 0;
      if M[0] == 1 {
      } else if M[0] <= 256 {
        d := Uint32ModUint14(S[0] as int, M[0]);
      } else {
        d := Uint32ModUint14((S[0] as int) + 256 * (S[1] as int), M[0]);
      }
      out := [d];
    }
    if |M| > 1 {
      var M2 := new int[(|M| + 1) / 2];
      var bottomr, bottomt := new int[|M| / 2], new int[|M| / 2];
      var S2 := DecodeBottoms(S, M, bottomr, bottomt, M2);
      var R2 := Decode(S2, M2[..]);
      out := DecodeSplit(S, M, bottomr, bottomt, R2);
    }
  }
}
