/**
 The byte encodings of small, general and rounded polynomials
 (vendor-sntrup761/sntrup761.c:776-873): each decoder undoes its encoder, and the
 mixed-radix ones have the fixed lengths Rq_bytes and Rounded_bytes.
 */
module PolyCodec {
  import opened ByteStrings
  import opened ModArith
  import opened DivMod
  import opened RadixCodec
  import opened Reciprocal
  import opened NtruCore

  const SMALL_BYTES := 191
  const RQ_BYTES := 1158
  const ROUNDED_BYTES := 1007
  const ROUNDED_RADIX := 1531   // (q + 2) / 3

  function Uniform(m: int, n: nat): (M: seq<int>)
    ensures |M| == n
  {
    seq(n, i => m)
  }

  // ----- encoded lengths ------------------------------------------------------------------

  // n equal radices and one odd one out: the shape of every level of the recursion.
  function Level(m: int, n: nat, last: int): (M: seq<int>)
    ensures |M| == n + 1
  {
    Uniform(m, n) + [last]
  }

  lemma LevelFirst(m: int, n: nat, last: int)
    requires n >= 2
    ensures PairRadices(Level(m, n, last))
         == [EmitRadix(m * m, TWO14)] + PairRadices(Level(m, n - 2, last))
    ensures PairLength(Level(m, n, last)) == Bottom(m * m) + PairLength(Level(m, n - 2, last))
  {
    hide EmitRadix, Bottom;
    var M := Level(m, n, last);
    assert M[2..] == Level(m, n - 2, last);
    FirstRadix(M);
  }

  lemma LevelShort(m: int, last: int)
    ensures PairRadices(Level(m, 0, last)) == [last] && PairLength(Level(m, 0, last)) == 0
    ensures PairRadices(Level(m, 1, last)) == [EmitRadix(last * m, TWO14)]
    ensures PairLength(Level(m, 1, last)) == Bottom(last * m)
  {
    hide EmitRadix, Bottom;
    var M := Level(m, 1, last);
    assert M[2..] == [] && M[0] == m && M[1] == last;
    FirstRadix(M);
    NoPair(M[2..]);
    NoPair(Level(m, 0, last));
    assert Level(m, 0, last) == [last];
  }

  lemma LevelCons(s: int, n: nat, last: int)
    ensures [s] + Level(s, n, last) == Level(s, n + 1, last)
    ensures Level(s, 0, last) == [last]
  {
  }

  lemma {:induction false} LevelPairs(m: int, n: nat, last: int)
    ensures var last2 := if n % 2 == 0 then last else EmitRadix(last * m, TWO14);
            PairRadices(Level(m, n, last)) == Level(EmitRadix(m * m, TWO14), n / 2, last2)
    ensures PairLength(Level(m, n, last))
         == (n / 2) * Bottom(m * m) + if n % 2 == 0 then 0 else Bottom(last * m)
    decreases n
  {
    hide EmitRadix, Bottom, PairRadices, PairLength, Level;
    var s := EmitRadix(m * m, TWO14);
    var last2 := if n % 2 == 0 then last else EmitRadix(last * m, TWO14);
    if n >= 2 {
      LevelPairs(m, n - 2, last);
      LevelFirst(m, n, last);
      LevelCons(s, n / 2 - 1, last2);
      Distribute(n / 2 - 1, 1, Bottom(m * m));
    } else {
      LevelShort(m, last);
      LevelCons(s, 0, last2);
    }
  }

  // One level of the recursion, with the radices and byte count it is claimed to have.
  lemma LevelLength(m: int, n: nat, last: int, m2: int, last2: int, bytes: nat)
    requires 0 < m < TWO14 && 0 < last < TWO14 && n > 0
    requires Radices(Level(m, n, last))
    requires m2 == ShrunkRadix(m * m)
    requires last2 == if n % 2 == 0 then last else ShrunkRadix(last * m)
    requires bytes == (n / 2) * Bottom(m * m) + if n % 2 == 0 then 0 else Bottom(last * m)
    ensures Radices(Level(m2, n / 2, last2))
    ensures EncodedLength(Level(m, n, last)) == bytes + EncodedLength(Level(m2, n / 2, last2))
  {
    hide EmitRadix, Bottom, PairRadices, PairLength, Level, ShrunkRadix;
    ProductBelow(m, m);
    ProductBelow(last, m);
    ThresholdRadix(m * m);
    ThresholdRadix(last * m);
    LevelPairs(m, n, last);
  }

  lemma LevelRadices(m: int, n: nat, last: int)
    requires 0 < m < TWO14 && 0 < last < TWO14
    ensures Radices(Level(m, n, last))
  {
  }

  lemma SingleLength(m: int, last: int)
    requires 0 < last < TWO14
    ensures Radices(Level(m, 0, last)) && EncodedLength(Level(m, 0, last)) == LastBytes(last)
  {
    assert Level(m, 0, last) == [last];
  }

  lemma UniformIsLevel(m: int)
    ensures Uniform(m, P) == Level(m, P - 1, m)
  {
  }

  // 761 digits of radix q take Rq_bytes.
  lemma RqSize()
    ensures Radices(Uniform(Q, P)) && EncodedLength(Uniform(Q, P)) == RQ_BYTES
  {
    hide Uniform, Level, PairLength, PairRadices, Radices, EncodedLength;
    UniformIsLevel(Q);
    LevelRadices(Q, 760, Q);
    LevelLength(4591, 760, 4591, 322, 4591, 760);
    LevelLength(322, 380, 4591, 406, 4591, 190);
    LevelLength(406, 190, 4591, 644, 4591, 95);
    LevelLength(644, 95, 4591, 1621, 11550, 48);
    LevelLength(1621, 47, 11550, 10265, 286, 25);
    LevelLength(10265, 23, 286, 1608, 11468, 23);
    LevelLength(1608, 11, 11468, 10101, 282, 7);
    LevelLength(10101, 5, 282, 1557, 11127, 5);
    LevelLength(1557, 2, 11127, 9470, 11127, 1);
    LevelLength(9470, 1, 11127, 1369, 1608, 2);
    SingleLength(1369, 1608);
  }

  // 761 digits of radix (q + 2) / 3 take Rounded_bytes.
  lemma RoundedSize()
    ensures Radices(Uniform(ROUNDED_RADIX, P)) && EncodedLength(Uniform(ROUNDED_RADIX, P)) == ROUNDED_BYTES
  {
    hide Uniform, Level, PairLength, PairRadices, Radices, EncodedLength;
    UniformIsLevel(ROUNDED_RADIX);
    LevelRadices(1531, 760, 1531);
    LevelLength(1531, 760, 1531, 9157, 1531, 380);
    LevelLength(9157, 380, 1531, 1280, 1531, 380);
    LevelLength(1280, 190, 1531, 6400, 1531, 95);
    LevelLength(6400, 95, 1531, 625, 150, 96);
    LevelLength(625, 47, 150, 1526, 367, 24);
    LevelLength(1526, 23, 367, 9097, 2188, 12);
    LevelLength(9097, 11, 2188, 1263, 304, 12);
    LevelLength(1263, 5, 304, 6232, 1500, 3);
    LevelLength(6232, 2, 1500, 593, 1500, 2);
    LevelLength(593, 1, 1500, 1374, 3475, 1);
    SingleLength(1374, 3475);
  }

  // ----- small polynomials: four coefficients to a byte, one left over ----------------------

  function PackFour(a: int, b: int, c: int, d: int): (x: Byte)
    requires -1 <= a <= 1 && -1 <= b <= 1 && -1 <= c <= 1 && -1 <= d <= 1
  {
    (a + 1 + 4 * (b + 1 + 4 * (c + 1 + 4 * (d + 1)))) as Byte
  }

  function SmallBytes(f: seq<int>): (s: Bytes)
    requires |f| % 4 == 1 && Ternary(f)
    ensures |s| == |f| / 4 + 1
  {
    if |f| == 1 then [(f[0] + 1) as Byte]
    else [PackFour(f[0], f[1], f[2], f[3])] + SmallBytes(f[4..])
  }

  // Four coefficients a byte, the first in the lowest two bits; the last has a byte of its own.
  lemma {:induction false} SmallBytesAt(f: seq<int>, k: nat)
    requires |f| % 4 == 1 && Ternary(f) && k <= |f| / 4
    ensures SmallBytes(f)[k] as int
         == if k == |f| / 4 then f[4 * k] + 1
            else f[4 * k] + 1 + 4 * (f[4 * k + 1] + 1) + 16 * (f[4 * k + 2] + 1) + 64 * (f[4 * k + 3] + 1)
    decreases |f|
  {
    if k > 0 {
      var g, j := f[4..], k - 1;
      SmallBytesAt(g, j);
      assert SmallBytes(f)[k] == SmallBytes(g)[j];
      assert g[4 * j] == f[4 * k];
      if j < |g| / 4 {
        assert g[4 * j + 1] == f[4 * k + 1] && g[4 * j + 2] == f[4 * k + 2] && g[4 * j + 3] == f[4 * k + 3];
      }
    }
  }

  // The coefficient in the low two bits; 3 is not a coefficient and decodes to 2.
  function LowTwo(x: int): int { x % 4 - 1 }

  function SmallCoefficients(s: Bytes): (f: seq<int>)
    requires |s| >= 1
    ensures |f| == 4 * |s| - 3
  {
    var x := s[0] as int;
    if |s| == 1 then [LowTwo(x)]
    else [LowTwo(x), LowTwo(x / 4), LowTwo(x / 16), LowTwo(x / 64)] + SmallCoefficients(s[1..])
  }

  lemma UnpackFour(a: int, b: int, c: int, d: int)
    requires -1 <= a <= 1 && -1 <= b <= 1 && -1 <= c <= 1 && -1 <= d <= 1
    ensures var x := PackFour(a, b, c, d) as int;
            LowTwo(x) == a && LowTwo(x / 4) == b && LowTwo(x / 16) == c && LowTwo(x / 64) == d
  {
    hide LowTwo;
    var x2 := c + 1 + 4 * (d + 1);
    var x1 := b + 1 + 4 * x2;
    LowDigit(a, x1);
    LowDigit(b, x2);
    LowDigit(c, d + 1);
    LowDigit(d, 0);
    Quarters(a + 1 + 4 * x1);
  }

  lemma LowDigit(a: int, rest: int)
    requires -1 <= a <= 1
    ensures LowTwo(a + 1 + 4 * rest) == a && (a + 1 + 4 * rest) / 4 == rest
  {
  }

  // Peeling off the first four coefficients, or the last one.
  lemma SmallBytesNext(f: seq<int>)
    requires |f| % 4 == 1 && Ternary(f)
    ensures |f| == 1 ==> SmallBytes(f) == [(f[0] + 1) as Byte]
    ensures |f| > 1 ==> |f| >= 5 && SmallBytes(f) == [PackFour(f[0], f[1], f[2], f[3])] + SmallBytes(f[4..])
  {
    hide PackFour;
  }

  lemma CoefficientsNext(x: Byte, s: Bytes)
    requires |s| >= 1
    ensures SmallCoefficients([x] + s)
         == [LowTwo(x as int), LowTwo(x as int / 4), LowTwo(x as int / 16), LowTwo(x as int / 64)] + SmallCoefficients(s)
  {
    hide LowTwo;
    assert ([x] + s)[1..] == s;
  }

  lemma OneRoundTrip(f: seq<int>)
    requires |f| == 1 && Ternary(f)
    ensures SmallCoefficients([(f[0] + 1) as Byte]) == f
  {
    LowDigit(f[0], 0);
    hide LowTwo;
  }

  lemma {:induction false} SmallRoundTrip(f: seq<int>)
    requires |f| % 4 == 1 && Ternary(f)
    ensures SmallCoefficients(SmallBytes(f)) == f
    decreases |f|
  {
    hide PackFour, LowTwo, SmallBytes, SmallCoefficients;
    SmallBytesNext(f);
    if |f| == 1 {
      OneRoundTrip(f);
    } else {
      UnpackFour(f[0], f[1], f[2], f[3]);
      CoefficientsNext(PackFour(f[0], f[1], f[2], f[3]), SmallBytes(f[4..]));
      SmallRoundTrip(f[4..]);
      assert f == [f[0], f[1], f[2], f[3]] + f[4..];
    }
  }

  method SmallEncode(f: seq<int>) returns (s: Bytes)
    requires |f| % 4 == 1 && Ternary(f)
    ensures s == SmallBytes(f)
  {
    hide SmallBytes;
    s := [];
    var p := |f|;
    for i := 0 to p / 4
      invariant SmallBytes(f) == s + SmallBytes(f[4 * i..])
    {
      var x := f[4 * i] + 1;
      x := x + (f[4 * i + 1] + 1) * 4;
      x := x + (f[4 * i + 2] + 1) * 16;
      x := x + (f[4 * i + 3] + 1) * 64;
      ghost var rest := f[4 * i..];
      SmallBytesNext(rest);
      assert rest[4..] == f[4 * (i + 1)..];
      assert x as Byte == PackFour(rest[0], rest[1], rest[2], rest[3]);
      s := s + [x as Byte];
    }
    SmallBytesNext(f[p - 1..]);
    s := s + [(f[p - 1] + 1) as Byte];
  }

  method SmallDecode(s: Bytes, p: nat) returns (f: seq<int>)
    requires p % 4 == 1 && |s| == p / 4 + 1
    ensures f == SmallCoefficients(s)
  {
    hide LowTwo;
    f := [];
    assert s[0..] == s;
    for i := 0 to p / 4
      invariant SmallCoefficients(s) == f + SmallCoefficients(s[i..])
    {
      var x := s[i] as int;
      var a := LowTwo(x);
      x := x / 4;
      var b := LowTwo(x);
      x := x / 4;
      var c := LowTwo(x);
      x := x / 4;
      var d := LowTwo(x);
      Quarters(s[i] as int);
      assert s[i..][1..] == s[i + 1..];
      f := f + [a, b, c, d];
    }
    assert s[p / 4..] == [s[p / 4]];
    f := f + [LowTwo(s[p / 4] as int)];
  }

  lemma Quarters(x: int)
    requires 0 <= x
    ensures x / 4 / 4 == x / 16 && x / 4 / 4 / 4 == x / 64
  {
  }

  // ----- general and rounded polynomials ------------------------------------------------------

  function RqDigits(r: seq<int>): (d: seq<int>)
    ensures |d| == |r|
  {
    seq(|r|, i requires 0 <= i < |r| => r[i] + Q12)
  }

  function RoundedDigits(r: seq<int>): (d: seq<int>)
    ensures |d| == |r|
  {
    seq(|r|, i requires 0 <= i < |r| => ((r[i] + Q12) * 10923) / 32768)
  }

  lemma RqDigitsInRange(r: seq<int>)
    requires Within(r, Q12)
    ensures Digits(RqDigits(r), Uniform(Q, |r|))
  {
  }

  // (t * 10923) >> 15 divides a multiple of three below q exactly.
  lemma ThirdExact(t: int)
    requires 0 <= t <= 2 * Q12 && t % 3 == 0
    ensures (t * 10923) / 32768 == t / 3
  {
    var k := t / 3;
    assert t * 10923 == 32768 * k + k;
  }

  // The outputs of Round: centred, and multiples of three.
  ghost predicate IsRounded(r: seq<int>) {
    Within(r, Q12) && forall i | 0 <= i < |r| :: r[i] % 3 == 0
  }

  lemma RoundedDigitsInRange(r: seq<int>)
    requires IsRounded(r)
    ensures Digits(RoundedDigits(r), Uniform(ROUNDED_RADIX, |r|))
    ensures forall i | 0 <= i < |r| :: RoundedDigits(r)[i] * 3 - Q12 == r[i]
  {
    forall i | 0 <= i < |r|
      ensures 0 <= RoundedDigits(r)[i] < ROUNDED_RADIX && RoundedDigits(r)[i] * 3 - Q12 == r[i]
    {
      ThirdExact(r[i] + Q12);
    }
  }

  method UniformRadix(m: int, n: nat) returns (M: seq<int>)
    ensures M == Uniform(m, n)
  {
    M := [];
    for i := 0 to n
      invariant M == Uniform(m, i)
    {
      M := M + [m];
    }
  }

  method RqEncode(r: seq<int>) returns (s: Bytes)
    requires |r| == P && Within(r, Q12)
    ensures |s| == RQ_BYTES && s == EncodeSpec(RqDigits(r), Uniform(Q, P))
  {
    hide EncodeSpec, EncodedLength, Radices, Digits, Uniform;
    RqDigitsInRange(r);
    RqSize();
    var R := [];
    for i := 0 to |r|
      invariant R == RqDigits(r)[..i]
    {
      R := R + [r[i] + Q12];
    }
    assert R == RqDigits(r);
    var M := UniformRadix(Q, P);
    s := Encode(R, M);
  }

  function RqValue(s: Bytes): (r: seq<int>)
    requires |s| >= RQ_BYTES
    ensures |r| == P
  {
    RqSize();
    var d := DecodeSpec(s, Uniform(Q, P));
    seq(P, i requires 0 <= i < P => d[i] - Q12)
  }

  lemma RqValueRange(s: Bytes)
    requires |s| >= RQ_BYTES
    ensures Within(RqValue(s), Q12)
  {
    hide DecodeSpec, EncodedLength, Radices;
    RqSize();
    DecodeInRange(s, Uniform(Q, P));
  }

  method RqDecode(s: Bytes) returns (r: seq<int>)
    requires |s| >= RQ_BYTES
    ensures r == RqValue(s) && Within(r, Q12)
  {
    hide DecodeSpec, EncodedLength, Radices, Digits, Uniform, Within;
    RqSize();
    RqValueRange(s);
    var M := UniformRadix(Q, P);
    var R := Decode(s, M);
    r := [];
    for i := 0 to |R|
      invariant |r| == i && forall k | 0 <= k < i :: r[k] == R[k] - Q12
    {
      r := r + [R[i] - Q12];
    }
  }

  lemma RqRoundTrip(r: seq<int>, tail: Bytes)
    requires |r| == P && Within(r, Q12)
    ensures Digits(RqDigits(r), Uniform(Q, P))
    ensures |EncodeSpec(RqDigits(r), Uniform(Q, P))| == RQ_BYTES
    ensures RqValue(EncodeSpec(RqDigits(r), Uniform(Q, P)) + tail) == r
  {
    hide EncodeSpec, DecodeSpec, Radices, EncodedLength;
    RqDigitsInRange(r);
    RqSize();
    RoundTrip(RqDigits(r), Uniform(Q, P), tail);
  }

  method RoundedEncode(r: seq<int>) returns (s: Bytes)
    requires |r| == P && IsRounded(r)
    ensures |s| == ROUNDED_BYTES && s == EncodeSpec(RoundedDigits(r), Uniform(ROUNDED_RADIX, P))
  {
    hide EncodeSpec, EncodedLength, Radices, Digits, Uniform;
    RoundedDigitsInRange(r);
    RoundedSize();
    var R := [];
    for i := 0 to |r|
      invariant R == RoundedDigits(r)[..i]
    {
      R := R + [((r[i] + Q12) * 10923) / 32768];
    }
    assert R == RoundedDigits(r);
    var M := UniformRadix((Q + 2) / 3, P);
    s := Encode(R, M);
  }

  function RoundedValue(s: Bytes): (r: seq<int>)
    requires |s| >= ROUNDED_BYTES
    ensures |r| == P
  {
    RoundedSize();
    var d := DecodeSpec(s, Uniform(ROUNDED_RADIX, P));
    seq(P, i requires 0 <= i < P => d[i] * 3 - Q12)
  }

  lemma RoundedValueRange(s: Bytes)
    requires |s| >= ROUNDED_BYTES
    ensures IsRounded(RoundedValue(s))
  {
    hide DecodeSpec, EncodedLength, Radices;
    RoundedSize();
    DecodeInRange(s, Uniform(ROUNDED_RADIX, P));
  }

  method RoundedDecode(s: Bytes) returns (r: seq<int>)
    requires |s| >= ROUNDED_BYTES
    ensures r == RoundedValue(s) && IsRounded(r)
  {
    hide DecodeSpec, EncodedLength, Radices, Digits, Uniform, IsRounded;
    RoundedSize();
    RoundedValueRange(s);
    var M := UniformRadix((Q + 2) / 3, P);
    var R := Decode(s, M);
    r := [];
    for i := 0 to |R|
      invariant |r| == i && forall k | 0 <= k < i :: r[k] == R[k] * 3 - Q12
    {
      r := r + [R[i] * 3 - Q12];
    }
  }

  // Rounded_decode undoes Rounded_encode on every output of Round.
  lemma RoundedRoundTrip(r: seq<int>, tail: Bytes)
    requires |r| == P && IsRounded(r)
    ensures Digits(RoundedDigits(r), Uniform(ROUNDED_RADIX, P))
    ensures |EncodeSpec(RoundedDigits(r), Uniform(ROUNDED_RADIX, P))| == ROUNDED_BYTES
    ensures RoundedValue(EncodeSpec(RoundedDigits(r), Uniform(ROUNDED_RADIX, P)) + tail) == r
  {
    hide EncodeSpec, DecodeSpec, Radices, EncodedLength;
    RoundedDigitsInRange(r);
    RoundedSize();
    RoundTrip(RoundedDigits(r), Uniform(ROUNDED_RADIX, P), tail);
  }
}
