/**
 Key generation (vendor-sntrup761/sntrup761.c:711-740, 886-899, 963-976): random small
 polynomials until one is invertible modulo 3, a random short one, its reciprocal modulo
 q, and the two keys in bytes. The random words are parameters; the code draws again as
 long as a reciprocal fails, here until the draws are used up.
 */
module KeyGeneration {
  import opened ByteStrings
  import opened ModArith
  import opened PolyRing
  import opened DivMod
  import opened TwosComplement
  import opened RingMult
  import opened Reciprocal
  import opened RqReciprocal
  import opened NtruCore
  import opened RadixCodec
  import opened PolyCodec
  import opened ShortPoly
  import opened Encapsulation

  // The coefficient that a random word gives: (((w & 0x3fffffff) * 3) >> 30) - 1.
  function SmallCoefficient(w: int): (c: int)
    requires 0 <= w < UINT32
    ensures -1 <= c <= 1
  {
    w % 0x4000_0000 * 3 / 0x4000_0000 - 1
  }

  // Each coefficient has a third of the values of the low 30 bits (-1 has one more).
  lemma SmallThirds(w: int)
    requires 0 <= w < UINT32
    ensures var low := w % 0x4000_0000;
            && (SmallCoefficient(w) == -1 <==> low < 357913942)
            && (SmallCoefficient(w) == 1 <==> low >= 715827883)
  {
  }

  function SmallOf(words: seq<int>): (g: Vec)
    requires Uint32s(words)
    ensures |g| == |words| && Ternary(g)
  {
    seq(|words|, i requires 0 <= i < |words| => SmallCoefficient(words[i]))
  }

  // Small_random
  method SmallRandom(words: seq<int>) returns (out: Vec)
    requires Uint32s(words)
    ensures out == SmallOf(words)
  {
    out := [];
    for i := 0 to |words|
      invariant |out| == i && forall k | 0 <= k < i :: out[k] == SmallCoefficient(words[k])
    {
      LowBits(words[i]);
      out := out + [And(words[i], 0x3fff_ffff) * 3 / 0x4000_0000 - 1];
    }
  }

  lemma LowBits(w: int)
    requires 0 <= w
    ensures And(w, 0x3fff_ffff) == w % 0x4000_0000
  {
    hide And;
    MaskBits(w, 30);
    Pow31();
    assert Pow2(31) == 2 * Pow2(30);
  }

  lemma {:induction false} MaskBits(w: int, k: nat)
    requires 0 <= w
    ensures And(w, Pow2(k) - 1) == w % Pow2(k)
    decreases k
  {
    hide And;
    if k == 0 {
      AndMask(w);
    } else {
      var m := Pow2(k - 1);
      AndHalf(w, Pow2(k) - 1);
      assert (2 * m - 1) / 2 == m - 1 && (2 * m - 1) % 2 == 1;
      MaskBits(w / 2, k - 1);
      TwoDigits(w, m);
    }
  }

  lemma TwoDigits(w: int, m: int)
    requires 0 <= w && m > 0
    ensures w % (2 * m) == 2 * (w / 2 % m) + w % 2
  {
    var h := w / 2;
    assert w == 2 * h + w % 2 && h == m * (h / m) + h % m;
    DivUnique(w, 2 * m, h / m, 2 * (h % m) + w % 2);
  }

  // h = finv * g: three times f * h is g.
  lemma KeysFit(f: Vec, g: Vec, finv: Vec, h: Vec)
    requires |f| == |g| == |finv| == |h| >= 2 && h == CentredVec(Act(finv, g), Fq)
    requires CongVec(Scale(3, Act(finv, f)), One(|f|), Fq)
    ensures KeyPair(f, g, h)
  {
    hide Cong, CongVec, Act, Scale, One, CentredVec;
    var e, fh := Act(finv, f), Act(f, Act(finv, g));
    // f * h = f * (finv * g) = (finv * f) * g
    CentredVecCong(Act(finv, g), Fq);
    CongVecRefl(f, Fq);
    CongVecAct(f, f, h, Act(finv, g), Fq);
    CongRefl(3, Fq);
    CongVecScale(3, 3, Act(f, h), fh, Fq);
    MulAssoc(f, finv, g);
    MulComm(f, finv);
    // 3 * (finv * f) * g = g
    ActScaleLeft(3, e, g);
    CongVecRefl(g, Fq);
    CongVecAct(Scale(3, e), One(|f|), g, g, Fq);
    MulOne(g);
    CongVecTrans(Scale(3, Act(f, h)), Scale(3, fh), g, Fq);
  }

  // Draw i is the first that is invertible modulo 3.
  ghost predicate FirstInvertible(draws: seq<seq<int>>, i: int) {
    && 0 <= i < |draws| && Uint32s(draws[i]) && HasInverse(SmallOf(draws[i]), F3)
    && forall k | 0 <= k < i :: Uint32s(draws[k]) ==> !HasInverse(SmallOf(draws[k]), F3)
  }

  // KeyGen: the first draw that is invertible. `status` is what Rq_recip3 returns, which the
  // code does not look at: it takes for granted that f can be divided by modulo q.
  method KeyGen(draws: seq<seq<int>>, words: seq<int>)
    returns (found: bool, h: Vec, f: Vec, ginv: Vec, g: Vec, status: int)
    requires forall d | d in draws :: |d| == P && Uint32s(d)
    requires |words| == P && Uint32s(words)
    ensures found <==> exists d | d in draws :: |d| == P && Uint32s(d) && HasInverse(SmallOf(d), F3)
    ensures found ==> |f| == |h| == |ginv| == P && Ternary(f) && Weight(f) == W && Ternary(ginv) && Within(h, Q12)
    ensures found ==> Shuffles(words, f)
    ensures found ==> exists i :: FirstInvertible(draws, i) && g == SmallOf(draws[i])
    ensures found ==> (status == 0 <==> HasInverse(f, Fq)) && (status == 0 ==> GoodKey(f, g, h, ginv))
  {
    hide Ternary, Uint32s, HasInverse, Within, CongVec, Act, One, Scale, SmallOf, KeyPair, Weight, Shuffles;
    found, h, f, ginv, g, status := false, [], [], [], [], -1;
    for i := 0 to |draws|
      invariant !found && forall k | 0 <= k < i :: !HasInverse(SmallOf(draws[k]), F3)
    {
      assert draws[i] in draws;
      g := SmallRandom(draws[i]);
      var rc;
      ginv, rc := R3Recip(g);
      if rc == 0 {
        assert FirstInvertible(draws, i);
        found := true;
        break;
      }
    }
    if !found { return; }
    f := ShortFromList(words);
    var finv;
    finv, status := RqRecip3(f);
    MachineRange(finv, g);
    h := RqMultSmall(finv, g);
    CentredWithin(Act(finv, g));
    if status == 0 { KeysFit(f, g, finv, h); }
  }

  lemma MachineRange(a: Vec, b: Vec)
    requires AllCentred(a, Fq) && Ternary(b)
    ensures Int16(a) && Int8(b)
  {
  }

  lemma CentredWithin(u: Vec)
    ensures Within(CentredVec(u, Fq), Q12)
  {
  }

  // sntrup761_keypair: whatever is encapsulated to the public key decapsulates to the same
  // session key, if f is invertible modulo q.
  method KemKeyGen(H: Hash, draws: seq<seq<int>>, words: seq<int>, rho: Bytes)
    returns (found: bool, pk: Bytes, sk: Bytes, h: Vec, f: Vec, ginv: Vec, g: Vec)
    requires forall d | d in draws :: |d| == P && Uint32s(d)
    requires |words| == P && Uint32s(words) && |rho| == SMALL_BYTES
    ensures found <==> exists d | d in draws :: |d| == P && Uint32s(d) && HasInverse(SmallOf(d), F3)
    ensures found ==> |f| == |h| == |ginv| == P && Ternary(f) && Ternary(ginv) && Within(h, Q12)
    ensures found ==> pk == PublicKey(h) && sk == SecretKey(H, f, ginv, h, rho)
    ensures found && HasInverse(f, Fq) ==> GoodKey(f, g, h, ginv)
    ensures found && HasInverse(f, Fq) ==>
              forall c, k, r | Encapsulates(H, pk, c, k, r) :: Decapsulated(H, c, sk) == k
  {
    hide Ternary, Uint32s, HasInverse, Within, SmallOf, GoodKey, HashPrefix, SmallBytes, Weight, EncodeSpec, RqDigits, Uniform,
         Decapsulated;
    pk, sk := [], [];
    var status;
    found, h, f, ginv, g, status := KeyGen(draws, words);
    if !found { return; }
    pk := RqEncode(h);
    var small := SmallEncode(f);
    sk := small;
    small := SmallEncode(ginv);
    sk := sk + small;
    sk := sk + pk;
    sk := sk + rho;
    sk := sk + HashPrefix(H, 4, pk);
    if HasInverse(f, Fq) {
      forall c, k, r | Encapsulates(H, pk, c, k, r) ensures Decapsulated(H, c, sk) == k {
        DecapsulatesWhatWasEncapsulated(H, f, g, h, ginv, rho, c, k, r);
      }
    }
  }
}
