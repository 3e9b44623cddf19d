/**
 Key encapsulation (vendor-sntrup761/sntrup761.c:901-1035): decapsulating with the
 matching secret key returns the encapsulated session key. The hash is any
 function to 32 bytes; the random words are a parameter.
 */
module Encapsulation {
  import opened ByteStrings
  import opened ModArith
  import opened PolyRing
  import opened TwosComplement
  import opened RingMult
  import opened Reciprocal
  import opened NtruCore
  import opened RadixCodec
  import opened PolyCodec
  import opened ShortPoly

  const HASH_BYTES := 32
  const CIPHERTEXT_BYTES := 1039
  const SECRET_KEY_BYTES := 1763

  type Block = s: Bytes | |s| == HASH_BYTES witness seq(HASH_BYTES, i => 0 as Byte)

  // The first 32 bytes of SHA-512.
  type Hash = Bytes -> Block

  function HashPrefix(H: Hash, b: Byte, input: Bytes): Block { H([b] + input) }

  function HashConfirm(H: Hash, rEnc: Bytes, cache: Bytes): Block {
    HashPrefix(H, 2, HashPrefix(H, 3, rEnc) + cache)
  }

  function HashSession(H: Hash, b: Byte, y: Bytes, z: Bytes): Block {
    HashPrefix(H, b, HashPrefix(H, 3, y) + z)
  }

  lemma EncryptIsRounded(r: Vec, h: Vec)
    requires |r| == |h| >= 2
    ensures IsRounded(EncryptVec(r, h))
  {
    CentredVecWithin(Act(h, r));
    RoundRange(CentredVec(Act(h, r), Fq));
    hide CentredVec, Act, RoundVec;
  }

  // The rounded part of a ciphertext.
  function ZEncryptBytes(r: Vec, pk: Bytes): (C: Bytes)
    requires |r| == P && |pk| >= RQ_BYTES
    ensures |C| == ROUNDED_BYTES
  {
    EncryptIsRounded(r, RqValue(pk));
    RoundedRoundTrip(EncryptVec(r, RqValue(pk)), []);
    EncodeSpec(RoundedDigits(EncryptVec(r, RqValue(pk))), Uniform(ROUNDED_RADIX, P))
  }

  // Hide: the ciphertext of r, confirmed under the public key's cache.
  function HideBytes(H: Hash, r: Vec, pk: Bytes, cache: Bytes): (c: Bytes)
    requires |r| == P && Ternary(r) && |pk| >= RQ_BYTES
    ensures |c| == CIPHERTEXT_BYTES
  {
    ZEncryptBytes(r, pk) + HashConfirm(H, SmallBytes(r), cache)
  }

  method ZEncrypt(r: Vec, pk: Bytes) returns (C: Bytes)
    requires |r| == P && Ternary(r) && |pk| >= RQ_BYTES
    ensures C == ZEncryptBytes(r, pk)
  {
    hide EncryptVec, RqValue, Ternary, EncodeSpec, Act, CentredVec, Within;
    var h := RqDecode(pk);
    var c := Encrypt(r, h);
    EncryptIsRounded(r, h);
    C := RoundedEncode(c);
  }

  method Hide(H: Hash, r: Vec, pk: Bytes, cache: Bytes) returns (c: Bytes, rEnc: Bytes)
    requires |r| == P && Ternary(r) && |pk| >= RQ_BYTES
    ensures c == HideBytes(H, r, pk, cache) && rEnc == SmallBytes(r)
  {
    hide Ternary, ZEncryptBytes;
    rEnc := SmallEncode(r);
    c := ZEncrypt(r, pk);
    c := c + HashConfirm(H, rEnc, cache);
  }

  // c and k encapsulate the short polynomial r to pk.
  ghost predicate Encapsulates(H: Hash, pk: Bytes, c: Bytes, k: Bytes, r: Vec) {
    && |r| == P && Ternary(r) && Weight(r) == W && |pk| == RQ_BYTES
    && c == HideBytes(H, r, pk, HashPrefix(H, 4, pk))
    && k == HashSession(H, 1, SmallBytes(r), c)
  }

  // The bytes behind those definitions: the confirmation and the key are hashes of r and of
  // the public key, each under its own first byte.
  lemma EncapsulatedBytes(H: Hash, pk: Bytes, c: Bytes, k: Bytes, r: Vec)
    requires Encapsulates(H, pk, c, k, r)
    ensures |c| == CIPHERTEXT_BYTES && c[..ROUNDED_BYTES] == ZEncryptBytes(r, pk)
    ensures c[ROUNDED_BYTES..] == H([2] + (H([3] + SmallBytes(r)) + H([4] + pk)))
    ensures k == H([1] + (H([3] + SmallBytes(r)) + c))
  {
    hide Ternary, ZEncryptBytes, SmallBytes, Weight;
  }

  // c, k = Encap(pk), with a short polynomial drawn from the random words.
  method Enc(H: Hash, pk: Bytes, words: seq<int>) returns (c: Bytes, k: Bytes)
    requires |pk| == RQ_BYTES && |words| == P && Uint32s(words)
    ensures exists r :: Encapsulates(H, pk, c, k, r) && Shuffles(words, r)
  {
    hide Ternary, ZEncryptBytes, Weight, Uint32s, HideBytes, Shuffles;
    var cache := HashPrefix(H, 4, pk);
    var s := ShortFromList(words);
    var rEnc;
    c, rEnc := Hide(H, s, pk, cache);
    k := HashSession(H, 1, rEnc, c);
    assert Encapsulates(H, pk, c, k, s);
  }

  // 0 if the two ciphertexts are equal, else -1.
  method CiphertextsDiffMask(c: Bytes, c2: Bytes) returns (mask: int)
    requires |c| == |c2|
    ensures mask == if c == c2 then 0 else -1
  {
    hide Xor, Or;
    Pow2Eight();
    var differentbits := 0;
    for i := 0 to |c|
      invariant 0 <= differentbits < 256
      invariant differentbits == 0 <==> c[..i] == c2[..i]
    {
      var x := Xor(c[i] as int, c2[i] as int);
      XorDiffers(c[i] as int, c2[i] as int);
      XorRange(c[i] as int, c2[i] as int, 8);
      OrAccumulates(differentbits, x, 8);
      assert c[..i + 1] == c[..i] + [c[i]] && c2[..i + 1] == c2[..i] + [c2[i]];
      differentbits := Or(differentbits, x);
    }
    assert c[..|c|] == c && c2[..|c2|] == c2;
    ShiftedDifference(differentbits);
    mask := And(1, ShiftRight(differentbits - 1, 8)) - 1;
  }

  lemma Pow2Eight()
    ensures Pow2(8) == 256
  {
  }

  lemma ShiftedDifference(d: int)
    requires 0 <= d < 256
    ensures And(1, ShiftRight(d - 1, 8)) == if d == 0 then 1 else 0
  {
    Pow2Eight();
    ShiftSign(d - 1, 8);
    AndMask(1);
  }

  // ----- decapsulation ---------------------------------------------------------------------

  function DecapsulatedR(c: Bytes, sk: Bytes): (r: Vec)
    requires |c| == CIPHERTEXT_BYTES && |sk| == SECRET_KEY_BYTES
    ensures |r| == P
  {
    DecryptVec(RoundedValue(c), SmallCoefficients(sk[..191]), SmallCoefficients(sk[191..382]))
  }

  lemma DecryptTernary(c: Vec, f: Vec, ginv: Vec)
    requires |c| == |f| == |ginv| >= 2
    ensures Ternary(DecryptVec(c, f, ginv))
  {
    FallbackTernary(|c|);
    EvaluatedMeans(c, f, ginv);
    var cf3 := CentredVec(Scale(3, CentredVec(Act(c, f), Fq)), Fq);
    CentredVecWithin(Act(CentredVec(cf3, F3), ginv));
    hide CentredVec, Act, Fallback, Weight, Evaluated;
  }

  // The session key: of r if the ciphertext re-encrypts to itself, else of rho.
  function Decapsulated(H: Hash, c: Bytes, sk: Bytes): Block
    requires |c| == CIPHERTEXT_BYTES && |sk| == SECRET_KEY_BYTES
  {
    var pk, rho, cache := sk[382..1540], sk[1540..1731], sk[1731..];
    var r := DecapsulatedR(c, sk);
    DecryptTernary(RoundedValue(c), SmallCoefficients(sk[..191]), SmallCoefficients(sk[191..382]));
    if HideBytes(H, r, pk, cache) == c then HashSession(H, 1, SmallBytes(r), c)
    else HashSession(H, 0, rho, c)
  }

  lemma SmallCoefficientsInt8(s: Bytes)
    requires |s| >= 1
    ensures Int8(SmallCoefficients(s))
  {
    if |s| > 1 {
      SmallCoefficientsInt8(s[1..]);
    }
  }

  method ZDecrypt(c: Bytes, sk: Bytes) returns (r: Vec)
    requires |c| == CIPHERTEXT_BYTES && |sk| == SECRET_KEY_BYTES
    ensures r == DecapsulatedR(c, sk) && Ternary(r)
  {
    hide Ternary, Int8, Int16, DecryptVec, RoundedValue, SmallCoefficients;
    var f := SmallDecode(sk[..191], P);
    var v := SmallDecode(sk[191..382], P);
    SmallCoefficientsInt8(sk[..191]);
    SmallCoefficientsInt8(sk[191..382]);
    var d := RoundedDecode(c);
    WithinInt16(d);
    r := Decrypt(d, f, v);
  }

  // r_enc[i] ^= mask & (r_enc[i] ^ rho[i])
  method SelectBytes(mask: int, x: Bytes, y: Bytes) returns (z: Bytes)
    requires IsMask(mask) && |x| == |y|
    ensures z == if mask == 0 then x else y
  {
    hide Xor, And;
    z := [];
    for i := 0 to |x|
      invariant z == if mask == 0 then x[..i] else y[..i]
    {
      SelectMask(mask, x[i] as int, y[i] as int);
      z := z + [Xor(x[i] as int, And(mask, Xor(x[i] as int, y[i] as int))) as Byte];
    }
  }

  // c is the ciphertext of r, confirmation included.
  ghost predicate Hides(H: Hash, r: Vec, pk: Bytes, cache: Bytes, c: Bytes) {
    |r| == P && Ternary(r) && |pk| >= RQ_BYTES && c == HideBytes(H, r, pk, cache)
  }

  // k = Decap(c, sk): the key of the decrypted r if c is the ciphertext of that r; in every
  // other case, and so whenever c is no ciphertext at all, a key made of rho and c.
  method Dec(H: Hash, c: Bytes, sk: Bytes) returns (k: Bytes)
    requires |c| == CIPHERTEXT_BYTES && |sk| == SECRET_KEY_BYTES
    ensures k == Decapsulated(H, c, sk)
    ensures var r := DecapsulatedR(c, sk);
            if Hides(H, r, sk[382..1540], sk[1731..], c) then k == H([1] + (H([3] + SmallBytes(r)) + c))
            else k == H([0] + (H([3] + sk[1540..1731]) + c))
    ensures (forall r :: !Hides(H, r, sk[382..1540], sk[1731..], c)) ==>
              k == H([0] + (H([3] + sk[1540..1731]) + c))
  {
    hide Ternary, DecapsulatedR, HideBytes;
    var pk, rho, cache := sk[382..1540], sk[1540..1731], sk[1731..];
    var r := ZDecrypt(c, sk);
    var cnew, rEnc := Hide(H, r, pk, cache);
    var mask := CiphertextsDiffMask(c, cnew);
    rEnc := SelectBytes(mask, rEnc, rho);
    k := HashSession(H, (1 + mask) as Byte, rEnc, c);
  }

  // ----- the theorem -----------------------------------------------------------------------

  // A key pair: 3*f*h = g in Rq, ginv = 1/g in R3 (what R3_recip promises), f short.
  ghost predicate GoodKey(f: Vec, g: Vec, h: Vec, ginv: Vec) {
    |f| == |g| == |h| == |ginv| == P
    && Ternary(f) && Ternary(g) && Ternary(ginv) && Weight(f) == W
    && Within(h, Q12) && KeyPair(f, g, h) && CongVec(Act(ginv, g), One(P), F3)
  }

  function PublicKey(h: Vec): (pk: Bytes)
    requires |h| == P && Within(h, Q12)
    ensures |pk| == RQ_BYTES
  {
    RqRoundTrip(h, []);
    EncodeSpec(RqDigits(h), Uniform(Q, P))
  }

  function SecretKey(H: Hash, f: Vec, ginv: Vec, h: Vec, rho: Bytes): (sk: Bytes)
    requires |f| == |ginv| == |h| == P && Ternary(f) && Ternary(ginv) && Within(h, Q12) && |rho| == SMALL_BYTES
    ensures |sk| == SECRET_KEY_BYTES
  {
    SmallBytes(f) + SmallBytes(ginv) + PublicKey(h) + rho + HashPrefix(H, 4, PublicKey(h))
  }

  lemma SecretKeyFields(H: Hash, f: Vec, ginv: Vec, h: Vec, rho: Bytes)
    requires |f| == |ginv| == |h| == P && Ternary(f) && Ternary(ginv) && Within(h, Q12) && |rho| == SMALL_BYTES
    ensures var sk := SecretKey(H, f, ginv, h, rho);
            && sk[..191] == SmallBytes(f) && sk[191..382] == SmallBytes(ginv)
            && sk[382..1540] == PublicKey(h) && sk[1540..1731] == rho
            && sk[1731..] == HashPrefix(H, 4, PublicKey(h))
  {
    hide SmallBytes, PublicKey, HashPrefix, Ternary, Within;
  }

  lemma PublicKeyValue(h: Vec)
    requires |h| == P && Within(h, Q12)
    ensures RqValue(PublicKey(h)) == h
  {
    hide EncodeSpec, RqValue, RqDigits, Uniform, Within;
    RqRoundTrip(h, []);
    assert PublicKey(h) + [] == PublicKey(h);
  }

  lemma CiphertextValue(H: Hash, r: Vec, pk: Bytes, cache: Bytes)
    requires |r| == P && Ternary(r) && |pk| >= RQ_BYTES
    ensures RoundedValue(HideBytes(H, r, pk, cache)) == EncryptVec(r, RqValue(pk))
  {
    hide EncodeSpec, RoundedValue, RoundedDigits, Uniform, EncryptVec, Ternary, RqValue, IsRounded;
    EncryptIsRounded(r, RqValue(pk));
    RoundedRoundTrip(EncryptVec(r, RqValue(pk)), HashConfirm(H, SmallBytes(r), cache));
  }

  lemma DecryptsBack(H: Hash, f: Vec, g: Vec, h: Vec, ginv: Vec, rho: Bytes, c: Bytes, k: Bytes, r: Vec)
    requires GoodKey(f, g, h, ginv) && |rho| == SMALL_BYTES
    requires Encapsulates(H, PublicKey(h), c, k, r)
    ensures |c| == CIPHERTEXT_BYTES && DecapsulatedR(c, SecretKey(H, f, ginv, h, rho)) == r
  {
    var pk := PublicKey(h);
    var sk := SecretKey(H, f, ginv, h, rho);
    hide SmallBytes, PublicKey, SecretKey, HideBytes, HashPrefix, HashSession, Ternary, Within, KeyPair, CongVec,
         Act, One, Weight, RoundedValue, SmallCoefficients, DecryptVec, EncryptVec, RqValue;
    SecretKeyFields(H, f, ginv, h, rho);
    SmallRoundTrip(f);
    SmallRoundTrip(ginv);
    PublicKeyValue(h);
    CiphertextValue(H, r, pk, HashPrefix(H, 4, pk));
    DecryptsWhatWasEncrypted(f, g, h, ginv, r);
  }

  // Decapsulation never fails: for every key pair, whatever was encapsulated to its public
  // key (and Enc returns nothing else) decapsulates to the same session key.
  lemma DecapsulatesWhatWasEncapsulated(H: Hash, f: Vec, g: Vec, h: Vec, ginv: Vec, rho: Bytes, c: Bytes, k: Bytes, r: Vec)
    requires GoodKey(f, g, h, ginv) && |rho| == SMALL_BYTES
    requires Encapsulates(H, PublicKey(h), c, k, r)
    ensures Decapsulated(H, c, SecretKey(H, f, ginv, h, rho)) == k
  {
    hide SmallBytes, PublicKey, SecretKey, HideBytes, HashPrefix, HashSession, Ternary, Within, KeyPair, CongVec,
         Act, One, Weight, DecapsulatedR;
    SecretKeyFields(H, f, ginv, h, rho);
    DecryptsBack(H, f, g, h, ginv, rho, c, k, r);
  }

  // What decryption falls back to is short as well.
  lemma {:induction false} FallbackWeight(n: nat)
    ensures Weight(Fallback(n)) == if n < W then n else W
  {
    if n > 0 {
      FallbackWeight(n - 1);
      assert Fallback(n)[..n - 1] == Fallback(n - 1);
    }
  }

  lemma DecapsulatedIsShort(c: Bytes, sk: Bytes)
    requires |c| == CIPHERTEXT_BYTES && |sk| == SECRET_KEY_BYTES
    ensures Weight(DecapsulatedR(c, sk)) == W && Ternary(DecapsulatedR(c, sk))
  {
    hide Weight, Evaluated, Fallback, Ternary, RoundedValue, SmallCoefficients;
    FallbackWeight(P);
    DecryptTernary(RoundedValue(c), SmallCoefficients(sk[..191]), SmallCoefficients(sk[191..382]));
  }

  // No third case: under a key pair every ciphertext, forged ones included, either
  // encapsulates the key that it decapsulates to, or encapsulates nothing and gives the key
  // made of rho and c.
  lemma EveryCiphertext(H: Hash, f: Vec, g: Vec, h: Vec, ginv: Vec, rho: Bytes, c: Bytes)
    requires GoodKey(f, g, h, ginv) && |rho| == SMALL_BYTES && |c| == CIPHERTEXT_BYTES
    ensures var pk, sk := PublicKey(h), SecretKey(H, f, ginv, h, rho);
            || (exists r :: Encapsulates(H, pk, c, Decapsulated(H, c, sk), r))
            || ((forall k, r :: !Encapsulates(H, pk, c, k, r))
                && Decapsulated(H, c, sk) == H([0] + (H([3] + rho) + c)))
  {
    var pk, sk := PublicKey(h), SecretKey(H, f, ginv, h, rho);
    hide SmallBytes, PublicKey, SecretKey, HideBytes, Ternary, Within, KeyPair, CongVec, Act, One, Weight,
         DecapsulatedR;
    SecretKeyFields(H, f, ginv, h, rho);
    var r := DecapsulatedR(c, sk);
    DecapsulatedIsShort(c, sk);
    if HideBytes(H, r, pk, HashPrefix(H, 4, pk)) == c {
      assert Encapsulates(H, pk, c, Decapsulated(H, c, sk), r);
    } else {
      forall k, r' | Encapsulates(H, pk, c, k, r') ensures false {
        DecryptsBack(H, f, g, h, ginv, rho, c, k, r');
      }
    }
  }
}
