/**
 Congruences and centred residues: the arithmetic of the two coefficient fields
 of the KEM, Z/3 and Z/q with q = 4591, whose elements the code keeps in the
 centred interval (vendor-sntrup761/sntrup761.c:362-394).
 */
module ModArith {

  const Q := 4591
  const Q12 := 2295

  datatype Field = F3 | Fq

  function Modulus(F: Field): (m: int)
    ensures m > 2 && m % 2 == 1
  {
    match F
    case F3 => 3
    case Fq => 4591
  }

  // A case split, so that both moduli are numerals to the verifier.
  ghost predicate Cong(a: int, b: int, F: Field) {
    match F
    case F3 => (a - b) % 3 == 0
    case Fq => (a - b) % 4591 == 0
  }

  lemma CongFromQuotient(a: int, b: int, k: int, F: Field)
    requires a - b == k * Modulus(F)
    ensures Cong(a, b, F)
  {
    match F
    case F3 => assert a - b == 3 * k;
    case Fq => assert a - b == 4591 * k;
  }

  lemma CongQuotient(a: int, b: int, F: Field) returns (k: int)
    requires Cong(a, b, F)
    ensures a - b == k * Modulus(F)
  {
    k := (a - b) / Modulus(F);
  }

  lemma CongRefl(a: int, F: Field)
    ensures Cong(a, a, F)
  {
  }

  lemma CongSym(a: int, b: int, F: Field)
    requires Cong(a, b, F)
    ensures Cong(b, a, F)
  {
  }

  lemma CongTrans(a: int, b: int, c: int, F: Field)
    requires Cong(a, b, F) && Cong(b, c, F)
    ensures Cong(a, c, F)
  {
    var k := CongQuotient(a, b, F);
    var l := CongQuotient(b, c, F);
    Distribute(k, l, Modulus(F));
    CongFromQuotient(a, c, k + l, F);
  }

  lemma CongAdd(a: int, b: int, c: int, d: int, F: Field)
    requires Cong(a, b, F) && Cong(c, d, F)
    ensures Cong(a + c, b + d, F)
  {
  }

  lemma Distribute(a: int, b: int, m: int)
    ensures (a + b) * m == a * m + b * m
    ensures (a - b) * m == a * m - b * m
  {
  }

  lemma CongMul(a: int, b: int, c: int, d: int, F: Field)
    requires Cong(a, b, F) && Cong(c, d, F)
    ensures Cong(a * c, b * d, F)
  {
    var k := CongQuotient(a, b, F);
    var l := CongQuotient(c, d, F);
    var m := Modulus(F);
    calc {
      a * c - b * d;
    ==  { Distribute(c, d, a); Distribute(a, b, d); }
      a * (l * m) + (k * m) * d;
    ==
      (a * l) * m + (k * d) * m;
    ==  { Distribute(a * l, k * d, m); }
      (a * l + k * d) * m;
    }
    CongFromQuotient(a * c, b * d, a * l + k * d, F);
  }

  // The representative of a in -(m-1)/2 .. (m-1)/2.
  function Centred(a: int, F: Field): (r: int)
    ensures Cong(r, a, F) && IsCentred(r, F)
  {
    match F
    case F3 => (a + 1) % 3 - 1
    case Fq => (a + Q12) % 4591 - Q12
  }

  predicate IsCentred(a: int, F: Field) {
    match F
    case F3 => -1 <= a <= 1
    case Fq => -2295 <= a <= 2295
  }

  lemma CentredUnique(a: int, b: int, F: Field)
    requires Cong(a, b, F)
    requires IsCentred(a, F) && IsCentred(b, F)
    ensures a == b
  {
  }
}
