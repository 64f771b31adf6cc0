// Arithmetic in GF(2^8) as section 4 of FIPS 197 defines it, and the affine map of
// its S-box.
module GaloisField {

  // Addition of polynomials.
  function Add(a: bv8, b: bv8): bv8 { a ^ b }

  // Multiplication by x modulo x^8 + x^4 + x^3 + x + 1, and by x^2 and x^3.
  function XTime(a: bv8): bv8 { (a << 1) ^ (if a & 0x80 != 0 then 0x1b else 0) }
  function XTime2(a: bv8): bv8 { XTime(XTime(a)) }
  function XTime3(a: bv8): bv8 { XTime(XTime(XTime(a))) }

  // a times b: the sum of a * x^k over the bits k set in b.
  function Mul(a: bv8, b: bv8): bv8 {
    var a4 := XTime(XTime3(a));
    (if b & 0x01 != 0 then a else 0) ^ (if b & 0x02 != 0 then XTime(a) else 0) ^
    (if b & 0x04 != 0 then XTime2(a) else 0) ^ (if b & 0x08 != 0 then XTime3(a) else 0) ^
    (if b & 0x10 != 0 then a4 else 0) ^ (if b & 0x20 != 0 then XTime(a4) else 0) ^
    (if b & 0x40 != 0 then XTime2(a4) else 0) ^ (if b & 0x80 != 0 then XTime3(a4) else 0)
  }

  // The coefficients of MixColumns and InvMixColumns.
  function Times2(a: bv8): bv8 { XTime(a) }
  function Times3(a: bv8): bv8 { XTime(a) ^ a }
  function Times9(a: bv8): bv8 { XTime3(a) ^ a }
  function TimesB(a: bv8): bv8 { XTime3(a) ^ XTime(a) ^ a }
  function TimesD(a: bv8): bv8 { XTime3(a) ^ XTime2(a) ^ a }
  function TimesE(a: bv8): bv8 { XTime3(a) ^ XTime2(a) ^ XTime(a) }

  lemma CoefficientsAreProducts(a: bv8)
    ensures Times2(a) == Mul(a, 2) && Times3(a) == Mul(a, 3)
    ensures Times9(a) == Mul(a, 0x09) && TimesB(a) == Mul(a, 0x0b)
    ensures TimesD(a) == Mul(a, 0x0d) && TimesE(a) == Mul(a, 0x0e)
  {
  }

  // The affine map of section 5.1.1 of FIPS 197 and its inverse.
  function Affine(b: bv8): bv8 {
    b ^ b.RotateLeft(1) ^ b.RotateLeft(2) ^ b.RotateLeft(3) ^ b.RotateLeft(4) ^ 0x63
  }

  function InvAffine(b: bv8): bv8 {
    b.RotateLeft(1) ^ b.RotateLeft(3) ^ b.RotateLeft(6) ^ 0x05
  }

  lemma AffineInvAffine(b: bv8)
    ensures Affine(InvAffine(b)) == b
    ensures InvAffine(Affine(b)) == b
  {
  }

  lemma AddCommutes(a: bv8, b: bv8)
    ensures Add(a, b) == Add(b, a)
  {
  }

  lemma AddAssociates(a: bv8, b: bv8, c: bv8)
    ensures Add(Add(a, b), c) == Add(a, Add(b, c))
  {
  }

  // The sum of two sums, regrouped.
  lemma AddSwap(a: bv8, b: bv8, c: bv8, d: bv8)
    ensures Add(Add(a, b), Add(c, d)) == Add(Add(a, c), Add(b, d))
  {
    hide Add;
    calc {
      Add(Add(a, b), Add(c, d));
      { AddAssociates(a, b, Add(c, d)); AddAssociates(b, c, d); }
      Add(a, Add(Add(b, c), d));
      { AddCommutes(b, c); AddAssociates(c, b, d); }
      Add(a, Add(c, Add(b, d)));
      { AddAssociates(a, c, Add(b, d)); }
      Add(Add(a, c), Add(b, d));
    }
  }

  // Multiplication by a constant is linear. The proofs below see Add as a symbol and
  // regroup sums with AddSwap alone.
  lemma XTimeDistributes(a: bv8, b: bv8)
    ensures XTime(Add(a, b)) == Add(XTime(a), XTime(b))
  {
    assert (a ^ b) << 1 == (a << 1) ^ (b << 1);
    if a & 0x80 == 0 && b & 0x80 == 0 {
      assert (a ^ b) & 0x80 == 0;
    } else if a & 0x80 == 0 || b & 0x80 == 0 {
      assert (a ^ b) & 0x80 != 0;
    } else {
      assert (a ^ b) & 0x80 == 0;
    }
  }

  lemma PowersDistribute(a: bv8, b: bv8)
    ensures XTime(Add(a, b)) == Add(XTime(a), XTime(b))
    ensures XTime2(Add(a, b)) == Add(XTime2(a), XTime2(b))
    ensures XTime3(Add(a, b)) == Add(XTime3(a), XTime3(b))
  {
    hide XTime, Add;
    XTimeDistributes(a, b);
    XTimeDistributes(XTime(a), XTime(b));
    XTimeDistributes(XTime2(a), XTime2(b));
  }

  lemma Times3IsSum(a: bv8)
    ensures Times3(a) == Add(XTime(a), a)
  {
  }

  lemma Times9IsSum(a: bv8)
    ensures Times9(a) == Add(XTime3(a), a)
  {
  }

  lemma TimesBIsSum(a: bv8)
    ensures TimesB(a) == Add(XTime3(a), Times3(a))
  {
  }

  lemma TimesDIsSum(a: bv8)
    ensures TimesD(a) == Add(XTime3(a), Add(XTime2(a), a))
  {
  }

  lemma TimesEIsSum(a: bv8)
    ensures TimesE(a) == Add(XTime3(a), Add(XTime2(a), XTime(a)))
  {
  }

  lemma CoefficientsAreSums(a: bv8)
    ensures Times2(a) == XTime(a)
    ensures Times3(a) == Add(XTime(a), a)
    ensures Times9(a) == Add(XTime3(a), a)
    ensures TimesB(a) == Add(XTime3(a), Times3(a))
    ensures TimesD(a) == Add(XTime3(a), Add(XTime2(a), a))
    ensures TimesE(a) == Add(XTime3(a), Add(XTime2(a), XTime(a)))
  {
    hide XTime, XTime2, XTime3, Times3, Times9, TimesB, TimesD, TimesE, Add;
    Times3IsSum(a);
    Times9IsSum(a);
    TimesBIsSum(a);
    TimesDIsSum(a);
    TimesEIsSum(a);
  }

  lemma CoefficientsDistribute(a: bv8, b: bv8)
    ensures Times2(Add(a, b)) == Add(Times2(a), Times2(b))
    ensures Times3(Add(a, b)) == Add(Times3(a), Times3(b))
    ensures Times9(Add(a, b)) == Add(Times9(a), Times9(b))
    ensures TimesB(Add(a, b)) == Add(TimesB(a), TimesB(b))
    ensures TimesD(Add(a, b)) == Add(TimesD(a), TimesD(b))
    ensures TimesE(Add(a, b)) == Add(TimesE(a), TimesE(b))
  {
    hide *;
    CoefficientsAreSums(a);
    CoefficientsAreSums(b);
    CoefficientsAreSums(Add(a, b));
    PowersDistribute(a, b);
    AddSwap(XTime(a), XTime(b), a, b);
    AddSwap(XTime2(a), XTime2(b), a, b);
    AddSwap(XTime2(a), XTime2(b), XTime(a), XTime(b));
    AddSwap(XTime3(a), XTime3(b), a, b);
    AddSwap(XTime3(a), XTime3(b), Times3(a), Times3(b));
    AddSwap(XTime3(a), XTime3(b), Add(XTime2(a), a), Add(XTime2(b), b));
    AddSwap(XTime3(a), XTime3(b), Add(XTime2(a), XTime(a)), Add(XTime2(b), XTime(b)));
  }

  // One byte of MixColumns and of InvMixColumns (sections 5.1.3 and 5.3.3 of
  // FIPS 197); the other three bytes of a column rotate the arguments.
  function MixByte(b0: bv8, b1: bv8, b2: bv8, b3: bv8): bv8 {
    Add(Add(Times2(b0), Times3(b1)), Add(b2, b3))
  }

  function InvMixByte(b0: bv8, b1: bv8, b2: bv8, b3: bv8): bv8 {
    Add(Add(TimesE(b0), TimesB(b1)), Add(TimesD(b2), Times9(b3)))
  }

  lemma AddSwap4(a0: bv8, a1: bv8, a2: bv8, a3: bv8, b0: bv8, b1: bv8, b2: bv8, b3: bv8)
    ensures Add(Add(Add(a0, b0), Add(a1, b1)), Add(Add(a2, b2), Add(a3, b3)))
         == Add(Add(Add(a0, a1), Add(a2, a3)), Add(Add(b0, b1), Add(b2, b3)))
  {
    hide Add;
    AddSwap(a0, b0, a1, b1);
    AddSwap(a2, b2, a3, b3);
    AddSwap(Add(a0, a1), Add(b0, b1), Add(a2, a3), Add(b2, b3));
  }

  lemma MixByteDistributes(a0: bv8, a1: bv8, a2: bv8, a3: bv8, b0: bv8, b1: bv8, b2: bv8, b3: bv8)
    ensures MixByte(Add(a0, b0), Add(a1, b1), Add(a2, b2), Add(a3, b3))
         == Add(MixByte(a0, a1, a2, a3), MixByte(b0, b1, b2, b3))
  {
    hide Times2, Times3, Add;
    CoefficientsDistribute(a0, b0);
    CoefficientsDistribute(a1, b1);
    AddSwap4(Times2(a0), Times3(a1), a2, a3, Times2(b0), Times3(b1), b2, b3);
  }

  lemma InvMixByteDistributes(a0: bv8, a1: bv8, a2: bv8, a3: bv8, b0: bv8, b1: bv8, b2: bv8, b3: bv8)
    ensures InvMixByte(Add(a0, b0), Add(a1, b1), Add(a2, b2), Add(a3, b3))
         == Add(InvMixByte(a0, a1, a2, a3), InvMixByte(b0, b1, b2, b3))
  {
    hide TimesE, TimesB, TimesD, Times9, Add;
    CoefficientsDistribute(a0, b0);
    CoefficientsDistribute(a1, b1);
    CoefficientsDistribute(a2, b2);
    CoefficientsDistribute(a3, b3);
    AddSwap4(TimesE(a0), TimesB(a1), TimesD(a2), Times9(a3), TimesE(b0), TimesB(b1), TimesD(b2), Times9(b3));
  }
}
