/** What the substitution tables are (sections 4.2 and 5.1.1 of FIPS 197): the inverse in GF(2^8), then an
    affine map. */
module AesInversion {
  import opened AesField
  import opened AesSbox

  // ----- Multiplication -----

  /** What a bit of y contributes. */
  function Term(a: bv8, y: bv8, bit: bv8): bv8 { if y & bit != 0 then a else 0 }

  /** x times y: multiples of x by powers of the polynomial x, one for each bit of y. */
  function Product(x: bv8, y: bv8): bv8
  {
    var x1 := XTime(x);
    var x2 := XTime(x1);
    var x3 := XTime(x2);
    var x4 := XTime(x3);
    var x5 := XTime(x4);
    var x6 := XTime(x5);
    var x7 := XTime(x6);
    Term(x, y, 0x01) ^ Term(x1, y, 0x02) ^ Term(x2, y, 0x04) ^ Term(x3, y, 0x08)
    ^ Term(x4, y, 0x10) ^ Term(x5, y, 0x20) ^ Term(x6, y, 0x40) ^ Term(x7, y, 0x80)
  }

  // ----- The affine map -----

  function Rotl(a: bv8, n: nat): bv8
    requires 0 < n < 8
  {
    (a << n) | (a >> (8 - n))
  }

  function Affine(y: bv8): bv8 { y ^ Rotl(y, 1) ^ Rotl(y, 2) ^ Rotl(y, 3) ^ Rotl(y, 4) ^ 0x63 }

  function Bit(a: bv8, n: nat): bv8
    requires n < 8
  {
    (a >> n) & 1
  }

  /** Bit n is the sum of five bits of y and of bit n of 0x63. */
  predicate AffineBit(y: bv8, r: bv8, n: nat)
    requires n < 8
  {
    Bit(r, n)
    == Bit(y, n) ^ Bit(y, (n + 4) % 8) ^ Bit(y, (n + 5) % 8) ^ Bit(y, (n + 6) % 8) ^ Bit(y, (n + 7) % 8) ^ Bit(0x63, n)
  }

  lemma Bits01(y: bv8)
    ensures AffineBit(y, Affine(y), 0) && AffineBit(y, Affine(y), 1)
  {
  }

  lemma Bits23(y: bv8)
    ensures AffineBit(y, Affine(y), 2) && AffineBit(y, Affine(y), 3)
  {
  }

  lemma Bits45(y: bv8)
    ensures AffineBit(y, Affine(y), 4) && AffineBit(y, Affine(y), 5)
  {
  }

  lemma Bits67(y: bv8)
    ensures AffineBit(y, Affine(y), 6) && AffineBit(y, Affine(y), 7)
  {
  }

  lemma AffineBits(y: bv8, n: nat)
    requires n < 8
    ensures AffineBit(y, Affine(y), n)
  {
    Bits01(y);
    Bits23(y);
    Bits45(y);
    Bits67(y);
    hide AffineBit, Affine;
  }

  // ----- Inverses -----

  function Inverse(x: bv8): bv8
  {
    if x <= 0x0F then V0(x)
    else if x <= 0x1F then V1(x)
    else if x <= 0x2F then V2(x)
    else if x <= 0x3F then V3(x)
    else if x <= 0x4F then V4(x)
    else if x <= 0x5F then V5(x)
    else if x <= 0x6F then V6(x)
    else if x <= 0x7F then V7(x)
    else if x <= 0x8F then V8(x)
    else if x <= 0x9F then V9(x)
    else if x <= 0xAF then VA(x)
    else if x <= 0xBF then VB(x)
    else if x <= 0xCF then VC(x)
    else if x <= 0xDF then VD(x)
    else if x <= 0xEF then VE(x)
    else VF(x)
  }

  function V0(x: bv8): bv8
  {
    if x == 0x00 then 0x00 else if x == 0x01 then 0x01 else if x == 0x02 then 0x8D else if x == 0x03 then 0xF6 else
    if x == 0x04 then 0xCB else if x == 0x05 then 0x52 else if x == 0x06 then 0x7B else if x == 0x07 then 0xD1 else
    if x == 0x08 then 0xE8 else if x == 0x09 then 0x4F else if x == 0x0A then 0x29 else if x == 0x0B then 0xC0 else
    if x == 0x0C then 0xB0 else if x == 0x0D then 0xE1 else if x == 0x0E then 0xE5 else 0xC7
  }

  function V1(x: bv8): bv8
  {
    if x == 0x10 then 0x74 else if x == 0x11 then 0xB4 else if x == 0x12 then 0xAA else if x == 0x13 then 0x4B else
    if x == 0x14 then 0x99 else if x == 0x15 then 0x2B else if x == 0x16 then 0x60 else if x == 0x17 then 0x5F else
    if x == 0x18 then 0x58 else if x == 0x19 then 0x3F else if x == 0x1A then 0xFD else if x == 0x1B then 0xCC else
    if x == 0x1C then 0xFF else if x == 0x1D then 0x40 else if x == 0x1E then 0xEE else 0xB2
  }

  function V2(x: bv8): bv8
  {
    if x == 0x20 then 0x3A else if x == 0x21 then 0x6E else if x == 0x22 then 0x5A else if x == 0x23 then 0xF1 else
    if x == 0x24 then 0x55 else if x == 0x25 then 0x4D else if x == 0x26 then 0xA8 else if x == 0x27 then 0xC9 else
    if x == 0x28 then 0xC1 else if x == 0x29 then 0x0A else if x == 0x2A then 0x98 else if x == 0x2B then 0x15 else
    if x == 0x2C then 0x30 else if x == 0x2D then 0x44 else if x == 0x2E then 0xA2 else 0xC2
  }

  function V3(x: bv8): bv8
  {
    if x == 0x30 then 0x2C else if x == 0x31 then 0x45 else if x == 0x32 then 0x92 else if x == 0x33 then 0x6C else
    if x == 0x34 then 0xF3 else if x == 0x35 then 0x39 else if x == 0x36 then 0x66 else if x == 0x37 then 0x42 else
    if x == 0x38 then 0xF2 else if x == 0x39 then 0x35 else if x == 0x3A then 0x20 else if x == 0x3B then 0x6F else
    if x == 0x3C then 0x77 else if x == 0x3D then 0xBB else if x == 0x3E then 0x59 else 0x19
  }

  function V4(x: bv8): bv8
  {
    if x == 0x40 then 0x1D else if x == 0x41 then 0xFE else if x == 0x42 then 0x37 else if x == 0x43 then 0x67 else
    if x == 0x44 then 0x2D else if x == 0x45 then 0x31 else if x == 0x46 then 0xF5 else if x == 0x47 then 0x69 else
    if x == 0x48 then 0xA7 else if x == 0x49 then 0x64 else if x == 0x4A then 0xAB else if x == 0x4B then 0x13 else
    if x == 0x4C then 0x54 else if x == 0x4D then 0x25 else if x == 0x4E then 0xE9 else 0x09
  }

  function V5(x: bv8): bv8
  {
    if x == 0x50 then 0xED else if x == 0x51 then 0x5C else if x == 0x52 then 0x05 else if x == 0x53 then 0xCA else
    if x == 0x54 then 0x4C else if x == 0x55 then 0x24 else if x == 0x56 then 0x87 else if x == 0x57 then 0xBF else
    if x == 0x58 then 0x18 else if x == 0x59 then 0x3E else if x == 0x5A then 0x22 else if x == 0x5B then 0xF0 else
    if x == 0x5C then 0x51 else if x == 0x5D then 0xEC else if x == 0x5E then 0x61 else 0x17
  }

  function V6(x: bv8): bv8
  {
    if x == 0x60 then 0x16 else if x == 0x61 then 0x5E else if x == 0x62 then 0xAF else if x == 0x63 then 0xD3 else
    if x == 0x64 then 0x49 else if x == 0x65 then 0xA6 else if x == 0x66 then 0x36 else if x == 0x67 then 0x43 else
    if x == 0x68 then 0xF4 else if x == 0x69 then 0x47 else if x == 0x6A then 0x91 else if x == 0x6B then 0xDF else
    if x == 0x6C then 0x33 else if x == 0x6D then 0x93 else if x == 0x6E then 0x21 else 0x3B
  }

  function V7(x: bv8): bv8
  {
    if x == 0x70 then 0x79 else if x == 0x71 then 0xB7 else if x == 0x72 then 0x97 else if x == 0x73 then 0x85 else
    if x == 0x74 then 0x10 else if x == 0x75 then 0xB5 else if x == 0x76 then 0xBA else if x == 0x77 then 0x3C else
    if x == 0x78 then 0xB6 else if x == 0x79 then 0x70 else if x == 0x7A then 0xD0 else if x == 0x7B then 0x06 else
    if x == 0x7C then 0xA1 else if x == 0x7D then 0xFA else if x == 0x7E then 0x81 else 0x82
  }

  function V8(x: bv8): bv8
  {
    if x == 0x80 then 0x83 else if x == 0x81 then 0x7E else if x == 0x82 then 0x7F else if x == 0x83 then 0x80 else
    if x == 0x84 then 0x96 else if x == 0x85 then 0x73 else if x == 0x86 then 0xBE else if x == 0x87 then 0x56 else
    if x == 0x88 then 0x9B else if x == 0x89 then 0x9E else if x == 0x8A then 0x95 else if x == 0x8B then 0xD9 else
    if x == 0x8C then 0xF7 else if x == 0x8D then 0x02 else if x == 0x8E then 0xB9 else 0xA4
  }

  function V9(x: bv8): bv8
  {
    if x == 0x90 then 0xDE else if x == 0x91 then 0x6A else if x == 0x92 then 0x32 else if x == 0x93 then 0x6D else
    if x == 0x94 then 0xD8 else if x == 0x95 then 0x8A else if x == 0x96 then 0x84 else if x == 0x97 then 0x72 else
    if x == 0x98 then 0x2A else if x == 0x99 then 0x14 else if x == 0x9A then 0x9F else if x == 0x9B then 0x88 else
    if x == 0x9C then 0xF9 else if x == 0x9D then 0xDC else if x == 0x9E then 0x89 else 0x9A
  }

  function VA(x: bv8): bv8
  {
    if x == 0xA0 then 0xFB else if x == 0xA1 then 0x7C else if x == 0xA2 then 0x2E else if x == 0xA3 then 0xC3 else
    if x == 0xA4 then 0x8F else if x == 0xA5 then 0xB8 else if x == 0xA6 then 0x65 else if x == 0xA7 then 0x48 else
    if x == 0xA8 then 0x26 else if x == 0xA9 then 0xC8 else if x == 0xAA then 0x12 else if x == 0xAB then 0x4A else
    if x == 0xAC then 0xCE else if x == 0xAD then 0xE7 else if x == 0xAE then 0xD2 else 0x62
  }

  function VB(x: bv8): bv8
  {
    if x == 0xB0 then 0x0C else if x == 0xB1 then 0xE0 else if x == 0xB2 then 0x1F else if x == 0xB3 then 0xEF else
    if x == 0xB4 then 0x11 else if x == 0xB5 then 0x75 else if x == 0xB6 then 0x78 else if x == 0xB7 then 0x71 else
    if x == 0xB8 then 0xA5 else if x == 0xB9 then 0x8E else if x == 0xBA then 0x76 else if x == 0xBB then 0x3D else
    if x == 0xBC then 0xBD else if x == 0xBD then 0xBC else if x == 0xBE then 0x86 else 0x57
  }

  function VC(x: bv8): bv8
  {
    if x == 0xC0 then 0x0B else if x == 0xC1 then 0x28 else if x == 0xC2 then 0x2F else if x == 0xC3 then 0xA3 else
    if x == 0xC4 then 0xDA else if x == 0xC5 then 0xD4 else if x == 0xC6 then 0xE4 else if x == 0xC7 then 0x0F else
    if x == 0xC8 then 0xA9 else if x == 0xC9 then 0x27 else if x == 0xCA then 0x53 else if x == 0xCB then 0x04 else
    if x == 0xCC then 0x1B else if x == 0xCD then 0xFC else if x == 0xCE then 0xAC else 0xE6
  }

  function VD(x: bv8): bv8
  {
    if x == 0xD0 then 0x7A else if x == 0xD1 then 0x07 else if x == 0xD2 then 0xAE else if x == 0xD3 then 0x63 else
    if x == 0xD4 then 0xC5 else if x == 0xD5 then 0xDB else if x == 0xD6 then 0xE2 else if x == 0xD7 then 0xEA else
    if x == 0xD8 then 0x94 else if x == 0xD9 then 0x8B else if x == 0xDA then 0xC4 else if x == 0xDB then 0xD5 else
    if x == 0xDC then 0x9D else if x == 0xDD then 0xF8 else if x == 0xDE then 0x90 else 0x6B
  }

  function VE(x: bv8): bv8
  {
    if x == 0xE0 then 0xB1 else if x == 0xE1 then 0x0D else if x == 0xE2 then 0xD6 else if x == 0xE3 then 0xEB else
    if x == 0xE4 then 0xC6 else if x == 0xE5 then 0x0E else if x == 0xE6 then 0xCF else if x == 0xE7 then 0xAD else
    if x == 0xE8 then 0x08 else if x == 0xE9 then 0x4E else if x == 0xEA then 0xD7 else if x == 0xEB then 0xE3 else
    if x == 0xEC then 0x5D else if x == 0xED then 0x50 else if x == 0xEE then 0x1E else 0xB3
  }

  function VF(x: bv8): bv8
  {
    if x == 0xF0 then 0x5B else if x == 0xF1 then 0x23 else if x == 0xF2 then 0x38 else if x == 0xF3 then 0x34 else
    if x == 0xF4 then 0x68 else if x == 0xF5 then 0x46 else if x == 0xF6 then 0x03 else if x == 0xF7 then 0x8C else
    if x == 0xF8 then 0xDD else if x == 0xF9 then 0x9C else if x == 0xFA then 0x7D else if x == 0xFB then 0xA0 else
    if x == 0xFC then 0xCD else if x == 0xFD then 0x1A else if x == 0xFE then 0x41 else 0x1C
  }

  lemma Product0(x: bv8)
    requires x <= 0x0F
    ensures Product(x, V0(x)) == if x == 0 then 0 else 1
  {
  }

  lemma Entry0(x: bv8)
    requires x <= 0x0F
    ensures S0(x) == Affine(V0(x))
  {
  }

  lemma Product1(x: bv8)
    requires 0x10 <= x <= 0x1F
    ensures Product(x, V1(x)) == 1
  {
  }

  lemma Entry1(x: bv8)
    requires 0x10 <= x <= 0x1F
    ensures S1(x) == Affine(V1(x))
  {
  }

  lemma Product2(x: bv8)
    requires 0x20 <= x <= 0x2F
    ensures Product(x, V2(x)) == 1
  {
  }

  lemma Entry2(x: bv8)
    requires 0x20 <= x <= 0x2F
    ensures S2(x) == Affine(V2(x))
  {
  }

  lemma Product3(x: bv8)
    requires 0x30 <= x <= 0x3F
    ensures Product(x, V3(x)) == 1
  {
  }

  lemma Entry3(x: bv8)
    requires 0x30 <= x <= 0x3F
    ensures S3(x) == Affine(V3(x))
  {
  }

  lemma Product4(x: bv8)
    requires 0x40 <= x <= 0x4F
    ensures Product(x, V4(x)) == 1
  {
  }

  lemma Entry4(x: bv8)
    requires 0x40 <= x <= 0x4F
    ensures S4(x) == Affine(V4(x))
  {
  }

  lemma Product5(x: bv8)
    requires 0x50 <= x <= 0x5F
    ensures Product(x, V5(x)) == 1
  {
  }

  lemma Entry5(x: bv8)
    requires 0x50 <= x <= 0x5F
    ensures S5(x) == Affine(V5(x))
  {
  }

  lemma Product6(x: bv8)
    requires 0x60 <= x <= 0x6F
    ensures Product(x, V6(x)) == 1
  {
  }

  lemma Entry6(x: bv8)
    requires 0x60 <= x <= 0x6F
    ensures S6(x) == Affine(V6(x))
  {
  }

  lemma Product7(x: bv8)
    requires 0x70 <= x <= 0x7F
    ensures Product(x, V7(x)) == 1
  {
  }

  lemma Entry7(x: bv8)
    requires 0x70 <= x <= 0x7F
    ensures S7(x) == Affine(V7(x))
  {
  }

  lemma Product8(x: bv8)
    requires 0x80 <= x <= 0x8F
    ensures Product(x, V8(x)) == 1
  {
  }

  lemma Entry8(x: bv8)
    requires 0x80 <= x <= 0x8F
    ensures S8(x) == Affine(V8(x))
  {
  }

  lemma Product9(x: bv8)
    requires 0x90 <= x <= 0x9F
    ensures Product(x, V9(x)) == 1
  {
  }

  lemma Entry9(x: bv8)
    requires 0x90 <= x <= 0x9F
    ensures S9(x) == Affine(V9(x))
  {
  }

  lemma ProductA(x: bv8)
    requires 0xA0 <= x <= 0xAF
    ensures Product(x, VA(x)) == 1
  {
  }

  lemma EntryA(x: bv8)
    requires 0xA0 <= x <= 0xAF
    ensures SA(x) == Affine(VA(x))
  {
  }

  lemma ProductB(x: bv8)
    requires 0xB0 <= x <= 0xBF
    ensures Product(x, VB(x)) == 1
  {
  }

  lemma EntryB(x: bv8)
    requires 0xB0 <= x <= 0xBF
    ensures SB(x) == Affine(VB(x))
  {
  }

  lemma ProductC(x: bv8)
    requires 0xC0 <= x <= 0xCF
    ensures Product(x, VC(x)) == 1
  {
  }

  lemma EntryC(x: bv8)
    requires 0xC0 <= x <= 0xCF
    ensures SC(x) == Affine(VC(x))
  {
  }

  lemma ProductD(x: bv8)
    requires 0xD0 <= x <= 0xDF
    ensures Product(x, VD(x)) == 1
  {
  }

  lemma EntryD(x: bv8)
    requires 0xD0 <= x <= 0xDF
    ensures SD(x) == Affine(VD(x))
  {
  }

  lemma ProductE(x: bv8)
    requires 0xE0 <= x <= 0xEF
    ensures Product(x, VE(x)) == 1
  {
  }

  lemma EntryE(x: bv8)
    requires 0xE0 <= x <= 0xEF
    ensures SE(x) == Affine(VE(x))
  {
  }

  lemma ProductF(x: bv8)
    requires 0xF0 <= x
    ensures Product(x, VF(x)) == 1
  {
  }

  lemma EntryF(x: bv8)
    requires 0xF0 <= x
    ensures SF(x) == Affine(VF(x))
  {
  }

  lemma InverseIs(x: bv8)
    ensures Product(x, Inverse(x)) == if x == 0 then 0 else 1
  {
    hide Product, V0, V1, V2, V3, V4, V5, V6, V7, V8, V9, VA, VB, VC, VD, VE, VF;
    if x <= 0x0F { Product0(x); }
    else if x <= 0x1F { Product1(x); }
    else if x <= 0x2F { Product2(x); }
    else if x <= 0x3F { Product3(x); }
    else if x <= 0x4F { Product4(x); }
    else if x <= 0x5F { Product5(x); }
    else if x <= 0x6F { Product6(x); }
    else if x <= 0x7F { Product7(x); }
    else if x <= 0x8F { Product8(x); }
    else if x <= 0x9F { Product9(x); }
    else if x <= 0xAF { ProductA(x); }
    else if x <= 0xBF { ProductB(x); }
    else if x <= 0xCF { ProductC(x); }
    else if x <= 0xDF { ProductD(x); }
    else if x <= 0xEF { ProductE(x); }
    else { ProductF(x); }
  }

  // ----- The table -----

  lemma EntryIs(x: bv8)
    ensures Sbox(x) == Affine(Inverse(x))
  {
    hide Affine, V0, V1, V2, V3, V4, V5, V6, V7, V8, V9, VA, VB, VC, VD, VE, VF,
      S0, S1, S2, S3, S4, S5, S6, S7, S8, S9, SA, SB, SC, SD, SE, SF;
    if x <= 0x0F { Entry0(x); }
    else if x <= 0x1F { Entry1(x); }
    else if x <= 0x2F { Entry2(x); }
    else if x <= 0x3F { Entry3(x); }
    else if x <= 0x4F { Entry4(x); }
    else if x <= 0x5F { Entry5(x); }
    else if x <= 0x6F { Entry6(x); }
    else if x <= 0x7F { Entry7(x); }
    else if x <= 0x8F { Entry8(x); }
    else if x <= 0x9F { Entry9(x); }
    else if x <= 0xAF { EntryA(x); }
    else if x <= 0xBF { EntryB(x); }
    else if x <= 0xCF { EntryC(x); }
    else if x <= 0xDF { EntryD(x); }
    else if x <= 0xEF { EntryE(x); }
    else { EntryF(x); }
  }

  /** For every octet the entry is the affine map of its inverse: y with x * y = 1, or 0 for 0. */
  lemma SboxIsInversion(x: bv8) returns (y: bv8)
    ensures Product(x, y) == if x == 0 then 0 else 1
    ensures x == 0 ==> y == 0
    ensures forall n :: 0 <= n < 8 ==> AffineBit(y, Sbox(x), n)
  {
    y := Inverse(x);
    hide Sbox, Affine, AffineBit, Product;
    InverseIs(x);
    EntryIs(x);
    forall n | 0 <= n < 8 ensures AffineBit(y, Sbox(x), n) {
      AffineBits(y, n);
    }
  }
}
