/** The rounds of AES (sections 5.1, 5.2 and 5.3 of FIPS 197) and the tables that compute them in aes.c. */
module AesRounds {
  import opened AesField
  import opened AesSbox

  /** A column, first row first: a 32-bit word on a little-endian processor. */
  datatype Col = Col(a: bv8, b: bv8, c: bv8, d: bv8)

  datatype Block = Block(c0: Col, c1: Col, c2: Col, c3: Col)

  function AddCol(x: Col, y: Col): Col { Col(Add(x.a, y.a), Add(x.b, y.b), Add(x.c, y.c), Add(x.d, y.d)) }

  /** AddRoundKey */
  function AddKey(s: Block, k: Block): Block
  {
    Block(AddCol(s.c0, k.c0), AddCol(s.c1, k.c1), AddCol(s.c2, k.c2), AddCol(s.c3, k.c3))
  }

  function Mix(c: Col): Col
  {
    Col(MixRow(c.a, c.b, c.c, c.d), MixRow(c.b, c.c, c.d, c.a), MixRow(c.c, c.d, c.a, c.b), MixRow(c.d, c.a, c.b, c.c))
  }

  function InvMix(c: Col): Col
  {
    Col(InvRow(c.a, c.b, c.c, c.d), InvRow(c.b, c.c, c.d, c.a), InvRow(c.c, c.d, c.a, c.b), InvRow(c.d, c.a, c.b, c.c))
  }

  function MixColumns(s: Block): Block { Block(Mix(s.c0), Mix(s.c1), Mix(s.c2), Mix(s.c3)) }

  function InvMixColumns(s: Block): Block { Block(InvMix(s.c0), InvMix(s.c1), InvMix(s.c2), InvMix(s.c3)) }

  function SubCol(c: Col): Col { Col(Sbox(c.a), Sbox(c.b), Sbox(c.c), Sbox(c.d)) }

  function InvSubCol(c: Col): Col { Col(InvSbox(c.a), InvSbox(c.b), InvSbox(c.c), InvSbox(c.d)) }

  function SubBytes(s: Block): Block { Block(SubCol(s.c0), SubCol(s.c1), SubCol(s.c2), SubCol(s.c3)) }

  function InvSubBytes(s: Block): Block { Block(InvSubCol(s.c0), InvSubCol(s.c1), InvSubCol(s.c2), InvSubCol(s.c3)) }

  function ShiftRows(s: Block): Block
  {
    Block(Col(s.c0.a, s.c1.b, s.c2.c, s.c3.d), Col(s.c1.a, s.c2.b, s.c3.c, s.c0.d),
          Col(s.c2.a, s.c3.b, s.c0.c, s.c1.d), Col(s.c3.a, s.c0.b, s.c1.c, s.c2.d))
  }

  function InvShiftRows(s: Block): Block
  {
    Block(Col(s.c0.a, s.c3.b, s.c2.c, s.c1.d), Col(s.c1.a, s.c0.b, s.c3.c, s.c2.d),
          Col(s.c2.a, s.c1.b, s.c0.c, s.c3.d), Col(s.c3.a, s.c2.b, s.c1.c, s.c0.d))
  }

  function Round(s: Block, k: Block): Block { AddKey(MixColumns(ShiftRows(SubBytes(s))), k) }

  function FinalRound(s: Block, k: Block): Block { AddKey(ShiftRows(SubBytes(s)), k) }

  /** The rounds of the equivalent inverse cipher (section 5.3.5). */
  function InvRound(s: Block, k: Block): Block { AddKey(InvMixColumns(InvShiftRows(InvSubBytes(s))), k) }

  function InvFinalRound(s: Block, k: Block): Block { AddKey(InvShiftRows(InvSubBytes(s)), k) }

  // ----- Inverses -----

  lemma AddTwice(a: bv8, b: bv8)
    ensures Add(Add(a, b), b) == a
  {
  }

  lemma AddColTwice(x: Col, y: Col)
    ensures AddCol(AddCol(x, y), y) == x
  {
    hide Add;
    AddTwice(x.a, y.a);
    AddTwice(x.b, y.b);
    AddTwice(x.c, y.c);
    AddTwice(x.d, y.d);
  }

  lemma AddKeyTwice(s: Block, k: Block)
    ensures AddKey(AddKey(s, k), k) == s
  {
    hide AddCol;
    AddColTwice(s.c0, k.c0);
    AddColTwice(s.c1, k.c1);
    AddColTwice(s.c2, k.c2);
    AddColTwice(s.c3, k.c3);
  }

  lemma InvMixMix(c: Col)
    ensures InvMix(Mix(c)) == c
  {
    hide InvRow, MixRow;
    InvRowMixed(c.a, c.b, c.c, c.d);
    InvRowMixed(c.b, c.c, c.d, c.a);
    InvRowMixed(c.c, c.d, c.a, c.b);
    InvRowMixed(c.d, c.a, c.b, c.c);
  }

  lemma InvMixAdds(x: Col, y: Col)
    ensures InvMix(AddCol(x, y)) == AddCol(InvMix(x), InvMix(y))
  {
    hide InvRow, Add;
    InvRowAdds(x.a, x.b, x.c, x.d, y.a, y.b, y.c, y.d);
    InvRowAdds(x.b, x.c, x.d, x.a, y.b, y.c, y.d, y.a);
    InvRowAdds(x.c, x.d, x.a, x.b, y.c, y.d, y.a, y.b);
    InvRowAdds(x.d, x.a, x.b, x.c, y.d, y.a, y.b, y.c);
  }

  lemma InvMixColumnsUndoes(s: Block)
    ensures InvMixColumns(MixColumns(s)) == s
  {
    hide InvMix, Mix;
    InvMixMix(s.c0);
    InvMixMix(s.c1);
    InvMixMix(s.c2);
    InvMixMix(s.c3);
  }

  lemma InvMixColumnsAdds(s: Block, k: Block)
    ensures InvMixColumns(AddKey(s, k)) == AddKey(InvMixColumns(s), InvMixColumns(k))
  {
    hide InvMix, AddCol;
    InvMixAdds(s.c0, k.c0);
    InvMixAdds(s.c1, k.c1);
    InvMixAdds(s.c2, k.c2);
    InvMixAdds(s.c3, k.c3);
  }

  /** Substitution works octet by octet, so it may follow or precede the shift. */
  lemma InvShiftSub(s: Block)
    ensures InvShiftRows(InvSubBytes(ShiftRows(SubBytes(s)))) == s
  {
    hide Sbox, InvSbox;
    SboxesInverse(s.c0);
    SboxesInverse(s.c1);
    SboxesInverse(s.c2);
    SboxesInverse(s.c3);
  }

  lemma SboxesInverse(c: Col)
    ensures InvSbox(Sbox(c.a)) == c.a && InvSbox(Sbox(c.b)) == c.b && InvSbox(Sbox(c.c)) == c.c && InvSbox(Sbox(c.d)) == c.d
  {
    hide Sbox, InvSbox;
    SboxInverse(c.a);
    SboxInverse(c.b);
    SboxInverse(c.c);
    SboxInverse(c.d);
  }

  /** One inverse round takes the state after a round's shift back to the state before that shift. */
  lemma InvRoundUndoes(s: Block, k: Block)
    ensures InvRound(ShiftRows(SubBytes(Round(s, k))), InvMixColumns(k)) == ShiftRows(SubBytes(s))
  {
    hide ShiftRows, SubBytes, MixColumns, AddKey, InvMixColumns, InvShiftRows, InvSubBytes;
    var t := ShiftRows(SubBytes(s));
    InvShiftSub(Round(s, k));
    InvMixColumnsAdds(MixColumns(t), k);
    InvMixColumnsUndoes(t);
    AddKeyTwice(t, InvMixColumns(k));
  }

  // ----- Tables -----

  function T0(x: bv8): Col { Col(M2(Sbox(x)), Sbox(x), Sbox(x), M3(Sbox(x))) }
  function T1(x: bv8): Col { Col(M3(Sbox(x)), M2(Sbox(x)), Sbox(x), Sbox(x)) }
  function T2(x: bv8): Col { Col(Sbox(x), M3(Sbox(x)), M2(Sbox(x)), Sbox(x)) }
  function T3(x: bv8): Col { Col(Sbox(x), Sbox(x), M3(Sbox(x)), M2(Sbox(x))) }

  function U0(x: bv8): Col { Col(M14(InvSbox(x)), M9(InvSbox(x)), M13(InvSbox(x)), M11(InvSbox(x))) }
  function U1(x: bv8): Col { Col(M11(InvSbox(x)), M14(InvSbox(x)), M9(InvSbox(x)), M13(InvSbox(x))) }
  function U2(x: bv8): Col { Col(M13(InvSbox(x)), M11(InvSbox(x)), M14(InvSbox(x)), M9(InvSbox(x))) }
  function U3(x: bv8): Col { Col(M9(InvSbox(x)), M13(InvSbox(x)), M11(InvSbox(x)), M14(InvSbox(x))) }

  function SumCols(w: Col, x: Col, y: Col, z: Col): Col
  {
    Col(Add4(w.a, x.a, y.a, z.a), Add4(w.b, x.b, y.b, z.b), Add4(w.c, x.c, y.c, z.c), Add4(w.d, x.d, y.d, z.d))
  }

  /** Four table entries make a substituted and mixed column. */
  lemma TablesMix(w: bv8, x: bv8, y: bv8, z: bv8)
    ensures SumCols(T0(w), T1(x), T2(y), T3(z)) == Mix(SubCol(Col(w, x, y, z)))
  {
    hide Add4, Sbox, M2, M3;
    var (a, b, c, d) := (Sbox(w), Sbox(x), Sbox(y), Sbox(z));
    Rotate(a, M2(b), M3(c), d);
    Rotate(a, b, M2(c), M3(d));
    Rotate(b, M2(c), M3(d), a);
    Rotate(M3(a), b, c, M2(d));
    Rotate(b, c, M2(d), M3(a));
    Rotate(c, M2(d), M3(a), b);
  }

  lemma InverseTablesMix(w: bv8, x: bv8, y: bv8, z: bv8)
    ensures SumCols(U0(w), U1(x), U2(y), U3(z)) == InvMix(InvSubCol(Col(w, x, y, z)))
  {
    hide Add4, InvSbox, M9, M11, M13, M14;
    var (a, b, c, d) := (InvSbox(w), InvSbox(x), InvSbox(y), InvSbox(z));
    Rotate(M9(a), M14(b), M11(c), M13(d));
    Rotate(M13(a), M9(b), M14(c), M11(d));
    Rotate(M9(b), M14(c), M11(d), M13(a));
    Rotate(M11(a), M13(b), M9(c), M14(d));
    Rotate(M13(b), M9(c), M14(d), M11(a));
    Rotate(M9(c), M14(d), M11(a), M13(b));
  }

  /** The tables after the substitution: the inverse mix alone. */
  lemma InverseTablesAfterSbox(c: Col)
    ensures SumCols(U0(Sbox(c.a)), U1(Sbox(c.b)), U2(Sbox(c.c)), U3(Sbox(c.d))) == InvMix(c)
  {
    hide SumCols, U0, U1, U2, U3, Sbox, InvSbox, InvMix;
    InverseTablesMix(Sbox(c.a), Sbox(c.b), Sbox(c.c), Sbox(c.d));
    SboxesInverse(c);
  }
}
