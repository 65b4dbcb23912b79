/** The example of appendix C.3 of FIPS 197: a key of 256 bits, expanded and used. */
module AesAnswer {
  import opened AesSbox
  import opened AesRounds
  import opened AesCipher
  import opened AesKeys

  /** 00 01 02 ... 1F */
  function CountingKey(): (k: seq<bv8>)
    ensures |k| == 32
  {
    [0x00, 0x01, 0x02, 0x03, 0x04, 0x05, 0x06, 0x07, 0x08, 0x09, 0x0A, 0x0B, 0x0C, 0x0D, 0x0E, 0x0F]
    + [0x10, 0x11, 0x12, 0x13, 0x14, 0x15, 0x16, 0x17, 0x18, 0x19, 0x1A, 0x1B, 0x1C, 0x1D, 0x1E, 0x1F]
  }

  const PLAIN := Block(Col(0x00, 0x11, 0x22, 0x33), Col(0x44, 0x55, 0x66, 0x77), Col(0x88, 0x99, 0xAA, 0xBB), Col(0xCC, 0xDD, 0xEE, 0xFF))

  const K0 := Block(Col(0x00, 0x01, 0x02, 0x03), Col(0x04, 0x05, 0x06, 0x07), Col(0x08, 0x09, 0x0A, 0x0B), Col(0x0C, 0x0D, 0x0E, 0x0F))
  const K1 := Block(Col(0x10, 0x11, 0x12, 0x13), Col(0x14, 0x15, 0x16, 0x17), Col(0x18, 0x19, 0x1A, 0x1B), Col(0x1C, 0x1D, 0x1E, 0x1F))
  const K2 := Block(Col(0xA5, 0x73, 0xC2, 0x9F), Col(0xA1, 0x76, 0xC4, 0x98), Col(0xA9, 0x7F, 0xCE, 0x93), Col(0xA5, 0x72, 0xC0, 0x9C))
  const K3 := Block(Col(0x16, 0x51, 0xA8, 0xCD), Col(0x02, 0x44, 0xBE, 0xDA), Col(0x1A, 0x5D, 0xA4, 0xC1), Col(0x06, 0x40, 0xBA, 0xDE))
  const K4 := Block(Col(0xAE, 0x87, 0xDF, 0xF0), Col(0x0F, 0xF1, 0x1B, 0x68), Col(0xA6, 0x8E, 0xD5, 0xFB), Col(0x03, 0xFC, 0x15, 0x67))
  const K5 := Block(Col(0x6D, 0xE1, 0xF1, 0x48), Col(0x6F, 0xA5, 0x4F, 0x92), Col(0x75, 0xF8, 0xEB, 0x53), Col(0x73, 0xB8, 0x51, 0x8D))
  const K6 := Block(Col(0xC6, 0x56, 0x82, 0x7F), Col(0xC9, 0xA7, 0x99, 0x17), Col(0x6F, 0x29, 0x4C, 0xEC), Col(0x6C, 0xD5, 0x59, 0x8B))
  const K7 := Block(Col(0x3D, 0xE2, 0x3A, 0x75), Col(0x52, 0x47, 0x75, 0xE7), Col(0x27, 0xBF, 0x9E, 0xB4), Col(0x54, 0x07, 0xCF, 0x39))
  const K8 := Block(Col(0x0B, 0xDC, 0x90, 0x5F), Col(0xC2, 0x7B, 0x09, 0x48), Col(0xAD, 0x52, 0x45, 0xA4), Col(0xC1, 0x87, 0x1C, 0x2F))
  const K9 := Block(Col(0x45, 0xF5, 0xA6, 0x60), Col(0x17, 0xB2, 0xD3, 0x87), Col(0x30, 0x0D, 0x4D, 0x33), Col(0x64, 0x0A, 0x82, 0x0A))
  const K10 := Block(Col(0x7C, 0xCF, 0xF7, 0x1C), Col(0xBE, 0xB4, 0xFE, 0x54), Col(0x13, 0xE6, 0xBB, 0xF0), Col(0xD2, 0x61, 0xA7, 0xDF))
  const K11 := Block(Col(0xF0, 0x1A, 0xFA, 0xFE), Col(0xE7, 0xA8, 0x29, 0x79), Col(0xD7, 0xA5, 0x64, 0x4A), Col(0xB3, 0xAF, 0xE6, 0x40))
  const K12 := Block(Col(0x25, 0x41, 0xFE, 0x71), Col(0x9B, 0xF5, 0x00, 0x25), Col(0x88, 0x13, 0xBB, 0xD5), Col(0x5A, 0x72, 0x1C, 0x0A))
  const K13 := Block(Col(0x4E, 0x5A, 0x66, 0x99), Col(0xA9, 0xF2, 0x4F, 0xE0), Col(0x7E, 0x57, 0x2B, 0xAA), Col(0xCD, 0xF8, 0xCD, 0xEA))
  const K14 := Block(Col(0x24, 0xFC, 0x79, 0xCC), Col(0xBF, 0x09, 0x79, 0xE9), Col(0x37, 0x1A, 0xC2, 0x3C), Col(0x6D, 0x68, 0xDE, 0x36))

  /** The states before the rounds, and the block that comes out. */
  const E1 := Block(Col(0x00, 0x10, 0x20, 0x30), Col(0x40, 0x50, 0x60, 0x70), Col(0x80, 0x90, 0xA0, 0xB0), Col(0xC0, 0xD0, 0xE0, 0xF0))
  const E2 := Block(Col(0x4F, 0x63, 0x76, 0x06), Col(0x43, 0xE0, 0xAA, 0x85), Col(0xEF, 0xA7, 0x21, 0x32), Col(0x01, 0xA4, 0xE7, 0x05))
  const E3 := Block(Col(0x18, 0x59, 0xFB, 0xC2), Col(0x8A, 0x1C, 0x00, 0xA0), Col(0x78, 0xED, 0x8A, 0xAD), Col(0xC4, 0x2F, 0x61, 0x09))
  const E4 := Block(Col(0x97, 0x5C, 0x66, 0xC1), Col(0xCB, 0x9F, 0x3F, 0xA8), Col(0xA9, 0x3A, 0x28, 0xDF), Col(0x8E, 0xE1, 0x0F, 0x63))
  const E5 := Block(Col(0x1C, 0x05, 0xF2, 0x71), Col(0xA4, 0x17, 0xE0, 0x4F), Col(0xF9, 0x21, 0xC5, 0xC1), Col(0x04, 0x70, 0x15, 0x54))
  const E6 := Block(Col(0xC3, 0x57, 0xAA, 0xE1), Col(0x1B, 0x45, 0xB7, 0xB0), Col(0xA2, 0xC7, 0xBD, 0x28), Col(0xA8, 0xDC, 0x99, 0xFA))
  const E7 := Block(Col(0x7F, 0x07, 0x41, 0x43), Col(0xCB, 0x4E, 0x24, 0x3E), Col(0xC1, 0x0C, 0x81, 0x5D), Col(0x83, 0x75, 0xD5, 0x4C))
  const E8 := Block(Col(0xD6, 0x53, 0xA4, 0x69), Col(0x6C, 0xA0, 0xBC, 0x0F), Col(0x5A, 0xCA, 0xAB, 0x5D), Col(0xB9, 0x6C, 0x5E, 0x7D))
  const E9 := Block(Col(0x5A, 0xA8, 0x58, 0x39), Col(0x5F, 0xD2, 0x8D, 0x7D), Col(0x05, 0xE1, 0xA3, 0x88), Col(0x68, 0xF3, 0xB9, 0xC5))
  const E10 := Block(Col(0x4A, 0x82, 0x48, 0x51), Col(0xC5, 0x7E, 0x7E, 0x47), Col(0x64, 0x3D, 0xE5, 0x0C), Col(0x2A, 0xF3, 0xE8, 0xC9))
  const E11 := Block(Col(0xC1, 0x49, 0x07, 0xF6), Col(0xCA, 0x3B, 0x3A, 0xA0), Col(0x70, 0xE9, 0xAA, 0x31), Col(0x3B, 0x52, 0xB5, 0xEC))
  const E12 := Block(Col(0x5F, 0x9C, 0x6A, 0xBF), Col(0xBA, 0xC6, 0x34, 0xAA), Col(0x50, 0x40, 0x9F, 0xA7), Col(0x66, 0x67, 0x76, 0x53))
  const E13 := Block(Col(0x51, 0x66, 0x04, 0x95), Col(0x43, 0x53, 0x95, 0x03), Col(0x14, 0xFB, 0x86, 0xE4), Col(0x01, 0x92, 0x25, 0x21))
  const E14 := Block(Col(0x62, 0x7B, 0xCE, 0xB9), Col(0x99, 0x9D, 0x5A, 0xAA), Col(0xC9, 0x45, 0xEC, 0xF4), Col(0x23, 0xF5, 0x6D, 0xA5))
  const CIPHER := Block(Col(0x8E, 0xA2, 0xB7, 0xCA), Col(0x51, 0x67, 0x45, 0xBF), Col(0xEA, 0xFC, 0x49, 0x90), Col(0x4B, 0x49, 0x60, 0x89))

  /** The states after the substitution. */
  const S1 := Block(Col(0x63, 0xCA, 0xB7, 0x04), Col(0x09, 0x53, 0xD0, 0x51), Col(0xCD, 0x60, 0xE0, 0xE7), Col(0xBA, 0x70, 0xE1, 0x8C))
  const S2 := Block(Col(0x84, 0xFB, 0x38, 0x6F), Col(0x1A, 0xE1, 0xAC, 0x97), Col(0xDF, 0x5C, 0xFD, 0x23), Col(0x7C, 0x49, 0x94, 0x6B))
  const S3 := Block(Col(0xAD, 0xCB, 0x0F, 0x25), Col(0x7E, 0x9C, 0x63, 0xE0), Col(0xBC, 0x55, 0x7E, 0x95), Col(0x1C, 0x15, 0xEF, 0x01))
  const S4 := Block(Col(0x88, 0x4A, 0x33, 0x78), Col(0x1F, 0xDB, 0x75, 0xC2), Col(0xD3, 0x80, 0x34, 0x9E), Col(0x19, 0xF8, 0x76, 0xFB))
  const S5 := Block(Col(0x9C, 0x6B, 0x89, 0xA3), Col(0x49, 0xF0, 0xE1, 0x84), Col(0x99, 0xFD, 0xA6, 0x78), Col(0xF2, 0x51, 0x59, 0x20))
  const S6 := Block(Col(0x2E, 0x5B, 0xAC, 0xF8), Col(0xAF, 0x6E, 0xA9, 0xE7), Col(0x3A, 0xC6, 0x7A, 0x34), Col(0xC2, 0x86, 0xEE, 0x2D))
  const S7 := Block(Col(0xD2, 0xC5, 0x83, 0x1A), Col(0x1F, 0x2F, 0x36, 0xB2), Col(0x78, 0xFE, 0x0C, 0x4C), Col(0xEC, 0x9D, 0x03, 0x29))
  const S8 := Block(Col(0xF6, 0xED, 0x49, 0xF9), Col(0x50, 0xE0, 0x65, 0x76), Col(0xBE, 0x74, 0x62, 0x4C), Col(0x56, 0x50, 0x58, 0xFF))
  const S9 := Block(Col(0xBE, 0xC2, 0x6A, 0x12), Col(0xCF, 0xB5, 0x5D, 0xFF), Col(0x6B, 0xF8, 0x0A, 0xC4), Col(0x45, 0x0D, 0x56, 0xA6))
  const S10 := Block(Col(0xD6, 0x13, 0x52, 0xD1), Col(0xA6, 0xF3, 0xF3, 0xA0), Col(0x43, 0x27, 0xD9, 0xFE), Col(0xE5, 0x0D, 0x9B, 0xDD))
  const S11 := Block(Col(0x78, 0x3B, 0xC5, 0x42), Col(0x74, 0xE2, 0x80, 0xE0), Col(0x51, 0x1E, 0xAC, 0xC7), Col(0xE2, 0x00, 0xD5, 0xCE))
  const S12 := Block(Col(0xCF, 0xDE, 0x02, 0x08), Col(0xF4, 0xB4, 0x18, 0xAC), Col(0x53, 0x09, 0xDB, 0x5C), Col(0x33, 0x85, 0x38, 0xED))
  const S13 := Block(Col(0xD1, 0x33, 0xF2, 0x2A), Col(0x1A, 0xED, 0x2A, 0x7B), Col(0xFA, 0x0F, 0x44, 0x69), Col(0x7C, 0x4F, 0x3F, 0xFD))
  const S14 := Block(Col(0xAA, 0x21, 0x8B, 0x56), Col(0xEE, 0x5E, 0xBE, 0xAC), Col(0xDD, 0x6E, 0xCE, 0xBF), Col(0x26, 0xE6, 0x3C, 0x06))

  // ----- The schedule -----

  lemma Key2() ensures Chain(AddCol(Munged(K1.c3, 0x01), K0.c0), K0) == K2 {}
  lemma Key3() ensures Chain(AddCol(SubCol(K2.c3), K1.c0), K1) == K3 {}
  lemma Key4() ensures Chain(AddCol(Munged(K3.c3, 0x02), K2.c0), K2) == K4 {}
  lemma Key5() ensures Chain(AddCol(SubCol(K4.c3), K3.c0), K3) == K5 {}
  lemma Key6() ensures Chain(AddCol(Munged(K5.c3, 0x04), K4.c0), K4) == K6 {}
  lemma Key7() ensures Chain(AddCol(SubCol(K6.c3), K5.c0), K5) == K7 {}
  lemma Key8() ensures Chain(AddCol(Munged(K7.c3, 0x08), K6.c0), K6) == K8 {}
  lemma Key9() ensures Chain(AddCol(SubCol(K8.c3), K7.c0), K7) == K9 {}
  lemma Key10() ensures Chain(AddCol(Munged(K9.c3, 0x10), K8.c0), K8) == K10 {}
  lemma Key11() ensures Chain(AddCol(SubCol(K10.c3), K9.c0), K9) == K11 {}
  lemma Key12() ensures Chain(AddCol(Munged(K11.c3, 0x20), K10.c0), K10) == K12 {}
  lemma Key13() ensures Chain(AddCol(SubCol(K12.c3), K11.c0), K11) == K13 {}
  lemma Key14() ensures Chain(AddCol(Munged(K13.c3, 0x40), K12.c0), K12) == K14 {}

  lemma Constants()
    ensures RoundConstant(1) == 0x01 && RoundConstant(2) == 0x02 && RoundConstant(3) == 0x04 && RoundConstant(4) == 0x08
    ensures RoundConstant(5) == 0x10 && RoundConstant(6) == 0x20 && RoundConstant(7) == 0x40
  {
    assert RoundConstant(4) == 0x08;
  }

  lemma FirstTwo()
    ensures RoundKey(Words(CountingKey()), 0) == K0 && RoundKey(Words(CountingKey()), 1) == K1
  {
    FirstKeys(Words(CountingKey()));
  }

  predicate IsSchedule(keys: seq<Block>)
  {
    && |keys| >= 15 && keys[0] == K0 && keys[1] == K1 && keys[2] == K2 && keys[3] == K3 && keys[4] == K4
    && keys[5] == K5 && keys[6] == K6 && keys[7] == K7 && keys[8] == K8 && keys[9] == K9
    && keys[10] == K10 && keys[11] == K11 && keys[12] == K12 && keys[13] == K13 && keys[14] == K14
  }

  lemma ScheduleOfCounting(was: seq<Block>)
    requires |was| == MAX_ROUND_KEYS
    ensures IsSchedule(Expanded(was, CountingKey()))
  {
    hide Word, AddCol, Munged, SubCol, Chain, RoundConstant, Words, RoundKey;
    var w := Words(CountingKey());
    FirstTwo();
    Constants();
    NextKey256(w, 2); Key2();
    NextKey256(w, 3); Key3();
    NextKey256(w, 4); Key4();
    NextKey256(w, 5); Key5();
    NextKey256(w, 6); Key6();
    NextKey256(w, 7); Key7();
    NextKey256(w, 8); Key8();
    NextKey256(w, 9); Key9();
    NextKey256(w, 10); Key10();
    NextKey256(w, 11); Key11();
    NextKey256(w, 12); Key12();
    NextKey256(w, 13); Key13();
    NextKey256(w, 14); Key14();
  }

  // ----- Encryption -----

  lemma In1() ensures SubBytes(E1) == S1 {}
  lemma In2() ensures SubBytes(E2) == S2 {}
  lemma In3() ensures SubBytes(E3) == S3 {}
  lemma In4() ensures SubBytes(E4) == S4 {}
  lemma In5() ensures SubBytes(E5) == S5 {}
  lemma In6() ensures SubBytes(E6) == S6 {}
  lemma In7() ensures SubBytes(E7) == S7 {}
  lemma In8() ensures SubBytes(E8) == S8 {}
  lemma In9() ensures SubBytes(E9) == S9 {}
  lemma In10() ensures SubBytes(E10) == S10 {}
  lemma In11() ensures SubBytes(E11) == S11 {}
  lemma In12() ensures SubBytes(E12) == S12 {}
  lemma In13() ensures SubBytes(E13) == S13 {}
  lemma In14() ensures SubBytes(E14) == S14 {}

  lemma FirstRounds()
    ensures Round(E1, K1) == E2
    ensures Round(E2, K2) == E3
    ensures Round(E3, K3) == E4
    ensures Round(E4, K4) == E5
    ensures Round(E5, K5) == E6
    ensures Round(E6, K6) == E7
    ensures Round(E7, K7) == E8
  {
    In1(); In2(); In3(); In4(); In5(); In6(); In7();
    hide SubBytes;
  }

  lemma LastRounds()
    ensures Round(E8, K8) == E9
    ensures Round(E9, K9) == E10
    ensures Round(E10, K10) == E11
    ensures Round(E11, K11) == E12
    ensures Round(E12, K12) == E13
    ensures Round(E13, K13) == E14
    ensures FinalRound(E14, K14) == CIPHER
  {
    In8(); In9(); In10(); In11(); In12(); In13(); In14();
    hide SubBytes;
  }

  lemma FirstState()
    ensures AddKey(PLAIN, K0) == E1
  {
  }

  lemma Encrypted(keys: seq<Block>)
    requires IsSchedule(keys) && |keys| == MAX_ROUND_KEYS
    ensures EncryptBlock(PLAIN, keys, 14) == CIPHER
  {
    hide Round, FinalRound, AddKey, EncryptFrom;
    FirstState();
    FirstRounds();
    LastRounds();
    assert StateBefore(PLAIN, keys, 2) == E2;
    assert StateBefore(PLAIN, keys, 3) == E3;
    assert StateBefore(PLAIN, keys, 4) == E4;
    assert StateBefore(PLAIN, keys, 5) == E5;
    assert StateBefore(PLAIN, keys, 6) == E6;
    assert StateBefore(PLAIN, keys, 7) == E7;
    assert StateBefore(PLAIN, keys, 8) == E8;
    assert StateBefore(PLAIN, keys, 9) == E9;
    assert StateBefore(PLAIN, keys, 10) == E10;
    assert StateBefore(PLAIN, keys, 11) == E11;
    assert StateBefore(PLAIN, keys, 12) == E12;
    assert StateBefore(PLAIN, keys, 13) == E13;
    assert StateBefore(PLAIN, keys, 14) == E14;
    EncryptFromState(PLAIN, keys, 1, 14);
  }

  /** The block 00 11 22 ... FF under this key is 8E A2 B7 CA 51 67 45 BF EA FC 49 90 4B 49 60 89, whatever the
      structure held before the key was expanded. */
  lemma CountingKeyEncrypts(was: seq<Block>)
    requires |was| == MAX_ROUND_KEYS
    ensures EncryptBlock(PLAIN, Expanded(was, CountingKey()), Rounds(CountingKey())) == CIPHER
  {
    hide EncryptBlock, Expanded, IsSchedule;
    ScheduleOfCounting(was);
    Encrypted(Expanded(was, CountingKey()));
  }
}
