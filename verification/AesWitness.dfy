/** A decryption key expanded into a zeroed structure: the number of rounds it holds is 0 when it is read, the
    schedule is neither turned round nor mixed, and decryption does not give the block back. */
module AesWitness {
  import opened AesSbox
  import opened AesRounds
  import opened AesCipher
  import opened AesKeys

  // ----- The zero key, the zero block -----

  function ZeroKey(): seq<bv8> { seq(16, _ => 0) }

  const K0 := Block(Col(0x00, 0x00, 0x00, 0x00), Col(0x00, 0x00, 0x00, 0x00), Col(0x00, 0x00, 0x00, 0x00), Col(0x00, 0x00, 0x00, 0x00))
  const K1 := Block(Col(0x62, 0x63, 0x63, 0x63), Col(0x62, 0x63, 0x63, 0x63), Col(0x62, 0x63, 0x63, 0x63), Col(0x62, 0x63, 0x63, 0x63))
  const K2 := Block(Col(0x9B, 0x98, 0x98, 0xC9), Col(0xF9, 0xFB, 0xFB, 0xAA), Col(0x9B, 0x98, 0x98, 0xC9), Col(0xF9, 0xFB, 0xFB, 0xAA))
  const K3 := Block(Col(0x90, 0x97, 0x34, 0x50), Col(0x69, 0x6C, 0xCF, 0xFA), Col(0xF2, 0xF4, 0x57, 0x33), Col(0x0B, 0x0F, 0xAC, 0x99))
  const K4 := Block(Col(0xEE, 0x06, 0xDA, 0x7B), Col(0x87, 0x6A, 0x15, 0x81), Col(0x75, 0x9E, 0x42, 0xB2), Col(0x7E, 0x91, 0xEE, 0x2B))
  const K5 := Block(Col(0x7F, 0x2E, 0x2B, 0x88), Col(0xF8, 0x44, 0x3E, 0x09), Col(0x8D, 0xDA, 0x7C, 0xBB), Col(0xF3, 0x4B, 0x92, 0x90))
  const K6 := Block(Col(0xEC, 0x61, 0x4B, 0x85), Col(0x14, 0x25, 0x75, 0x8C), Col(0x99, 0xFF, 0x09, 0x37), Col(0x6A, 0xB4, 0x9B, 0xA7))
  const K7 := Block(Col(0x21, 0x75, 0x17, 0x87), Col(0x35, 0x50, 0x62, 0x0B), Col(0xAC, 0xAF, 0x6B, 0x3C), Col(0xC6, 0x1B, 0xF0, 0x9B))
  const K8 := Block(Col(0x0E, 0xF9, 0x03, 0x33), Col(0x3B, 0xA9, 0x61, 0x38), Col(0x97, 0x06, 0x0A, 0x04), Col(0x51, 0x1D, 0xFA, 0x9F))
  const K9 := Block(Col(0xB1, 0xD4, 0xD8, 0xE2), Col(0x8A, 0x7D, 0xB9, 0xDA), Col(0x1D, 0x7B, 0xB3, 0xDE), Col(0x4C, 0x66, 0x49, 0x41))
  const K10 := Block(Col(0xB4, 0xEF, 0x5B, 0xCB), Col(0x3E, 0x92, 0xE2, 0x11), Col(0x23, 0xE9, 0x51, 0xCF), Col(0x6F, 0x8F, 0x18, 0x8E))

  /** The states before the rounds of encryption, and the block that comes out. */
  const E1 := Block(Col(0x00, 0x00, 0x00, 0x00), Col(0x00, 0x00, 0x00, 0x00), Col(0x00, 0x00, 0x00, 0x00), Col(0x00, 0x00, 0x00, 0x00))
  const E2 := Block(Col(0x01, 0x00, 0x00, 0x00), Col(0x01, 0x00, 0x00, 0x00), Col(0x01, 0x00, 0x00, 0x00), Col(0x01, 0x00, 0x00, 0x00))
  const E3 := Block(Col(0xC6, 0xE4, 0xE4, 0x8B), Col(0xA4, 0x87, 0x87, 0xE8), Col(0xC6, 0xE4, 0xE4, 0x8B), Col(0xA4, 0x87, 0x87, 0xE8))
  const E4 := Block(Col(0x28, 0x2D, 0xF3, 0xC4), Col(0x6A, 0xF3, 0x86, 0x25), Col(0x4A, 0x4E, 0x90, 0xA7), Col(0x08, 0x90, 0xE5, 0x46))
  const E5 := Block(Col(0xAB, 0xD2, 0xCD, 0xFE), Col(0x37, 0x5A, 0xB5, 0x49), Col(0x50, 0xA0, 0xAF, 0xC0), Col(0x75, 0x9A, 0x6A, 0x5F))
  const E6 := Block(Col(0xD4, 0x6F, 0x4F, 0x6C), Col(0x55, 0xB8, 0x96, 0x33), Col(0x7E, 0x05, 0xBB, 0x3D), Col(0x79, 0x79, 0xDE, 0x23))
  const E7 := Block(Col(0x04, 0xF2, 0xCA, 0x97), Col(0x07, 0x78, 0x28, 0x45), Col(0xE2, 0x2F, 0x01, 0x96), Col(0x49, 0xC5, 0xD7, 0x10))
  const E8 := Block(Col(0xB7, 0xAA, 0xE4, 0xC5), Col(0x1D, 0x25, 0x2D, 0x4F), Col(0x6C, 0x92, 0x0F, 0x81), Col(0x94, 0xE5, 0x81, 0x50))
  const E9 := Block(Col(0x23, 0xE7, 0x8C, 0x3C), Col(0x13, 0x21, 0x63, 0xDB), Col(0xAA, 0xC0, 0xC6, 0x57), Col(0x2E, 0x03, 0xCB, 0x95))
  const E10 := Block(Col(0x7F, 0xFE, 0x0E, 0x95), Col(0x51, 0xA5, 0x66, 0x35), Col(0x0E, 0x34, 0x7C, 0x47), Col(0x29, 0x29, 0xEC, 0xCB))
  const Cipher := Block(Col(0x66, 0xE9, 0x4B, 0xD4), Col(0xEF, 0x8A, 0x2C, 0x3B), Col(0x88, 0x4C, 0xFA, 0x59), Col(0xCA, 0x34, 0x2B, 0x2E))

  /** The same after the substitution. */
  const S1 := Block(Col(0x63, 0x63, 0x63, 0x63), Col(0x63, 0x63, 0x63, 0x63), Col(0x63, 0x63, 0x63, 0x63), Col(0x63, 0x63, 0x63, 0x63))
  const S2 := Block(Col(0x7C, 0x63, 0x63, 0x63), Col(0x7C, 0x63, 0x63, 0x63), Col(0x7C, 0x63, 0x63, 0x63), Col(0x7C, 0x63, 0x63, 0x63))
  const S3 := Block(Col(0xB4, 0x69, 0x69, 0x3D), Col(0x49, 0x17, 0x17, 0x9B), Col(0xB4, 0x69, 0x69, 0x3D), Col(0x49, 0x17, 0x17, 0x9B))
  const S4 := Block(Col(0x34, 0xD8, 0x0D, 0x1C), Col(0x02, 0x0D, 0x44, 0x3F), Col(0xD6, 0x2F, 0x60, 0x5C), Col(0x30, 0x60, 0xD9, 0x5A))
  const S5 := Block(Col(0x62, 0xB5, 0xBD, 0xBB), Col(0x9A, 0xBE, 0xD5, 0x3B), Col(0x53, 0xE0, 0x79, 0xBA), Col(0x9D, 0xB8, 0x02, 0xCF))
  const S6 := Block(Col(0x48, 0xA8, 0x84, 0x50), Col(0xFC, 0x6C, 0x90, 0xC3), Col(0xF3, 0x6B, 0xEA, 0x27), Col(0xB6, 0xB6, 0x1D, 0x26))
  const S7 := Block(Col(0xF2, 0x89, 0x74, 0x88), Col(0xC5, 0xBC, 0x34, 0x6E), Col(0x98, 0x15, 0x7C, 0x90), Col(0x3B, 0xA6, 0x0E, 0xCA))
  const S8 := Block(Col(0xA9, 0xAC, 0x69, 0xA6), Col(0xA4, 0x3F, 0xD8, 0x84), Col(0x50, 0x4F, 0x76, 0x0C), Col(0x22, 0xD9, 0x0C, 0x53))
  const S9 := Block(Col(0x26, 0x94, 0x64, 0xEB), Col(0x7D, 0xFD, 0xFB, 0xB9), Col(0xAC, 0xBA, 0xB4, 0x5B), Col(0x31, 0x7B, 0x1F, 0x2A))
  const S10 := Block(Col(0xD2, 0xBB, 0xAB, 0x2A), Col(0xD1, 0x06, 0x33, 0x96), Col(0xAB, 0x18, 0x10, 0xA0), Col(0xA5, 0xA5, 0xCE, 0x1F))

  /** The states before the rounds of decryption with the same schedule, and what comes out. */
  const D1 := Block(Col(0x66, 0xE9, 0x4B, 0xD4), Col(0xEF, 0x8A, 0x2C, 0x3B), Col(0x88, 0x4C, 0xFA, 0x59), Col(0xCA, 0x34, 0x2B, 0x2E))
  const D2 := Block(Col(0x8C, 0x4D, 0x1D, 0x7B), Col(0xE7, 0xDE, 0xBF, 0x13), Col(0xEB, 0x43, 0x1F, 0xE1), Col(0x1D, 0xAD, 0x62, 0xC5))
  const D3 := Block(Col(0x92, 0xBD, 0xF3, 0x2F), Col(0x96, 0x39, 0xA8, 0xCA), Col(0xC5, 0x46, 0xD6, 0x7E), Col(0xF3, 0x30, 0x41, 0x9C))
  const D4 := Block(Col(0xE9, 0x76, 0x3F, 0xE5), Col(0x18, 0x7A, 0x7C, 0xA4), Col(0x67, 0x37, 0xC7, 0xCB), Col(0x43, 0xB2, 0x60, 0x67))
  const D5 := Block(Col(0x81, 0xDA, 0x86, 0x6D), Col(0x40, 0x20, 0x89, 0x62), Col(0x82, 0xD6, 0xB1, 0x66), Col(0x76, 0x5C, 0x62, 0x9F))
  const D6 := Block(Col(0x7A, 0x89, 0x64, 0xAE), Col(0x0E, 0xC8, 0xF1, 0xCC), Col(0x01, 0x63, 0xC8, 0xCD), Col(0x8B, 0x87, 0x1F, 0xAD))
  const D7 := Block(Col(0x5C, 0xB7, 0x6E, 0x07), Col(0xCA, 0x45, 0x6B, 0x42), Col(0x8E, 0xF1, 0xC3, 0xC8), Col(0x2F, 0x99, 0x8D, 0x82))
  const D8 := Block(Col(0x73, 0x10, 0xFC, 0xC0), Col(0x65, 0xB7, 0xFC, 0x17), Col(0xA7, 0x32, 0x6C, 0x77), Col(0xDB, 0x8E, 0x16, 0xAD))
  const D9 := Block(Col(0x5F, 0xEC, 0xC9, 0xEB), Col(0xC5, 0xE5, 0xA6, 0x70), Col(0x8F, 0xA9, 0x1D, 0x40), Col(0x4E, 0x78, 0xC7, 0xAC))
  const D10 := Block(Col(0xE9, 0x4A, 0x4C, 0xFB), Col(0xE3, 0xCD, 0x73, 0x0E), Col(0xEB, 0xBF, 0xFD, 0x43), Col(0x56, 0x56, 0xCB, 0x11))
  const Plain := Block(Col(0x5F, 0x56, 0x7A, 0x1C), Col(0x73, 0xCE, 0xBB, 0x75), Col(0x1F, 0x69, 0x0C, 0x2C), Col(0xD6, 0x7B, 0x97, 0xED))

  /** The same after the inverse substitution. */
  const I1 := Block(Col(0xD3, 0xEB, 0xCC, 0x19), Col(0x61, 0xCF, 0x42, 0x49), Col(0x97, 0x5D, 0x14, 0x15), Col(0x10, 0x28, 0x0B, 0xC3))
  const I2 := Block(Col(0xF0, 0x65, 0xDE, 0x03), Col(0xB0, 0x9C, 0xF4, 0x82), Col(0x3C, 0x64, 0xCB, 0xE0), Col(0xDE, 0x18, 0xAB, 0x07))
  const I3 := Block(Col(0x74, 0xCD, 0x7E, 0x4E), Col(0x35, 0x5B, 0x6F, 0x10), Col(0x07, 0x98, 0x4A, 0x8A), Col(0x7E, 0x08, 0xF8, 0x1C))
  const I4 := Block(Col(0xEB, 0x0F, 0x25, 0x2A), Col(0x34, 0xBD, 0x01, 0x1D), Col(0x0A, 0xB2, 0x31, 0x59), Col(0x64, 0x3E, 0x90, 0x0A))
  const I5 := Block(Col(0x91, 0x7A, 0xDC, 0xB3), Col(0x72, 0x54, 0xF2, 0xAB), Col(0x11, 0x4A, 0x56, 0xD3), Col(0x0F, 0xA7, 0xAB, 0x6E))
  const I6 := Block(Col(0xBD, 0xF2, 0x8C, 0xBE), Col(0xD7, 0xB1, 0x2B, 0x27), Col(0x09, 0x00, 0xB1, 0x80), Col(0xCE, 0xEA, 0xCB, 0x18))
  const I7 := Block(Col(0xA7, 0x20, 0x45, 0x38), Col(0x10, 0x68, 0x05, 0xF6), Col(0xE6, 0x2B, 0x33, 0xB1), Col(0x4E, 0xF9, 0xB4, 0x11))
  const I8 := Block(Col(0x8F, 0x7C, 0x55, 0x1F), Col(0xBC, 0x20, 0x55, 0x87), Col(0x89, 0xA1, 0xB8, 0x02), Col(0x9F, 0xE6, 0xFF, 0x18))
  const I9 := Block(Col(0x84, 0x83, 0x12, 0x3C), Col(0x07, 0x2A, 0xC5, 0xD0), Col(0x73, 0xB7, 0xDE, 0x72), Col(0xB6, 0xC1, 0x31, 0xAA))
  const I10 := Block(Col(0xEB, 0x5C, 0x5D, 0x63), Col(0x4D, 0x80, 0x8F, 0xD7), Col(0x3C, 0xF4, 0x21, 0x64), Col(0xB9, 0xB9, 0x59, 0xE3))

  // ----- The schedule -----

  lemma Key1() ensures Chain(AddCol(Munged(K0.c3, 0x01), K0.c0), K0) == K1 {}
  lemma Key2() ensures Chain(AddCol(Munged(K1.c3, 0x02), K1.c0), K1) == K2 {}
  lemma Key3() ensures Chain(AddCol(Munged(K2.c3, 0x04), K2.c0), K2) == K3 {}
  lemma Key4() ensures Chain(AddCol(Munged(K3.c3, 0x08), K3.c0), K3) == K4 {}
  lemma Key5() ensures Chain(AddCol(Munged(K4.c3, 0x10), K4.c0), K4) == K5 {}
  lemma Key6() ensures Chain(AddCol(Munged(K5.c3, 0x20), K5.c0), K5) == K6 {}
  lemma Key7() ensures Chain(AddCol(Munged(K6.c3, 0x40), K6.c0), K6) == K7 {}
  lemma Key8() ensures Chain(AddCol(Munged(K7.c3, 0x80), K7.c0), K7) == K8 {}
  lemma Key9() ensures Chain(AddCol(Munged(K8.c3, 0x1B), K8.c0), K8) == K9 {}
  lemma Key10() ensures Chain(AddCol(Munged(K9.c3, 0x36), K9.c0), K9) == K10 {}

  lemma Constants()
    ensures RoundConstant(1) == 0x01 && RoundConstant(2) == 0x02 && RoundConstant(3) == 0x04 && RoundConstant(4) == 0x08
    ensures RoundConstant(5) == 0x10 && RoundConstant(6) == 0x20 && RoundConstant(7) == 0x40 && RoundConstant(8) == 0x80
    ensures RoundConstant(9) == 0x1B && RoundConstant(10) == 0x36
  {
    assert RoundConstant(4) == 0x08;
    assert RoundConstant(7) == 0x40;
  }

  /** The round keys of the zero key. */
  predicate ZeroSchedule(keys: seq<Block>)
  {
    |keys| == MAX_ROUND_KEYS && keys[..11] == [K0, K1, K2, K3, K4, K5, K6, K7, K8, K9, K10]
  }

  lemma ZeroWords()
    ensures RoundKey(Words(ZeroKey()), 0) == K0
  {
    FirstKeys(Words(ZeroKey()));
  }

  lemma ScheduleOfZero(was: seq<Block>)
    requires |was| == MAX_ROUND_KEYS
    ensures ZeroSchedule(Expanded(was, ZeroKey()))
  {
    hide Word, AddCol, Munged, Chain, RoundConstant, Words, RoundKey;
    var w := Words(ZeroKey());
    ZeroWords();
    Constants();
    NextKey128(w, 1); Key1();
    NextKey128(w, 2); Key2();
    NextKey128(w, 3); Key3();
    NextKey128(w, 4); Key4();
    NextKey128(w, 5); Key5();
    NextKey128(w, 6); Key6();
    NextKey128(w, 7); Key7();
    NextKey128(w, 8); Key8();
    NextKey128(w, 9); Key9();
    NextKey128(w, 10); Key10();
  }

  // ----- Encryption -----

  lemma In1() ensures SubBytes(E1) == S1 {}
  lemma In2() ensures SubBytes(E2) == S2 {}
  lemma In3() ensures SubBytes(E3) == S3 {}
  lemma In4() ensures SubBytes(E4) == S4 {}
  lemma In5() ensures SubBytes(E5) == S5 {}
  lemma In6() ensures SubBytes(E6) == S6 {}
  lemma In7() ensures SubBytes(E7) == S7 {}
  lemma In8() ensures SubBytes(E8) == S8 {}
  lemma In9() ensures SubBytes(E9) == S9 {}
  lemma In10() ensures SubBytes(E10) == S10 {}

  lemma EncryptionRounds()
    ensures Round(E1, K1) == E2
    ensures Round(E2, K2) == E3
    ensures Round(E3, K3) == E4
    ensures Round(E4, K4) == E5
    ensures Round(E5, K5) == E6
    ensures Round(E6, K6) == E7
    ensures Round(E7, K7) == E8
    ensures Round(E8, K8) == E9
    ensures Round(E9, K9) == E10
    ensures FinalRound(E10, K10) == Cipher
  {
    In1(); In2(); In3(); In4(); In5(); In6(); In7(); In8(); In9(); In10();
    hide SubBytes;
  }

  lemma FirstStates()
    ensures AddKey(K0, K0) == E1 && AddKey(Cipher, K0) == D1
  {
  }

  lemma Encrypted(keys: seq<Block>)
    requires ZeroSchedule(keys)
    ensures EncryptBlock(K0, keys, 10) == Cipher
  {
    hide Round, FinalRound, AddKey, EncryptFrom;
    FirstStates();
    KeysAre(keys);
    EncryptionRounds();
    assert StateBefore(K0, keys, 2) == E2;
    assert StateBefore(K0, keys, 3) == E3;
    assert StateBefore(K0, keys, 4) == E4;
    assert StateBefore(K0, keys, 5) == E5;
    assert StateBefore(K0, keys, 6) == E6;
    assert StateBefore(K0, keys, 7) == E7;
    assert StateBefore(K0, keys, 8) == E8;
    assert StateBefore(K0, keys, 9) == E9;
    assert StateBefore(K0, keys, 10) == E10;
    EncryptFromState(K0, keys, 1, 10);
  }

  lemma KeysAre(keys: seq<Block>)
    requires ZeroSchedule(keys)
    ensures keys[0] == K0
    ensures keys[1] == K1
    ensures keys[2] == K2
    ensures keys[3] == K3
    ensures keys[4] == K4
    ensures keys[5] == K5
    ensures keys[6] == K6
    ensures keys[7] == K7
    ensures keys[8] == K8
    ensures keys[9] == K9
    ensures keys[10] == K10
  {
    assert keys[0] == keys[..11][0];
    assert keys[1] == keys[..11][1];
    assert keys[2] == keys[..11][2];
    assert keys[3] == keys[..11][3];
    assert keys[4] == keys[..11][4];
    assert keys[5] == keys[..11][5];
    assert keys[6] == keys[..11][6];
    assert keys[7] == keys[..11][7];
    assert keys[8] == keys[..11][8];
    assert keys[9] == keys[..11][9];
    assert keys[10] == keys[..11][10];
  }

  // ----- Decryption -----

  lemma Sub1() ensures InvSubBytes(D1) == I1 {}
  lemma Sub2() ensures InvSubBytes(D2) == I2 {}
  lemma Sub3() ensures InvSubBytes(D3) == I3 {}
  lemma Sub4() ensures InvSubBytes(D4) == I4 {}
  lemma Sub5() ensures InvSubBytes(D5) == I5 {}
  lemma Sub6() ensures InvSubBytes(D6) == I6 {}
  lemma Sub7() ensures InvSubBytes(D7) == I7 {}
  lemma Sub8() ensures InvSubBytes(D8) == I8 {}
  lemma Sub9() ensures InvSubBytes(D9) == I9 {}
  lemma Sub10() ensures InvSubBytes(D10) == I10 {}

  lemma FirstDecryptionRounds()
    ensures InvRound(D1, K1) == D2
    ensures InvRound(D2, K2) == D3
    ensures InvRound(D3, K3) == D4
    ensures InvRound(D4, K4) == D5
    ensures InvRound(D5, K5) == D6
  {
    Sub1(); Sub2(); Sub3(); Sub4(); Sub5();
    hide InvSubBytes;
  }

  lemma LastDecryptionRounds()
    ensures InvRound(D6, K6) == D7
    ensures InvRound(D7, K7) == D8
    ensures InvRound(D8, K8) == D9
    ensures InvRound(D9, K9) == D10
    ensures InvFinalRound(D10, K10) == Plain
  {
    Sub6(); Sub7(); Sub8(); Sub9(); Sub10();
    hide InvSubBytes;
  }

  lemma Decrypted(keys: seq<Block>)
    requires ZeroSchedule(keys)
    ensures DecryptBlock(Cipher, keys, 10) == Plain
  {
    hide InvRound, InvFinalRound, AddKey, DecryptFrom;
    FirstStates();
    KeysAre(keys);
    FirstDecryptionRounds();
    LastDecryptionRounds();
    assert InvStateBefore(Cipher, keys, 2) == D2;
    assert InvStateBefore(Cipher, keys, 3) == D3;
    assert InvStateBefore(Cipher, keys, 4) == D4;
    assert InvStateBefore(Cipher, keys, 5) == D5;
    assert InvStateBefore(Cipher, keys, 6) == D6;
    assert InvStateBefore(Cipher, keys, 7) == D7;
    assert InvStateBefore(Cipher, keys, 8) == D8;
    assert InvStateBefore(Cipher, keys, 9) == D9;
    assert InvStateBefore(Cipher, keys, 10) == D10;
    DecryptFromInvState(Cipher, keys, 1, 10);
  }

  /** The zero block under the zero key is 66 E9 4B D4 EF 8A 2C 3B 88 4C FA 59 CA 34 2B 2E, whatever the structure held
      before the key was expanded. */
  lemma ZeroKeyEncrypts(was: seq<Block>)
    requires |was| == MAX_ROUND_KEYS
    ensures EncryptBlock(K0, Expanded(was, ZeroKey()), Rounds(ZeroKey())) == Cipher
  {
    hide EncryptBlock, Expanded, ZeroSchedule;
    ScheduleOfZero(was);
    Encrypted(Expanded(was, ZeroKey()));
  }

  /** With the zero key the zero block comes back as another one, whatever the two structures held otherwise. */
  lemma ZeroedStructureFails(was: seq<Block>, wasToo: seq<Block>)
    requires |was| == MAX_ROUND_KEYS == |wasToo|
    ensures var (key, zero) := (ZeroKey(), Block(Col(0, 0, 0, 0), Col(0, 0, 0, 0), Col(0, 0, 0, 0), Col(0, 0, 0, 0)));
            DecryptBlock(EncryptBlock(zero, Expanded(was, key), Rounds(key)),
                         DecryptionSchedule(Expanded(wasToo, key), 0), Rounds(key))
            != zero
  {
    hide EncryptBlock, DecryptBlock, Expanded, ZeroSchedule;
    var d := Expanded(wasToo, ZeroKey());
    ScheduleOfZero(was);
    ScheduleOfZero(wasToo);
    Encrypted(Expanded(was, ZeroKey()));
    NotTurned(d);
    Decrypted(d);
  }

  /** With a count of 0 expansion for decryption does nothing to the round keys. */
  lemma NotTurned(all: seq<Block>)
    requires |all| == MAX_ROUND_KEYS
    ensures DecryptionSchedule(all, 0) == all
  {
  }
}
