/** The published digest of "abc" (appendix B.1 of FIPS 180-2), worked out round by round. */
module Sha256Answer {
  import opened Bytes
  import opened Sha256
  import opened Sha256Constants

  const ABC: seq<Byte> := [0x61, 0x62, 0x63]

  const ABC_DIGEST: seq<Byte> := [
    0xba, 0x78, 0x16, 0xbf, 0x8f, 0x01, 0xcf, 0xea, 0x41, 0x41, 0x40, 0xde, 0x5d, 0xae, 0x22, 0x23,
    0xb0, 0x03, 0x61, 0xa3, 0x96, 0x17, 0x7a, 0x9c, 0xb4, 0x10, 0xff, 0x61, 0xf2, 0x00, 0x15, 0xad]

  /** The only block: the message, a 1 bit, zeros and the length of 24 bits. */
  const ABC_BLOCK: seq<Byte> := [0x61, 0x62, 0x63, 0x80] + Zeros(59) + [24]

  lemma PaddedAbc()
    ensures Pad(ABC) == ABC_BLOCK
  {
    assert PadZeros(3) == 52;
    assert BE64(24) == [0, 0, 0, 0, 0, 0, 0, 24];
  }

  // ----- The message schedule -----

  predicate WordIs(b: seq<Byte>, t: nat, w: bv32)
    requires |b| == 64
  {
    W(b, t) == w
  }

  predicate WordsFrom0(b: seq<Byte>)
    requires |b| == 64
  {
    WordIs(b, 0, 0x61626380) && (forall t :: 1 <= t < 15 ==> W(b, t) == 0) && WordIs(b, 15, 0x18)
  }

  predicate WordsFrom16(b: seq<Byte>)
    requires |b| == 64
  {
    && WordIs(b, 16, 0x61626380) && WordIs(b, 17, 0x000f0000) && WordIs(b, 18, 0x7da86405) && WordIs(b, 19, 0x600003c6)
    && WordIs(b, 20, 0x3e9d7b78) && WordIs(b, 21, 0x0183fc00) && WordIs(b, 22, 0x12dcbfdb) && WordIs(b, 23, 0xe2e2c38e)
    && WordIs(b, 24, 0xc8215c1a) && WordIs(b, 25, 0xb73679a2) && WordIs(b, 26, 0xe5bc3909) && WordIs(b, 27, 0x32663c5b)
    && WordIs(b, 28, 0x9d209d67) && WordIs(b, 29, 0xec8726cb) && WordIs(b, 30, 0x702138a4) && WordIs(b, 31, 0xd3b7973b)
  }

  predicate WordsFrom32(b: seq<Byte>)
    requires |b| == 64
  {
    && WordIs(b, 32, 0x93f5997f) && WordIs(b, 33, 0x3b68ba73) && WordIs(b, 34, 0xaff4ffc1) && WordIs(b, 35, 0xf10a5c62)
    && WordIs(b, 36, 0x0a8b3996) && WordIs(b, 37, 0x72af830a) && WordIs(b, 38, 0x9409e33e) && WordIs(b, 39, 0x24641522)
    && WordIs(b, 40, 0x9f47bf94) && WordIs(b, 41, 0xf0a64f5a) && WordIs(b, 42, 0x3e246a79) && WordIs(b, 43, 0x27333ba3)
    && WordIs(b, 44, 0x0c4763f2) && WordIs(b, 45, 0x840abf27) && WordIs(b, 46, 0x7a290d5d) && WordIs(b, 47, 0x065c43da)
  }

  predicate WordsFrom48(b: seq<Byte>)
    requires |b| == 64
  {
    && WordIs(b, 48, 0xfb3e89cb) && WordIs(b, 49, 0xcc7617db) && WordIs(b, 50, 0xb9e66c34) && WordIs(b, 51, 0xa9993667)
    && WordIs(b, 52, 0x84badedd) && WordIs(b, 53, 0xc21462bc) && WordIs(b, 54, 0x1487472c) && WordIs(b, 55, 0xb20f7a99)
    && WordIs(b, 56, 0xef57b9cd) && WordIs(b, 57, 0xebe6b238) && WordIs(b, 58, 0x9fe3095e) && WordIs(b, 59, 0x78bc8d4b)
    && WordIs(b, 60, 0xa43fcf15) && WordIs(b, 61, 0x668b2ff8) && WordIs(b, 62, 0xeeaba2cc) && WordIs(b, 63, 0x12b1edeb)
  }

  lemma SmallWords()
    ensures Word(0x61, 0x62, 0x63, 0x80) == 0x61626380 && Word(0, 0, 0, 0) == 0 && Word(0, 0, 0, 24) == 0x18
  {
  }

  lemma Words0()
    ensures WordsFrom0(ABC_BLOCK)
  {
    SmallWords();
    hide Word, Expand;
  }

  lemma NextWord(b: seq<Byte>, t: nat, w2: bv32, w7: bv32, w15: bv32, w16: bv32, w: bv32)
    requires |b| == 64 && 16 <= t < 64 && Expand(w2, w7, w15, w16) == w
    requires WordIs(b, t - 2, w2) && WordIs(b, t - 7, w7) && WordIs(b, t - 15, w15) && WordIs(b, t - 16, w16)
    ensures WordIs(b, t, w)
  {
    hide Expand;
    WordOfSchedule(b, t);
  }

  lemma Expansions16()
    ensures Expand(0x00000000, 0x00000000, 0x00000000, 0x61626380) == 0x61626380
    ensures Expand(0x00000018, 0x00000000, 0x00000000, 0x00000000) == 0x000f0000
    ensures Expand(0x61626380, 0x00000000, 0x00000000, 0x00000000) == 0x7da86405
    ensures Expand(0x000f0000, 0x00000000, 0x00000000, 0x00000000) == 0x600003c6
    ensures Expand(0x7da86405, 0x00000000, 0x00000000, 0x00000000) == 0x3e9d7b78
    ensures Expand(0x600003c6, 0x00000000, 0x00000000, 0x00000000) == 0x0183fc00
    ensures Expand(0x3e9d7b78, 0x00000018, 0x00000000, 0x00000000) == 0x12dcbfdb
    ensures Expand(0x0183fc00, 0x61626380, 0x00000000, 0x00000000) == 0xe2e2c38e
    ensures Expand(0x12dcbfdb, 0x000f0000, 0x00000000, 0x00000000) == 0xc8215c1a
    ensures Expand(0xe2e2c38e, 0x7da86405, 0x00000000, 0x00000000) == 0xb73679a2
    ensures Expand(0xc8215c1a, 0x600003c6, 0x00000000, 0x00000000) == 0xe5bc3909
    ensures Expand(0xb73679a2, 0x3e9d7b78, 0x00000000, 0x00000000) == 0x32663c5b
    ensures Expand(0xe5bc3909, 0x0183fc00, 0x00000000, 0x00000000) == 0x9d209d67
    ensures Expand(0x32663c5b, 0x12dcbfdb, 0x00000000, 0x00000000) == 0xec8726cb
    ensures Expand(0x9d209d67, 0xe2e2c38e, 0x00000018, 0x00000000) == 0x702138a4
    ensures Expand(0xec8726cb, 0xc8215c1a, 0x61626380, 0x00000018) == 0xd3b7973b
  {
  }

  lemma Words16(b: seq<Byte>)
    requires |b| == 64 && WordsFrom0(b)
    ensures WordsFrom16(b)
  {
    assert forall t :: 1 <= t < 15 ==> WordIs(b, t, 0);
    Expansions16();
    hide W, WordIs, Expand;
    NextWord(b, 16, 0x00000000, 0x00000000, 0x00000000, 0x61626380, 0x61626380);
    NextWord(b, 17, 0x00000018, 0x00000000, 0x00000000, 0x00000000, 0x000f0000);
    NextWord(b, 18, 0x61626380, 0x00000000, 0x00000000, 0x00000000, 0x7da86405);
    NextWord(b, 19, 0x000f0000, 0x00000000, 0x00000000, 0x00000000, 0x600003c6);
    NextWord(b, 20, 0x7da86405, 0x00000000, 0x00000000, 0x00000000, 0x3e9d7b78);
    NextWord(b, 21, 0x600003c6, 0x00000000, 0x00000000, 0x00000000, 0x0183fc00);
    NextWord(b, 22, 0x3e9d7b78, 0x00000018, 0x00000000, 0x00000000, 0x12dcbfdb);
    NextWord(b, 23, 0x0183fc00, 0x61626380, 0x00000000, 0x00000000, 0xe2e2c38e);
    NextWord(b, 24, 0x12dcbfdb, 0x000f0000, 0x00000000, 0x00000000, 0xc8215c1a);
    NextWord(b, 25, 0xe2e2c38e, 0x7da86405, 0x00000000, 0x00000000, 0xb73679a2);
    NextWord(b, 26, 0xc8215c1a, 0x600003c6, 0x00000000, 0x00000000, 0xe5bc3909);
    NextWord(b, 27, 0xb73679a2, 0x3e9d7b78, 0x00000000, 0x00000000, 0x32663c5b);
    NextWord(b, 28, 0xe5bc3909, 0x0183fc00, 0x00000000, 0x00000000, 0x9d209d67);
    NextWord(b, 29, 0x32663c5b, 0x12dcbfdb, 0x00000000, 0x00000000, 0xec8726cb);
    NextWord(b, 30, 0x9d209d67, 0xe2e2c38e, 0x00000018, 0x00000000, 0x702138a4);
    NextWord(b, 31, 0xec8726cb, 0xc8215c1a, 0x61626380, 0x00000018, 0xd3b7973b);
  }

  lemma Expansions32()
    ensures Expand(0x702138a4, 0xb73679a2, 0x000f0000, 0x61626380) == 0x93f5997f
    ensures Expand(0xd3b7973b, 0xe5bc3909, 0x7da86405, 0x000f0000) == 0x3b68ba73
    ensures Expand(0x93f5997f, 0x32663c5b, 0x600003c6, 0x7da86405) == 0xaff4ffc1
    ensures Expand(0x3b68ba73, 0x9d209d67, 0x3e9d7b78, 0x600003c6) == 0xf10a5c62
    ensures Expand(0xaff4ffc1, 0xec8726cb, 0x0183fc00, 0x3e9d7b78) == 0x0a8b3996
    ensures Expand(0xf10a5c62, 0x702138a4, 0x12dcbfdb, 0x0183fc00) == 0x72af830a
    ensures Expand(0x0a8b3996, 0xd3b7973b, 0xe2e2c38e, 0x12dcbfdb) == 0x9409e33e
    ensures Expand(0x72af830a, 0x93f5997f, 0xc8215c1a, 0xe2e2c38e) == 0x24641522
    ensures Expand(0x9409e33e, 0x3b68ba73, 0xb73679a2, 0xc8215c1a) == 0x9f47bf94
    ensures Expand(0x24641522, 0xaff4ffc1, 0xe5bc3909, 0xb73679a2) == 0xf0a64f5a
    ensures Expand(0x9f47bf94, 0xf10a5c62, 0x32663c5b, 0xe5bc3909) == 0x3e246a79
    ensures Expand(0xf0a64f5a, 0x0a8b3996, 0x9d209d67, 0x32663c5b) == 0x27333ba3
    ensures Expand(0x3e246a79, 0x72af830a, 0xec8726cb, 0x9d209d67) == 0x0c4763f2
    ensures Expand(0x27333ba3, 0x9409e33e, 0x702138a4, 0xec8726cb) == 0x840abf27
    ensures Expand(0x0c4763f2, 0x24641522, 0xd3b7973b, 0x702138a4) == 0x7a290d5d
    ensures Expand(0x840abf27, 0x9f47bf94, 0x93f5997f, 0xd3b7973b) == 0x065c43da
  {
  }

  lemma Words32(b: seq<Byte>)
    requires |b| == 64 && WordsFrom16(b)
    ensures WordsFrom32(b)
  {
    Expansions32();
    hide W, WordIs, Expand;
    NextWord(b, 32, 0x702138a4, 0xb73679a2, 0x000f0000, 0x61626380, 0x93f5997f);
    NextWord(b, 33, 0xd3b7973b, 0xe5bc3909, 0x7da86405, 0x000f0000, 0x3b68ba73);
    NextWord(b, 34, 0x93f5997f, 0x32663c5b, 0x600003c6, 0x7da86405, 0xaff4ffc1);
    NextWord(b, 35, 0x3b68ba73, 0x9d209d67, 0x3e9d7b78, 0x600003c6, 0xf10a5c62);
    NextWord(b, 36, 0xaff4ffc1, 0xec8726cb, 0x0183fc00, 0x3e9d7b78, 0x0a8b3996);
    NextWord(b, 37, 0xf10a5c62, 0x702138a4, 0x12dcbfdb, 0x0183fc00, 0x72af830a);
    NextWord(b, 38, 0x0a8b3996, 0xd3b7973b, 0xe2e2c38e, 0x12dcbfdb, 0x9409e33e);
    NextWord(b, 39, 0x72af830a, 0x93f5997f, 0xc8215c1a, 0xe2e2c38e, 0x24641522);
    NextWord(b, 40, 0x9409e33e, 0x3b68ba73, 0xb73679a2, 0xc8215c1a, 0x9f47bf94);
    NextWord(b, 41, 0x24641522, 0xaff4ffc1, 0xe5bc3909, 0xb73679a2, 0xf0a64f5a);
    NextWord(b, 42, 0x9f47bf94, 0xf10a5c62, 0x32663c5b, 0xe5bc3909, 0x3e246a79);
    NextWord(b, 43, 0xf0a64f5a, 0x0a8b3996, 0x9d209d67, 0x32663c5b, 0x27333ba3);
    NextWord(b, 44, 0x3e246a79, 0x72af830a, 0xec8726cb, 0x9d209d67, 0x0c4763f2);
    NextWord(b, 45, 0x27333ba3, 0x9409e33e, 0x702138a4, 0xec8726cb, 0x840abf27);
    NextWord(b, 46, 0x0c4763f2, 0x24641522, 0xd3b7973b, 0x702138a4, 0x7a290d5d);
    NextWord(b, 47, 0x840abf27, 0x9f47bf94, 0x93f5997f, 0xd3b7973b, 0x065c43da);
  }

  lemma Expansions48()
    ensures Expand(0x7a290d5d, 0xf0a64f5a, 0x3b68ba73, 0x93f5997f) == 0xfb3e89cb
    ensures Expand(0x065c43da, 0x3e246a79, 0xaff4ffc1, 0x3b68ba73) == 0xcc7617db
    ensures Expand(0xfb3e89cb, 0x27333ba3, 0xf10a5c62, 0xaff4ffc1) == 0xb9e66c34
    ensures Expand(0xcc7617db, 0x0c4763f2, 0x0a8b3996, 0xf10a5c62) == 0xa9993667
    ensures Expand(0xb9e66c34, 0x840abf27, 0x72af830a, 0x0a8b3996) == 0x84badedd
    ensures Expand(0xa9993667, 0x7a290d5d, 0x9409e33e, 0x72af830a) == 0xc21462bc
    ensures Expand(0x84badedd, 0x065c43da, 0x24641522, 0x9409e33e) == 0x1487472c
    ensures Expand(0xc21462bc, 0xfb3e89cb, 0x9f47bf94, 0x24641522) == 0xb20f7a99
    ensures Expand(0x1487472c, 0xcc7617db, 0xf0a64f5a, 0x9f47bf94) == 0xef57b9cd
    ensures Expand(0xb20f7a99, 0xb9e66c34, 0x3e246a79, 0xf0a64f5a) == 0xebe6b238
    ensures Expand(0xef57b9cd, 0xa9993667, 0x27333ba3, 0x3e246a79) == 0x9fe3095e
    ensures Expand(0xebe6b238, 0x84badedd, 0x0c4763f2, 0x27333ba3) == 0x78bc8d4b
    ensures Expand(0x9fe3095e, 0xc21462bc, 0x840abf27, 0x0c4763f2) == 0xa43fcf15
    ensures Expand(0x78bc8d4b, 0x1487472c, 0x7a290d5d, 0x840abf27) == 0x668b2ff8
    ensures Expand(0xa43fcf15, 0xb20f7a99, 0x065c43da, 0x7a290d5d) == 0xeeaba2cc
    ensures Expand(0x668b2ff8, 0xef57b9cd, 0xfb3e89cb, 0x065c43da) == 0x12b1edeb
  {
  }

  lemma Words48(b: seq<Byte>)
    requires |b| == 64 && WordsFrom32(b)
    ensures WordsFrom48(b)
  {
    Expansions48();
    hide W, WordIs, Expand;
    NextWord(b, 48, 0x7a290d5d, 0xf0a64f5a, 0x3b68ba73, 0x93f5997f, 0xfb3e89cb);
    NextWord(b, 49, 0x065c43da, 0x3e246a79, 0xaff4ffc1, 0x3b68ba73, 0xcc7617db);
    NextWord(b, 50, 0xfb3e89cb, 0x27333ba3, 0xf10a5c62, 0xaff4ffc1, 0xb9e66c34);
    NextWord(b, 51, 0xcc7617db, 0x0c4763f2, 0x0a8b3996, 0xf10a5c62, 0xa9993667);
    NextWord(b, 52, 0xb9e66c34, 0x840abf27, 0x72af830a, 0x0a8b3996, 0x84badedd);
    NextWord(b, 53, 0xa9993667, 0x7a290d5d, 0x9409e33e, 0x72af830a, 0xc21462bc);
    NextWord(b, 54, 0x84badedd, 0x065c43da, 0x24641522, 0x9409e33e, 0x1487472c);
    NextWord(b, 55, 0xc21462bc, 0xfb3e89cb, 0x9f47bf94, 0x24641522, 0xb20f7a99);
    NextWord(b, 56, 0x1487472c, 0xcc7617db, 0xf0a64f5a, 0x9f47bf94, 0xef57b9cd);
    NextWord(b, 57, 0xb20f7a99, 0xb9e66c34, 0x3e246a79, 0xf0a64f5a, 0xebe6b238);
    NextWord(b, 58, 0xef57b9cd, 0xa9993667, 0x27333ba3, 0x3e246a79, 0x9fe3095e);
    NextWord(b, 59, 0xebe6b238, 0x84badedd, 0x0c4763f2, 0x27333ba3, 0x78bc8d4b);
    NextWord(b, 60, 0x9fe3095e, 0xc21462bc, 0x840abf27, 0x0c4763f2, 0xa43fcf15);
    NextWord(b, 61, 0x78bc8d4b, 0x1487472c, 0x7a290d5d, 0x840abf27, 0x668b2ff8);
    NextWord(b, 62, 0xa43fcf15, 0xb20f7a99, 0x065c43da, 0x7a290d5d, 0xeeaba2cc);
    NextWord(b, 63, 0x668b2ff8, 0xef57b9cd, 0xfb3e89cb, 0x065c43da, 0x12b1edeb);
  }

  // ----- The rounds -----

  lemma FirstTerms0()
    ensures T1(Vars(0x6a09e667, 0xbb67ae85, 0x3c6ef372, 0xa54ff53a, 0x510e527f, 0x9b05688c, 0x1f83d9ab, 0x5be0cd19),
               0x428a2f98, 0x61626380) == 0x54da50e8
    ensures T1(Vars(0x5d6aebcd, 0x6a09e667, 0xbb67ae85, 0x3c6ef372, 0xfa2a4622, 0x510e527f, 0x9b05688c, 0x1f83d9ab),
               0x71374491, 0x00000000) == 0x3c5f8617
    ensures T1(Vars(0x5a6ad9ad, 0x5d6aebcd, 0x6a09e667, 0xbb67ae85, 0x78ce7989, 0xfa2a4622, 0x510e527f, 0x9b05688c),
               0xb5c0fbcf, 0x00000000) == 0x3dc18b66
    ensures T1(Vars(0xc8c347a7, 0x5a6ad9ad, 0x5d6aebcd, 0x6a09e667, 0xf92939eb, 0x78ce7989, 0xfa2a4622, 0x510e527f),
               0xe9b5dba5, 0x00000000) == 0xbad621e9
    ensures T1(Vars(0xd550f666, 0xc8c347a7, 0x5a6ad9ad, 0x5d6aebcd, 0x24e00850, 0xf92939eb, 0x78ce7989, 0xfa2a4622),
               0x3956c25b, 0x00000000) == 0xe642b678
    ensures T1(Vars(0x04409a6a, 0xd550f666, 0xc8c347a7, 0x5a6ad9ad, 0x43ada245, 0x24e00850, 0xf92939eb, 0x78ce7989),
               0x59f111f1, 0x00000000) == 0x16d78700
    ensures T1(Vars(0x2b4209f5, 0x04409a6a, 0xd550f666, 0xc8c347a7, 0x714260ad, 0x43ada245, 0x24e00850, 0xf92939eb),
               0x923f82a4, 0x00000000) == 0xd2645c5a
    ensures T1(Vars(0xe5030380, 0x2b4209f5, 0x04409a6a, 0xd550f666, 0x9b27a401, 0x714260ad, 0x43ada245, 0x24e00850),
               0xab1c5ed5, 0x00000000) == 0x37148413
    ensures T1(Vars(0x85a07b5f, 0xe5030380, 0x2b4209f5, 0x04409a6a, 0x0c657a79, 0x9b27a401, 0x714260ad, 0x43ada245),
               0xd807aa98, 0x00000000) == 0x2e899322
    ensures T1(Vars(0x8e04ecb9, 0x85a07b5f, 0xe5030380, 0x2b4209f5, 0x32ca2d8c, 0x0c657a79, 0x9b27a401, 0x714260ad),
               0x12835b01, 0x00000000) == 0xf1871ba1
    ensures T1(Vars(0x8c87346b, 0x8e04ecb9, 0x85a07b5f, 0xe5030380, 0x1cc92596, 0x32ca2d8c, 0x0c657a79, 0x9b27a401),
               0x243185be, 0x00000000) == 0x5e682068
    ensures T1(Vars(0x4798a3f4, 0x8c87346b, 0x8e04ecb9, 0x85a07b5f, 0x436b23e8, 0x1cc92596, 0x32ca2d8c, 0x0c657a79),
               0x550c7dc3, 0x00000000) == 0xfbcf5b8a
    ensures T1(Vars(0xf71fc5a9, 0x4798a3f4, 0x8c87346b, 0x8e04ecb9, 0x816fd6e9, 0x436b23e8, 0x1cc92596, 0x32ca2d8c),
               0x72be5d74, 0x00000000) == 0x9052955f
    ensures T1(Vars(0x87912990, 0xf71fc5a9, 0x4798a3f4, 0x8c87346b, 0x1e578218, 0x816fd6e9, 0x436b23e8, 0x1cc92596),
               0x80deb1fe, 0x00000000) == 0xe7d31473
    ensures T1(Vars(0xd932eb16, 0x87912990, 0xf71fc5a9, 0x4798a3f4, 0x745a48de, 0x1e578218, 0x816fd6e9, 0x436b23e8),
               0x9bdc06a7, 0x00000000) == 0xc3fa4e18
    ensures T1(Vars(0xc0645fde, 0xd932eb16, 0x87912990, 0xf71fc5a9, 0x0b92f20c, 0x745a48de, 0x1e578218, 0x816fd6e9),
               0xc19bf174, 0x00000018) == 0x10394824
  {
  }

  lemma SecondTerms0()
    ensures T2(Vars(0x6a09e667, 0xbb67ae85, 0x3c6ef372, 0xa54ff53a, 0x510e527f, 0x9b05688c, 0x1f83d9ab, 0x5be0cd19)) == 0x08909ae5
    ensures T2(Vars(0x5d6aebcd, 0x6a09e667, 0xbb67ae85, 0x3c6ef372, 0xfa2a4622, 0x510e527f, 0x9b05688c, 0x1f83d9ab)) == 0x1e0b5396
    ensures T2(Vars(0x5a6ad9ad, 0x5d6aebcd, 0x6a09e667, 0xbb67ae85, 0x78ce7989, 0xfa2a4622, 0x510e527f, 0x9b05688c)) == 0x8b01bc41
    ensures T2(Vars(0xc8c347a7, 0x5a6ad9ad, 0x5d6aebcd, 0x6a09e667, 0xf92939eb, 0x78ce7989, 0xfa2a4622, 0x510e527f)) == 0x1a7ad47d
    ensures T2(Vars(0xd550f666, 0xc8c347a7, 0x5a6ad9ad, 0x5d6aebcd, 0x24e00850, 0xf92939eb, 0x78ce7989, 0xfa2a4622)) == 0x1dfde3f2
    ensures T2(Vars(0x04409a6a, 0xd550f666, 0xc8c347a7, 0x5a6ad9ad, 0x43ada245, 0x24e00850, 0xf92939eb, 0x78ce7989)) == 0x146a82f5
    ensures T2(Vars(0x2b4209f5, 0x04409a6a, 0xd550f666, 0xc8c347a7, 0x714260ad, 0x43ada245, 0x24e00850, 0xf92939eb)) == 0x129ea726
    ensures T2(Vars(0xe5030380, 0x2b4209f5, 0x04409a6a, 0xd550f666, 0x9b27a401, 0x714260ad, 0x43ada245, 0x24e00850)) == 0x4e8bf74c
    ensures T2(Vars(0x85a07b5f, 0xe5030380, 0x2b4209f5, 0x04409a6a, 0x0c657a79, 0x9b27a401, 0x714260ad, 0x43ada245)) == 0x5f7b5997
    ensures T2(Vars(0x8e04ecb9, 0x85a07b5f, 0xe5030380, 0x2b4209f5, 0x32ca2d8c, 0x0c657a79, 0x9b27a401, 0x714260ad)) == 0x9b0018ca
    ensures T2(Vars(0x8c87346b, 0x8e04ecb9, 0x85a07b5f, 0xe5030380, 0x1cc92596, 0x32ca2d8c, 0x0c657a79, 0x9b27a401)) == 0xe930838c
    ensures T2(Vars(0x4798a3f4, 0x8c87346b, 0x8e04ecb9, 0x85a07b5f, 0x436b23e8, 0x1cc92596, 0x32ca2d8c, 0x0c657a79)) == 0xfb506a1f
    ensures T2(Vars(0xf71fc5a9, 0x4798a3f4, 0x8c87346b, 0x8e04ecb9, 0x816fd6e9, 0x436b23e8, 0x1cc92596, 0x32ca2d8c)) == 0xf73e9431
    ensures T2(Vars(0x87912990, 0xf71fc5a9, 0x4798a3f4, 0x8c87346b, 0x1e578218, 0x816fd6e9, 0x436b23e8, 0x1cc92596)) == 0xf15fd6a3
    ensures T2(Vars(0xd932eb16, 0x87912990, 0xf71fc5a9, 0x4798a3f4, 0x745a48de, 0x1e578218, 0x816fd6e9, 0x436b23e8)) == 0xfc6a11c6
    ensures T2(Vars(0xc0645fde, 0xd932eb16, 0x87912990, 0xf71fc5a9, 0x0b92f20c, 0x745a48de, 0x1e578218, 0x816fd6e9)) == 0xa0c0db6a
  {
  }

  lemma Sums0()
    ensures Add(0x54da50e8, 0x08909ae5) == 0x5d6aebcd && Add(0xa54ff53a, 0x54da50e8) == 0xfa2a4622
    ensures Add(0x3c5f8617, 0x1e0b5396) == 0x5a6ad9ad && Add(0x3c6ef372, 0x3c5f8617) == 0x78ce7989
    ensures Add(0x3dc18b66, 0x8b01bc41) == 0xc8c347a7 && Add(0xbb67ae85, 0x3dc18b66) == 0xf92939eb
    ensures Add(0xbad621e9, 0x1a7ad47d) == 0xd550f666 && Add(0x6a09e667, 0xbad621e9) == 0x24e00850
    ensures Add(0xe642b678, 0x1dfde3f2) == 0x04409a6a && Add(0x5d6aebcd, 0xe642b678) == 0x43ada245
    ensures Add(0x16d78700, 0x146a82f5) == 0x2b4209f5 && Add(0x5a6ad9ad, 0x16d78700) == 0x714260ad
    ensures Add(0xd2645c5a, 0x129ea726) == 0xe5030380 && Add(0xc8c347a7, 0xd2645c5a) == 0x9b27a401
    ensures Add(0x37148413, 0x4e8bf74c) == 0x85a07b5f && Add(0xd550f666, 0x37148413) == 0x0c657a79
    ensures Add(0x2e899322, 0x5f7b5997) == 0x8e04ecb9 && Add(0x04409a6a, 0x2e899322) == 0x32ca2d8c
    ensures Add(0xf1871ba1, 0x9b0018ca) == 0x8c87346b && Add(0x2b4209f5, 0xf1871ba1) == 0x1cc92596
    ensures Add(0x5e682068, 0xe930838c) == 0x4798a3f4 && Add(0xe5030380, 0x5e682068) == 0x436b23e8
    ensures Add(0xfbcf5b8a, 0xfb506a1f) == 0xf71fc5a9 && Add(0x85a07b5f, 0xfbcf5b8a) == 0x816fd6e9
    ensures Add(0x9052955f, 0xf73e9431) == 0x87912990 && Add(0x8e04ecb9, 0x9052955f) == 0x1e578218
    ensures Add(0xe7d31473, 0xf15fd6a3) == 0xd932eb16 && Add(0x8c87346b, 0xe7d31473) == 0x745a48de
    ensures Add(0xc3fa4e18, 0xfc6a11c6) == 0xc0645fde && Add(0x4798a3f4, 0xc3fa4e18) == 0x0b92f20c
    ensures Add(0x10394824, 0xa0c0db6a) == 0xb0fa238e && Add(0xf71fc5a9, 0x10394824) == 0x07590dcd
  {
  }

  lemma Rounds0(b: seq<Byte>, v: Vars)
    requires |b| == 64 && WordsFrom0(b)
    requires Rounds(b, v, 0) == Vars(0x6a09e667, 0xbb67ae85, 0x3c6ef372, 0xa54ff53a, 0x510e527f, 0x9b05688c, 0x1f83d9ab, 0x5be0cd19)
    ensures Rounds(b, v, 16) == Vars(0xb0fa238e, 0xc0645fde, 0xd932eb16, 0x87912990, 0x07590dcd, 0x0b92f20c, 0x745a48de, 0x1e578218)
  {
    hide W, T1, T2, Add, RoundConstant, Rounds;
    FirstTerms0();
    SecondTerms0();
    Sums0();
    Constants0();
    NextRound(b, v, 0);
    NextRound(b, v, 1);
    NextRound(b, v, 2);
    NextRound(b, v, 3);
    NextRound(b, v, 4);
    NextRound(b, v, 5);
    NextRound(b, v, 6);
    NextRound(b, v, 7);
    NextRound(b, v, 8);
    NextRound(b, v, 9);
    NextRound(b, v, 10);
    NextRound(b, v, 11);
    NextRound(b, v, 12);
    NextRound(b, v, 13);
    NextRound(b, v, 14);
    NextRound(b, v, 15);
  }

  lemma FirstTerms16()
    ensures T1(Vars(0xb0fa238e, 0xc0645fde, 0xd932eb16, 0x87912990, 0x07590dcd, 0x0b92f20c, 0x745a48de, 0x1e578218),
               0xe49b69c1, 0x61626380) == 0xf8a2f90c
    ensures T1(Vars(0x21da9a9b, 0xb0fa238e, 0xc0645fde, 0xd932eb16, 0x8034229c, 0x07590dcd, 0x0b92f20c, 0x745a48de),
               0xefbe4786, 0x000f0000) == 0xab3bf93e
    ensures T1(Vars(0xc2fbd9d1, 0x21da9a9b, 0xb0fa238e, 0xc0645fde, 0x846ee454, 0x8034229c, 0x07590dcd, 0x0b92f20c),
               0x0fc19dc6, 0x7da86405) == 0x0c253983
    ensures T1(Vars(0xfe777bbf, 0xc2fbd9d1, 0x21da9a9b, 0xb0fa238e, 0xcc899961, 0x846ee454, 0x8034229c, 0x07590dcd),
               0x240ca1cc, 0x600003c6) == 0xff695deb
    ensures T1(Vars(0xe1f20c33, 0xfe777bbf, 0xc2fbd9d1, 0x21da9a9b, 0xb0638179, 0xcc899961, 0x846ee454, 0x8034229c),
               0x2de92c6f, 0x3e9d7b78) == 0x68ffee95
    ensures T1(Vars(0x9dc68b63, 0xe1f20c33, 0xfe777bbf, 0xc2fbd9d1, 0x8ada8930, 0xb0638179, 0xcc899961, 0x846ee454),
               0x4a7484aa, 0x0183fc00) == 0x1e299f9f
    ensures T1(Vars(0xc2606d6d, 0x9dc68b63, 0xe1f20c33, 0xfe777bbf, 0xe1257970, 0x8ada8930, 0xb0638179, 0xcc899961),
               0x5cb0a9dc, 0x12dcbfdb) == 0x4b7d958b
    ensures T1(Vars(0xa7a3623f, 0xc2606d6d, 0x9dc68b63, 0xe1f20c33, 0x49f5114a, 0xe1257970, 0x8ada8930, 0xb0638179),
               0x76f988da, 0xe2e2c38e) == 0xc855b714
    ensures T1(Vars(0xc5d53d8d, 0xa7a3623f, 0xc2606d6d, 0x9dc68b63, 0xaa47c347, 0x49f5114a, 0xe1257970, 0x8ada8930),
               0x983e5152, 0xc8215c1a) == 0x8a5d642e
    ensures T1(Vars(0x1c2c2838, 0xc5d53d8d, 0xa7a3623f, 0xc2606d6d, 0x2823ef91, 0xaa47c347, 0x49f5114a, 0xe1257970),
               0xa831c66d, 0xb73679a2) == 0x51d7d021
    ensures T1(Vars(0xcde8037d, 0x1c2c2838, 0xc5d53d8d, 0xa7a3623f, 0x14383d8e, 0x2823ef91, 0xaa47c347, 0x49f5114a),
               0xb00327c8, 0xe5bc3909) == 0x1fa902d7
    ensures T1(Vars(0xb62ec4bc, 0xcde8037d, 0x1c2c2838, 0xc5d53d8d, 0xc74c6516, 0x14383d8e, 0x2823ef91, 0xaa47c347),
               0xbf597fc7, 0x32663c5b) == 0x282a826b
    ensures T1(Vars(0x77d37528, 0xb62ec4bc, 0xcde8037d, 0x1c2c2838, 0xedffbff8, 0xc74c6516, 0x14383d8e, 0x2823ef91),
               0xc6e00bf3, 0x9d209d67) == 0x44e67b7f
    ensures T1(Vars(0x363482c9, 0x77d37528, 0xb62ec4bc, 0xcde8037d, 0x6112a3b7, 0xedffbff8, 0xc74c6516, 0x14383d8e),
               0xd5a79147, 0xec8726cb) == 0xdfff90ba
    ensures T1(Vars(0xa0060b30, 0x363482c9, 0x77d37528, 0xb62ec4bc, 0xade79437, 0x6112a3b7, 0xedffbff8, 0xc74c6516),
               0x06ca6351, 0x702138a4) == 0x4adae67e
    ensures T1(Vars(0xea992a22, 0xa0060b30, 0x363482c9, 0x77d37528, 0x0109ab3a, 0xade79437, 0x6112a3b7, 0xedffbff8),
               0x14292967, 0xd3b7973b) == 0x42859bea
  {
  }

  lemma SecondTerms16()
    ensures T2(Vars(0xb0fa238e, 0xc0645fde, 0xd932eb16, 0x87912990, 0x07590dcd, 0x0b92f20c, 0x745a48de, 0x1e578218)) == 0x2937a18f
    ensures T2(Vars(0x21da9a9b, 0xb0fa238e, 0xc0645fde, 0xd932eb16, 0x8034229c, 0x07590dcd, 0x0b92f20c, 0x745a48de)) == 0x17bfe093
    ensures T2(Vars(0xc2fbd9d1, 0x21da9a9b, 0xb0fa238e, 0xc0645fde, 0x846ee454, 0x8034229c, 0x07590dcd, 0x0b92f20c)) == 0xf252423c
    ensures T2(Vars(0xfe777bbf, 0xc2fbd9d1, 0x21da9a9b, 0xb0fa238e, 0xcc899961, 0x846ee454, 0x8034229c, 0x07590dcd)) == 0xe288ae48
    ensures T2(Vars(0xe1f20c33, 0xfe777bbf, 0xc2fbd9d1, 0x21da9a9b, 0xb0638179, 0xcc899961, 0x846ee454, 0x8034229c)) == 0x34c69cce
    ensures T2(Vars(0x9dc68b63, 0xe1f20c33, 0xfe777bbf, 0xc2fbd9d1, 0x8ada8930, 0xb0638179, 0xcc899961, 0x846ee454)) == 0xa436cdce
    ensures T2(Vars(0xc2606d6d, 0x9dc68b63, 0xe1f20c33, 0xfe777bbf, 0xe1257970, 0x8ada8930, 0xb0638179, 0xcc899961)) == 0x5c25ccb4
    ensures T2(Vars(0xa7a3623f, 0xc2606d6d, 0x9dc68b63, 0xe1f20c33, 0x49f5114a, 0xe1257970, 0x8ada8930, 0xb0638179)) == 0xfd7f8679
    ensures T2(Vars(0xc5d53d8d, 0xa7a3623f, 0xc2606d6d, 0x9dc68b63, 0xaa47c347, 0x49f5114a, 0xe1257970, 0x8ada8930)) == 0x91cec40a
    ensures T2(Vars(0x1c2c2838, 0xc5d53d8d, 0xa7a3623f, 0xc2606d6d, 0x2823ef91, 0xaa47c347, 0x49f5114a, 0xe1257970)) == 0x7c10335c
    ensures T2(Vars(0xcde8037d, 0x1c2c2838, 0xc5d53d8d, 0xa7a3623f, 0x14383d8e, 0x2823ef91, 0xaa47c347, 0x49f5114a)) == 0x9685c1e5
    ensures T2(Vars(0xb62ec4bc, 0xcde8037d, 0x1c2c2838, 0xc5d53d8d, 0xc74c6516, 0x14383d8e, 0x2823ef91, 0xaa47c347)) == 0x4fa8f2bd
    ensures T2(Vars(0x77d37528, 0xb62ec4bc, 0xcde8037d, 0x1c2c2838, 0xedffbff8, 0xc74c6516, 0x14383d8e, 0x2823ef91)) == 0xf14e074a
    ensures T2(Vars(0x363482c9, 0x77d37528, 0xb62ec4bc, 0xcde8037d, 0x6112a3b7, 0xedffbff8, 0xc74c6516, 0x14383d8e)) == 0xc0067a76
    ensures T2(Vars(0xa0060b30, 0x363482c9, 0x77d37528, 0xb62ec4bc, 0xade79437, 0x6112a3b7, 0xedffbff8, 0xc74c6516)) == 0x9fbe43a4
    ensures T2(Vars(0xea992a22, 0xa0060b30, 0x363482c9, 0x77d37528, 0x0109ab3a, 0xade79437, 0x6112a3b7, 0xedffbff8)) == 0x312da00b
  {
  }

  lemma Sums16()
    ensures Add(0xf8a2f90c, 0x2937a18f) == 0x21da9a9b && Add(0x87912990, 0xf8a2f90c) == 0x8034229c
    ensures Add(0xab3bf93e, 0x17bfe093) == 0xc2fbd9d1 && Add(0xd932eb16, 0xab3bf93e) == 0x846ee454
    ensures Add(0x0c253983, 0xf252423c) == 0xfe777bbf && Add(0xc0645fde, 0x0c253983) == 0xcc899961
    ensures Add(0xff695deb, 0xe288ae48) == 0xe1f20c33 && Add(0xb0fa238e, 0xff695deb) == 0xb0638179
    ensures Add(0x68ffee95, 0x34c69cce) == 0x9dc68b63 && Add(0x21da9a9b, 0x68ffee95) == 0x8ada8930
    ensures Add(0x1e299f9f, 0xa436cdce) == 0xc2606d6d && Add(0xc2fbd9d1, 0x1e299f9f) == 0xe1257970
    ensures Add(0x4b7d958b, 0x5c25ccb4) == 0xa7a3623f && Add(0xfe777bbf, 0x4b7d958b) == 0x49f5114a
    ensures Add(0xc855b714, 0xfd7f8679) == 0xc5d53d8d && Add(0xe1f20c33, 0xc855b714) == 0xaa47c347
    ensures Add(0x8a5d642e, 0x91cec40a) == 0x1c2c2838 && Add(0x9dc68b63, 0x8a5d642e) == 0x2823ef91
    ensures Add(0x51d7d021, 0x7c10335c) == 0xcde8037d && Add(0xc2606d6d, 0x51d7d021) == 0x14383d8e
    ensures Add(0x1fa902d7, 0x9685c1e5) == 0xb62ec4bc && Add(0xa7a3623f, 0x1fa902d7) == 0xc74c6516
    ensures Add(0x282a826b, 0x4fa8f2bd) == 0x77d37528 && Add(0xc5d53d8d, 0x282a826b) == 0xedffbff8
    ensures Add(0x44e67b7f, 0xf14e074a) == 0x363482c9 && Add(0x1c2c2838, 0x44e67b7f) == 0x6112a3b7
    ensures Add(0xdfff90ba, 0xc0067a76) == 0xa0060b30 && Add(0xcde8037d, 0xdfff90ba) == 0xade79437
    ensures Add(0x4adae67e, 0x9fbe43a4) == 0xea992a22 && Add(0xb62ec4bc, 0x4adae67e) == 0x0109ab3a
    ensures Add(0x42859bea, 0x312da00b) == 0x73b33bf5 && Add(0x77d37528, 0x42859bea) == 0xba591112
  {
  }

  lemma Rounds16(b: seq<Byte>, v: Vars)
    requires |b| == 64 && WordsFrom16(b)
    requires Rounds(b, v, 16) == Vars(0xb0fa238e, 0xc0645fde, 0xd932eb16, 0x87912990, 0x07590dcd, 0x0b92f20c, 0x745a48de, 0x1e578218)
    ensures Rounds(b, v, 32) == Vars(0x73b33bf5, 0xea992a22, 0xa0060b30, 0x363482c9, 0xba591112, 0x0109ab3a, 0xade79437, 0x6112a3b7)
  {
    hide W, T1, T2, Add, RoundConstant, Rounds;
    FirstTerms16();
    SecondTerms16();
    Sums16();
    Constants16();
    NextRound(b, v, 16);
    NextRound(b, v, 17);
    NextRound(b, v, 18);
    NextRound(b, v, 19);
    NextRound(b, v, 20);
    NextRound(b, v, 21);
    NextRound(b, v, 22);
    NextRound(b, v, 23);
    NextRound(b, v, 24);
    NextRound(b, v, 25);
    NextRound(b, v, 26);
    NextRound(b, v, 27);
    NextRound(b, v, 28);
    NextRound(b, v, 29);
    NextRound(b, v, 30);
    NextRound(b, v, 31);
  }

  lemma FirstTerms32()
    ensures T1(Vars(0x73b33bf5, 0xea992a22, 0xa0060b30, 0x363482c9, 0xba591112, 0x0109ab3a, 0xade79437, 0x6112a3b7),
               0x27b70a85, 0x93f5997f) == 0x66a5732d
    ensures T1(Vars(0x98e12507, 0x73b33bf5, 0xea992a22, 0xa0060b30, 0x9cd9f5f6, 0xba591112, 0x0109ab3a, 0xade79437),
               0x2e1b2138, 0x3b68ba73) == 0xb91e92a3
    ensures T1(Vars(0xfe604df5, 0x98e12507, 0x73b33bf5, 0xea992a22, 0x59249dd3, 0x9cd9f5f6, 0xba591112, 0x0109ab3a),
               0x4d2c6dfc, 0xaff4ffc1) == 0x1dc60e11
    ensures T1(Vars(0xa9a7738c, 0xfe604df5, 0x98e12507, 0x73b33bf5, 0x085f3833, 0x59249dd3, 0x9cd9f5f6, 0xba591112),
               0x53380d13, 0xf10a5c62) == 0x80fcc6e1
    ensures T1(Vars(0x65a0cfe4, 0xa9a7738c, 0xfe604df5, 0x98e12507, 0xf4b002d6, 0x085f3833, 0x59249dd3, 0x9cd9f5f6),
               0x650a7354, 0x0a8b3996) == 0x6e917d64
    ensures T1(Vars(0x41a65cb1, 0x65a0cfe4, 0xa9a7738c, 0xfe604df5, 0x0772a26b, 0xf4b002d6, 0x085f3833, 0x59249dd3),
               0x766a0abb, 0x72af830a) == 0xa6a75748
    ensures T1(Vars(0x34df1604, 0x41a65cb1, 0x65a0cfe4, 0xa9a7738c, 0xa507a53d, 0x0772a26b, 0xf4b002d6, 0x085f3833),
               0x81c2c92e, 0x9409e33e) == 0x46d0a83c
    ensures T1(Vars(0x6dc57a8a, 0x34df1604, 0x41a65cb1, 0x65a0cfe4, 0xf0781bc8, 0xa507a53d, 0x0772a26b, 0xf4b002d6),
               0x92722c85, 0x24641522) == 0xb95af0bc
    ensures T1(Vars(0x79ea687a, 0x6dc57a8a, 0x34df1604, 0x41a65cb1, 0x1efbc0a0, 0xf0781bc8, 0xa507a53d, 0x0772a26b),
               0xa2bfe8a1, 0x9f47bf94) == 0xe48ed0b2
    ensures T1(Vars(0xd6670766, 0x79ea687a, 0x6dc57a8a, 0x34df1604, 0x26352d63, 0x1efbc0a0, 0xf0781bc8, 0xa507a53d),
               0xa81a664b, 0xf0a64f5a) == 0x4eac110d
    ensures T1(Vars(0xdf46652f, 0xd6670766, 0x79ea687a, 0x6dc57a8a, 0x838b2711, 0x26352d63, 0x1efbc0a0, 0xf0781bc8),
               0xc24b8b70, 0x3e246a79) == 0x7107cc8b
    ensures T1(Vars(0x17aa0dfe, 0xdf46652f, 0xd6670766, 0x79ea687a, 0xdecd4715, 0x838b2711, 0x26352d63, 0x1efbc0a0),
               0xc76c51a3, 0x27333ba3) == 0x83b7e3b4
    ensures T1(Vars(0x9d4baf93, 0x17aa0dfe, 0xdf46652f, 0xd6670766, 0xfda24c2e, 0xdecd4715, 0x838b2711, 0x26352d63),
               0xd192e819, 0x0c4763f2) == 0xd1a80a8a
    ensures T1(Vars(0x26628815, 0x9d4baf93, 0x17aa0dfe, 0xdf46652f, 0xa80f11f0, 0xfda24c2e, 0xdecd4715, 0x838b2711),
               0xd6990624, 0x840abf27) == 0xd82ef872
    ensures T1(Vars(0x72ab4b91, 0x26628815, 0x9d4baf93, 0x17aa0dfe, 0xb7755da1, 0xa80f11f0, 0xfda24c2e, 0xdecd4715),
               0xf40e3585, 0x7a290d5d) == 0xbdd186ab
    ensures T1(Vars(0xa14c14b0, 0x72ab4b91, 0x26628815, 0x9d4baf93, 0xd57b94a9, 0xb7755da1, 0xa80f11f0, 0xfda24c2e),
               0x106aa070, 0x065c43da) == 0x61835c33
  {
  }

  lemma SecondTerms32()
    ensures T2(Vars(0x73b33bf5, 0xea992a22, 0xa0060b30, 0x363482c9, 0xba591112, 0x0109ab3a, 0xade79437, 0x6112a3b7)) == 0x323bb1da
    ensures T2(Vars(0x98e12507, 0x73b33bf5, 0xea992a22, 0xa0060b30, 0x9cd9f5f6, 0xba591112, 0x0109ab3a, 0xade79437)) == 0x4541bb52
    ensures T2(Vars(0xfe604df5, 0x98e12507, 0x73b33bf5, 0xea992a22, 0x59249dd3, 0x9cd9f5f6, 0xba591112, 0x0109ab3a)) == 0x8be1657b
    ensures T2(Vars(0xa9a7738c, 0xfe604df5, 0x98e12507, 0x73b33bf5, 0x085f3833, 0x59249dd3, 0x9cd9f5f6, 0xba591112)) == 0xe4a40903
    ensures T2(Vars(0x65a0cfe4, 0xa9a7738c, 0xfe604df5, 0x98e12507, 0xf4b002d6, 0x085f3833, 0x59249dd3, 0x9cd9f5f6)) == 0xd314df4d
    ensures T2(Vars(0x41a65cb1, 0x65a0cfe4, 0xa9a7738c, 0xfe604df5, 0x0772a26b, 0xf4b002d6, 0x085f3833, 0x59249dd3)) == 0x8e37bebc
    ensures T2(Vars(0x34df1604, 0x41a65cb1, 0x65a0cfe4, 0xa9a7738c, 0xa507a53d, 0x0772a26b, 0xf4b002d6, 0x085f3833)) == 0x26f4d24e
    ensures T2(Vars(0x6dc57a8a, 0x34df1604, 0x41a65cb1, 0x65a0cfe4, 0xf0781bc8, 0xa507a53d, 0x0772a26b, 0xf4b002d6)) == 0xc08f77be
    ensures T2(Vars(0x79ea687a, 0x6dc57a8a, 0x34df1604, 0x41a65cb1, 0x1efbc0a0, 0xf0781bc8, 0xa507a53d, 0x0772a26b)) == 0xf1d836b4
    ensures T2(Vars(0xd6670766, 0x79ea687a, 0x6dc57a8a, 0x34df1604, 0x26352d63, 0x1efbc0a0, 0xf0781bc8, 0xa507a53d)) == 0x909a5422
    ensures T2(Vars(0xdf46652f, 0xd6670766, 0x79ea687a, 0x6dc57a8a, 0x838b2711, 0x26352d63, 0x1efbc0a0, 0xf0781bc8)) == 0xa6a24173
    ensures T2(Vars(0x17aa0dfe, 0xdf46652f, 0xd6670766, 0x79ea687a, 0xdecd4715, 0x838b2711, 0x26352d63, 0x1efbc0a0)) == 0x1993cbdf
    ensures T2(Vars(0x9d4baf93, 0x17aa0dfe, 0xdf46652f, 0xd6670766, 0xfda24c2e, 0xdecd4715, 0x838b2711, 0x26352d63)) == 0x54ba7d8b
    ensures T2(Vars(0x26628815, 0x9d4baf93, 0x17aa0dfe, 0xdf46652f, 0xa80f11f0, 0xfda24c2e, 0xdecd4715, 0x838b2711)) == 0x9a7c531f
    ensures T2(Vars(0x72ab4b91, 0x26628815, 0x9d4baf93, 0x17aa0dfe, 0xb7755da1, 0xa80f11f0, 0xfda24c2e, 0xdecd4715)) == 0xe37a8e05
    ensures T2(Vars(0xa14c14b0, 0x72ab4b91, 0x26628815, 0x9d4baf93, 0xd57b94a9, 0xb7755da1, 0xa80f11f0, 0xfda24c2e)) == 0xdfeed65a
  {
  }

  lemma Sums32()
    ensures Add(0x66a5732d, 0x323bb1da) == 0x98e12507 && Add(0x363482c9, 0x66a5732d) == 0x9cd9f5f6
    ensures Add(0xb91e92a3, 0x4541bb52) == 0xfe604df5 && Add(0xa0060b30, 0xb91e92a3) == 0x59249dd3
    ensures Add(0x1dc60e11, 0x8be1657b) == 0xa9a7738c && Add(0xea992a22, 0x1dc60e11) == 0x085f3833
    ensures Add(0x80fcc6e1, 0xe4a40903) == 0x65a0cfe4 && Add(0x73b33bf5, 0x80fcc6e1) == 0xf4b002d6
    ensures Add(0x6e917d64, 0xd314df4d) == 0x41a65cb1 && Add(0x98e12507, 0x6e917d64) == 0x0772a26b
    ensures Add(0xa6a75748, 0x8e37bebc) == 0x34df1604 && Add(0xfe604df5, 0xa6a75748) == 0xa507a53d
    ensures Add(0x46d0a83c, 0x26f4d24e) == 0x6dc57a8a && Add(0xa9a7738c, 0x46d0a83c) == 0xf0781bc8
    ensures Add(0xb95af0bc, 0xc08f77be) == 0x79ea687a && Add(0x65a0cfe4, 0xb95af0bc) == 0x1efbc0a0
    ensures Add(0xe48ed0b2, 0xf1d836b4) == 0xd6670766 && Add(0x41a65cb1, 0xe48ed0b2) == 0x26352d63
    ensures Add(0x4eac110d, 0x909a5422) == 0xdf46652f && Add(0x34df1604, 0x4eac110d) == 0x838b2711
    ensures Add(0x7107cc8b, 0xa6a24173) == 0x17aa0dfe && Add(0x6dc57a8a, 0x7107cc8b) == 0xdecd4715
    ensures Add(0x83b7e3b4, 0x1993cbdf) == 0x9d4baf93 && Add(0x79ea687a, 0x83b7e3b4) == 0xfda24c2e
    ensures Add(0xd1a80a8a, 0x54ba7d8b) == 0x26628815 && Add(0xd6670766, 0xd1a80a8a) == 0xa80f11f0
    ensures Add(0xd82ef872, 0x9a7c531f) == 0x72ab4b91 && Add(0xdf46652f, 0xd82ef872) == 0xb7755da1
    ensures Add(0xbdd186ab, 0xe37a8e05) == 0xa14c14b0 && Add(0x17aa0dfe, 0xbdd186ab) == 0xd57b94a9
    ensures Add(0x61835c33, 0xdfeed65a) == 0x4172328d && Add(0x9d4baf93, 0x61835c33) == 0xfecf0bc6
  {
  }

  lemma Rounds32(b: seq<Byte>, v: Vars)
    requires |b| == 64 && WordsFrom32(b)
    requires Rounds(b, v, 32) == Vars(0x73b33bf5, 0xea992a22, 0xa0060b30, 0x363482c9, 0xba591112, 0x0109ab3a, 0xade79437, 0x6112a3b7)
    ensures Rounds(b, v, 48) == Vars(0x4172328d, 0xa14c14b0, 0x72ab4b91, 0x26628815, 0xfecf0bc6, 0xd57b94a9, 0xb7755da1, 0xa80f11f0)
  {
    hide W, T1, T2, Add, RoundConstant, Rounds;
    FirstTerms32();
    SecondTerms32();
    Sums32();
    Constants32();
    NextRound(b, v, 32);
    NextRound(b, v, 33);
    NextRound(b, v, 34);
    NextRound(b, v, 35);
    NextRound(b, v, 36);
    NextRound(b, v, 37);
    NextRound(b, v, 38);
    NextRound(b, v, 39);
    NextRound(b, v, 40);
    NextRound(b, v, 41);
    NextRound(b, v, 42);
    NextRound(b, v, 43);
    NextRound(b, v, 44);
    NextRound(b, v, 45);
    NextRound(b, v, 46);
    NextRound(b, v, 47);
  }

  lemma FirstTerms48()
    ensures T1(Vars(0x4172328d, 0xa14c14b0, 0x72ab4b91, 0x26628815, 0xfecf0bc6, 0xd57b94a9, 0xb7755da1, 0xa80f11f0),
               0x19a4c116, 0xfb3e89cb) == 0x970eb823
    ensures T1(Vars(0x05757ceb, 0x4172328d, 0xa14c14b0, 0x72ab4b91, 0xbd714038, 0xfecf0bc6, 0xd57b94a9, 0xb7755da1),
               0x1e376c08, 0xcc7617db) == 0xfbb0ed7b
    ensures T1(Vars(0xf11bfaa8, 0x05757ceb, 0x4172328d, 0xa14c14b0, 0x6e5c390c, 0xbd714038, 0xfecf0bc6, 0xd57b94a9),
               0x2748774c, 0xb9e66c34) == 0xb1a5b847
    ensures T1(Vars(0x7a0508a1, 0xf11bfaa8, 0x05757ceb, 0x4172328d, 0x52f1ccf7, 0x6e5c390c, 0xbd714038, 0xfecf0bc6),
               0x34b0bcb5, 0xa9993667) == 0x07b0e991
    ensures T1(Vars(0x886e7a22, 0x7a0508a1, 0xf11bfaa8, 0x05757ceb, 0x49231c1e, 0x52f1ccf7, 0x6e5c390c, 0xbd714038),
               0x391c0cb3, 0x84badedd) == 0x4d290015
    ensures T1(Vars(0x101fd28f, 0x886e7a22, 0x7a0508a1, 0xf11bfaa8, 0x529e7d00, 0x49231c1e, 0x52f1ccf7, 0x6e5c390c),
               0x4ed8aa4a, 0xc21462bc) == 0xae2b8d1b
    ensures T1(Vars(0xf5702fdb, 0x101fd28f, 0x886e7a22, 0x7a0508a1, 0x9f4787c3, 0x529e7d00, 0x49231c1e, 0x52f1ccf7),
               0x5b9cca4f, 0x1487472c) == 0x6b0912ae
    ensures T1(Vars(0x3ec45cdb, 0xf5702fdb, 0x101fd28f, 0x886e7a22, 0xe50e1b4f, 0x9f4787c3, 0x529e7d00, 0x49231c1e),
               0x682e6ff3, 0xb20f7a99) == 0xcc5cac49
    ensures T1(Vars(0x38cc9913, 0x3ec45cdb, 0xf5702fdb, 0x101fd28f, 0x54cb266b, 0xe50e1b4f, 0x9f4787c3, 0x529e7d00),
               0x748f82ee, 0xef57b9cd) == 0x8b3ebddd
    ensures T1(Vars(0xfcd1887b, 0x38cc9913, 0x3ec45cdb, 0xf5702fdb, 0x9b5e906c, 0x54cb266b, 0xe50e1b4f, 0x9f4787c3),
               0x78a5636f, 0xebe6b238) == 0x88d3d0b3
    ensures T1(Vars(0xc062d46f, 0xfcd1887b, 0x38cc9913, 0x3ec45cdb, 0x7e44008e, 0x9b5e906c, 0x54cb266b, 0xe50e1b4f),
               0x84c87814, 0x9fe3095e) == 0x2ebf62eb
    ensures T1(Vars(0xffb70472, 0xc062d46f, 0xfcd1887b, 0x38cc9913, 0x6d83bfc6, 0x7e44008e, 0x9b5e906c, 0x54cb266b),
               0x8cc70208, 0x78bc8d4b) == 0x794f142a
    ensures T1(Vars(0xb6ae8fff, 0xffb70472, 0xc062d46f, 0xfcd1887b, 0xb21bad3d, 0x6d83bfc6, 0x7e44008e, 0x9b5e906c),
               0x90befffa, 0xa43fcf15) == 0x994dc019
    ensures T1(Vars(0xb85e2ce9, 0xb6ae8fff, 0xffb70472, 0xc062d46f, 0x961f4894, 0xb21bad3d, 0x6d83bfc6, 0x7e44008e),
               0xa4506ceb, 0x668b2ff8) == 0xd42a5147
    ensures T1(Vars(0x04d24d6c, 0xb85e2ce9, 0xb6ae8fff, 0xffb70472, 0x948d25b6, 0x961f4894, 0xb21bad3d, 0x6d83bfc6),
               0xbef9a3f7, 0xeeaba2cc) == 0xfb5b0d9e
    ensures T1(Vars(0xd39a2165, 0x04d24d6c, 0xb85e2ce9, 0xb6ae8fff, 0xfb121210, 0x948d25b6, 0x961f4894, 0xb21bad3d),
               0xc67178f2, 0x12b1edeb) == 0xa8467f25
  {
  }

  lemma SecondTerms48()
    ensures T2(Vars(0x4172328d, 0xa14c14b0, 0x72ab4b91, 0x26628815, 0xfecf0bc6, 0xd57b94a9, 0xb7755da1, 0xa80f11f0)) == 0x6e66c4c8
    ensures T2(Vars(0x05757ceb, 0x4172328d, 0xa14c14b0, 0x72ab4b91, 0xbd714038, 0xfecf0bc6, 0xd57b94a9, 0xb7755da1)) == 0xf56b0d2d
    ensures T2(Vars(0xf11bfaa8, 0x05757ceb, 0x4172328d, 0xa14c14b0, 0x6e5c390c, 0xbd714038, 0xfecf0bc6, 0xd57b94a9)) == 0xc85f505a
    ensures T2(Vars(0x7a0508a1, 0xf11bfaa8, 0x05757ceb, 0x4172328d, 0x52f1ccf7, 0x6e5c390c, 0xbd714038, 0xfecf0bc6)) == 0x80bd9091
    ensures T2(Vars(0x886e7a22, 0x7a0508a1, 0xf11bfaa8, 0x05757ceb, 0x49231c1e, 0x52f1ccf7, 0x6e5c390c, 0xbd714038)) == 0xc2f6d27a
    ensures T2(Vars(0x101fd28f, 0x886e7a22, 0x7a0508a1, 0xf11bfaa8, 0x529e7d00, 0x49231c1e, 0x52f1ccf7, 0x6e5c390c)) == 0x4744a2c0
    ensures T2(Vars(0xf5702fdb, 0x101fd28f, 0x886e7a22, 0x7a0508a1, 0x9f4787c3, 0x529e7d00, 0x49231c1e, 0x52f1ccf7)) == 0xd3bb4a2d
    ensures T2(Vars(0x3ec45cdb, 0xf5702fdb, 0x101fd28f, 0x886e7a22, 0xe50e1b4f, 0x9f4787c3, 0x529e7d00, 0x49231c1e)) == 0x6c6fecca
    ensures T2(Vars(0x38cc9913, 0x3ec45cdb, 0xf5702fdb, 0x101fd28f, 0x54cb266b, 0xe50e1b4f, 0x9f4787c3, 0x529e7d00)) == 0x7192ca9e
    ensures T2(Vars(0xfcd1887b, 0x38cc9913, 0x3ec45cdb, 0xf5702fdb, 0x9b5e906c, 0x54cb266b, 0xe50e1b4f, 0x9f4787c3)) == 0x378f03bc
    ensures T2(Vars(0xc062d46f, 0xfcd1887b, 0x38cc9913, 0x3ec45cdb, 0x7e44008e, 0x9b5e906c, 0x54cb266b, 0xe50e1b4f)) == 0xd0f7a187
    ensures T2(Vars(0xffb70472, 0xc062d46f, 0xfcd1887b, 0x38cc9913, 0x6d83bfc6, 0x7e44008e, 0x9b5e906c, 0x54cb266b)) == 0x3d5f7bd5
    ensures T2(Vars(0xb6ae8fff, 0xffb70472, 0xc062d46f, 0xfcd1887b, 0xb21bad3d, 0x6d83bfc6, 0x7e44008e, 0x9b5e906c)) == 0x1f106cd0
    ensures T2(Vars(0xb85e2ce9, 0xb6ae8fff, 0xffb70472, 0xc062d46f, 0x961f4894, 0xb21bad3d, 0x6d83bfc6, 0x7e44008e)) == 0x30a7fc25
    ensures T2(Vars(0x04d24d6c, 0xb85e2ce9, 0xb6ae8fff, 0xffb70472, 0x948d25b6, 0x961f4894, 0xb21bad3d, 0x6d83bfc6)) == 0xd83f13c7
    ensures T2(Vars(0xd39a2165, 0x04d24d6c, 0xb85e2ce9, 0xb6ae8fff, 0xfb121210, 0x948d25b6, 0x961f4894, 0xb21bad3d)) == 0xa827b133
  {
  }

  lemma Sums48()
    ensures Add(0x970eb823, 0x6e66c4c8) == 0x05757ceb && Add(0x26628815, 0x970eb823) == 0xbd714038
    ensures Add(0xfbb0ed7b, 0xf56b0d2d) == 0xf11bfaa8 && Add(0x72ab4b91, 0xfbb0ed7b) == 0x6e5c390c
    ensures Add(0xb1a5b847, 0xc85f505a) == 0x7a0508a1 && Add(0xa14c14b0, 0xb1a5b847) == 0x52f1ccf7
    ensures Add(0x07b0e991, 0x80bd9091) == 0x886e7a22 && Add(0x4172328d, 0x07b0e991) == 0x49231c1e
    ensures Add(0x4d290015, 0xc2f6d27a) == 0x101fd28f && Add(0x05757ceb, 0x4d290015) == 0x529e7d00
    ensures Add(0xae2b8d1b, 0x4744a2c0) == 0xf5702fdb && Add(0xf11bfaa8, 0xae2b8d1b) == 0x9f4787c3
    ensures Add(0x6b0912ae, 0xd3bb4a2d) == 0x3ec45cdb && Add(0x7a0508a1, 0x6b0912ae) == 0xe50e1b4f
    ensures Add(0xcc5cac49, 0x6c6fecca) == 0x38cc9913 && Add(0x886e7a22, 0xcc5cac49) == 0x54cb266b
    ensures Add(0x8b3ebddd, 0x7192ca9e) == 0xfcd1887b && Add(0x101fd28f, 0x8b3ebddd) == 0x9b5e906c
    ensures Add(0x88d3d0b3, 0x378f03bc) == 0xc062d46f && Add(0xf5702fdb, 0x88d3d0b3) == 0x7e44008e
    ensures Add(0x2ebf62eb, 0xd0f7a187) == 0xffb70472 && Add(0x3ec45cdb, 0x2ebf62eb) == 0x6d83bfc6
    ensures Add(0x794f142a, 0x3d5f7bd5) == 0xb6ae8fff && Add(0x38cc9913, 0x794f142a) == 0xb21bad3d
    ensures Add(0x994dc019, 0x1f106cd0) == 0xb85e2ce9 && Add(0xfcd1887b, 0x994dc019) == 0x961f4894
    ensures Add(0xd42a5147, 0x30a7fc25) == 0x04d24d6c && Add(0xc062d46f, 0xd42a5147) == 0x948d25b6
    ensures Add(0xfb5b0d9e, 0xd83f13c7) == 0xd39a2165 && Add(0xffb70472, 0xfb5b0d9e) == 0xfb121210
    ensures Add(0xa8467f25, 0xa827b133) == 0x506e3058 && Add(0xb6ae8fff, 0xa8467f25) == 0x5ef50f24
  {
  }

  lemma Rounds48(b: seq<Byte>, v: Vars)
    requires |b| == 64 && WordsFrom48(b)
    requires Rounds(b, v, 48) == Vars(0x4172328d, 0xa14c14b0, 0x72ab4b91, 0x26628815, 0xfecf0bc6, 0xd57b94a9, 0xb7755da1, 0xa80f11f0)
    ensures Rounds(b, v, 64) == Vars(0x506e3058, 0xd39a2165, 0x04d24d6c, 0xb85e2ce9, 0x5ef50f24, 0xfb121210, 0x948d25b6, 0x961f4894)
  {
    hide W, T1, T2, Add, RoundConstant, Rounds;
    FirstTerms48();
    SecondTerms48();
    Sums48();
    Constants48();
    NextRound(b, v, 48);
    NextRound(b, v, 49);
    NextRound(b, v, 50);
    NextRound(b, v, 51);
    NextRound(b, v, 52);
    NextRound(b, v, 53);
    NextRound(b, v, 54);
    NextRound(b, v, 55);
    NextRound(b, v, 56);
    NextRound(b, v, 57);
    NextRound(b, v, 58);
    NextRound(b, v, 59);
    NextRound(b, v, 60);
    NextRound(b, v, 61);
    NextRound(b, v, 62);
    NextRound(b, v, 63);
  }

  lemma NextRound(b: seq<Byte>, v: Vars, t: nat)
    requires |b| == 64 && t < 64
    ensures var u := Rounds(b, v, t);
            var t1 := T1(u, RoundConstant(t), W(b, t));
            Rounds(b, v, t + 1) == Vars(Add(t1, T2(u)), u.a, u.b, u.c, Add(u.d, t1), u.e, u.f, u.g)
  {
    hide T1, T2, Add, RoundConstant, W;
  }

  // ----- The digest -----

  const LAST := Vars(0x506e3058, 0xd39a2165, 0x04d24d6c, 0xb85e2ce9, 0x5ef50f24, 0xfb121210, 0x948d25b6, 0x961f4894)

  lemma LastSums()
    ensures Add(0x6a09e667, 0x506e3058) == 0xba7816bf
    ensures Add(0xbb67ae85, 0xd39a2165) == 0x8f01cfea
    ensures Add(0x3c6ef372, 0x04d24d6c) == 0x414140de
    ensures Add(0xa54ff53a, 0xb85e2ce9) == 0x5dae2223
    ensures Add(0x510e527f, 0x5ef50f24) == 0xb00361a3
    ensures Add(0x9b05688c, 0xfb121210) == 0x96177a9c
    ensures Add(0x1f83d9ab, 0x948d25b6) == 0xb410ff61
    ensures Add(0x5be0cd19, 0x961f4894) == 0xf20015ad
  {
  }

  lemma DigestOctets()
    ensures WordBytes(0xba7816bf) == [0xba, 0x78, 0x16, 0xbf]
    ensures WordBytes(0x8f01cfea) == [0x8f, 0x01, 0xcf, 0xea]
    ensures WordBytes(0x414140de) == [0x41, 0x41, 0x40, 0xde]
    ensures WordBytes(0x5dae2223) == [0x5d, 0xae, 0x22, 0x23]
    ensures WordBytes(0xb00361a3) == [0xb0, 0x03, 0x61, 0xa3]
    ensures WordBytes(0x96177a9c) == [0x96, 0x17, 0x7a, 0x9c]
    ensures WordBytes(0xb410ff61) == [0xb4, 0x10, 0xff, 0x61]
    ensures WordBytes(0xf20015ad) == [0xf2, 0x00, 0x15, 0xad]
  {
  }

  lemma DigestOf(h: seq<bv32>)
    requires |h| == 8
    ensures Digest(h) == [] + WordBytes(h[0]) + WordBytes(h[1]) + WordBytes(h[2]) + WordBytes(h[3])
                         + WordBytes(h[4]) + WordBytes(h[5]) + WordBytes(h[6]) + WordBytes(h[7])
  {
    assert h[..0] == [] && h[..8] == h;
    assert Digest(h[..0]) == [];
    hide WordBytes, Digest;
    DigestFour(h, 0);
    DigestFour(h, 4);
  }

  lemma DigestFour(h: seq<bv32>, i: nat)
    requires i + 4 <= |h|
    ensures Digest(h[..i + 4])
         == Digest(h[..i]) + WordBytes(h[i]) + WordBytes(h[i + 1]) + WordBytes(h[i + 2]) + WordBytes(h[i + 3])
  {
    hide WordBytes, Digest;
    DigestNext(h, i);
    DigestNext(h, i + 1);
    DigestNext(h, i + 2);
    DigestNext(h, i + 3);
  }

  lemma DigestNext(h: seq<bv32>, i: nat)
    requires i < |h|
    ensures Digest(h[..i + 1]) == Digest(h[..i]) + WordBytes(h[i])
  {
    assert h[..i + 1][..i] == h[..i];
  }

  lemma AllRounds()
    ensures Rounds(ABC_BLOCK, VarsOf(H0), 64) == LAST
  {
    hide W, T1, T2, Add, RoundConstant, Expand, WordsFrom0, WordsFrom16, WordsFrom32, WordsFrom48;
    var v := VarsOf(H0);
    assert Rounds(ABC_BLOCK, v, 0) == v;
    hide Rounds;
    Words0();
    Words16(ABC_BLOCK);
    Words32(ABC_BLOCK);
    Words48(ABC_BLOCK);
    Rounds0(ABC_BLOCK, v);
    Rounds16(ABC_BLOCK, v);
    Rounds32(ABC_BLOCK, v);
    Rounds48(ABC_BLOCK, v);
  }

  lemma CompressedAbc()
    ensures Compress(H0, ABC_BLOCK) == [
      0xba7816bf, 0x8f01cfea, 0x414140de, 0x5dae2223,
      0xb00361a3, 0x96177a9c, 0xb410ff61, 0xf20015ad]
  {
    AllRounds();
    LastSums();
    hide Rounds, Add;
  }

  /** SHA-256("abc") is ba7816bf 8f01cfea 414140de 5dae2223 b00361a3 96177a9c b410ff61 f20015ad. */
  lemma HashOfAbc()
    ensures Hash(ABC) == ABC_DIGEST
  {
    PaddedAbc();
    CompressedAbc();
    DigestOctets();
    hide Compress, Pad, Digest, WordBytes;
    assert ABC_BLOCK[0..64] == ABC_BLOCK;
    assert Absorb(ABC_BLOCK, 1) == Compress(H0, ABC_BLOCK);
    DigestOf(Absorb(ABC_BLOCK, 1));
  }
}
