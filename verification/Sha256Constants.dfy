/** Where the constants of SHA-256 come from (sections 4.2.2 and 5.3.3 of FIPS 180-4): the first 32 bits of the
    fractional parts of the cube roots of the first 64 primes, and of the square roots of the first eight. */
module Sha256Constants {
  import opened Sha256

  // ----- The first primes -----

  const P0: seq<nat> := [2, 3, 5, 7, 11, 13, 17, 19, 23, 29, 31, 37, 41, 43, 47, 53]
  const P16: seq<nat> := [59, 61, 67, 71, 73, 79, 83, 89, 97, 101, 103, 107, 109, 113, 127, 131]
  const P32: seq<nat> := [137, 139, 149, 151, 157, 163, 167, 173, 179, 181, 191, 193, 197, 199, 211, 223]
  const P48: seq<nat> := [227, 229, 233, 239, 241, 251, 257, 263, 269, 271, 277, 281, 283, 293, 307, 311]

  function NthPrime(t: nat): (p: nat)
    requires t < 64
    ensures 2 <= p <= 311
  {
    if t < 16 then P0[t] else if t < 32 then P16[t - 16] else if t < 48 then P32[t - 32] else P48[t - 48]
  }

  // ----- The roots -----

  const ONE: nat := 0x1_0000_0000

  /** x is the root scaled by 2^32 and rounded down. */
  predicate CubeRoot(x: nat, p: nat) { x * x * x <= p * ONE * ONE * ONE < (x + 1) * (x + 1) * (x + 1) }

  predicate SquareRoot(x: nat, p: nat) { x * x <= p * ONE * ONE < (x + 1) * (x + 1) }

  /** The whole part of the cube root. */
  function Whole(p: nat): nat
  {
    if p < 8 then 1 else if p < 27 then 2 else if p < 64 then 3 else if p < 125 then 4 else if p < 216 then 5 else 6
  }

  predicate HasFraction(k: bv32, p: nat) { CubeRoot(ONE * Whole(p) + k as nat, p) }

  lemma Constants0()
    ensures RoundConstant(0) == 0x428a2f98 && RoundConstant(1) == 0x71374491 && RoundConstant(2) == 0xb5c0fbcf && RoundConstant(3) == 0xe9b5dba5
    ensures RoundConstant(4) == 0x3956c25b && RoundConstant(5) == 0x59f111f1 && RoundConstant(6) == 0x923f82a4 && RoundConstant(7) == 0xab1c5ed5
    ensures RoundConstant(8) == 0xd807aa98 && RoundConstant(9) == 0x12835b01 && RoundConstant(10) == 0x243185be && RoundConstant(11) == 0x550c7dc3
    ensures RoundConstant(12) == 0x72be5d74 && RoundConstant(13) == 0x80deb1fe && RoundConstant(14) == 0x9bdc06a7 && RoundConstant(15) == 0xc19bf174
  {
  }

  lemma Constants16()
    ensures RoundConstant(16) == 0xe49b69c1 && RoundConstant(17) == 0xefbe4786 && RoundConstant(18) == 0x0fc19dc6 && RoundConstant(19) == 0x240ca1cc
    ensures RoundConstant(20) == 0x2de92c6f && RoundConstant(21) == 0x4a7484aa && RoundConstant(22) == 0x5cb0a9dc && RoundConstant(23) == 0x76f988da
    ensures RoundConstant(24) == 0x983e5152 && RoundConstant(25) == 0xa831c66d && RoundConstant(26) == 0xb00327c8 && RoundConstant(27) == 0xbf597fc7
    ensures RoundConstant(28) == 0xc6e00bf3 && RoundConstant(29) == 0xd5a79147 && RoundConstant(30) == 0x06ca6351 && RoundConstant(31) == 0x14292967
  {
  }

  lemma Constants32()
    ensures RoundConstant(32) == 0x27b70a85 && RoundConstant(33) == 0x2e1b2138 && RoundConstant(34) == 0x4d2c6dfc && RoundConstant(35) == 0x53380d13
    ensures RoundConstant(36) == 0x650a7354 && RoundConstant(37) == 0x766a0abb && RoundConstant(38) == 0x81c2c92e && RoundConstant(39) == 0x92722c85
    ensures RoundConstant(40) == 0xa2bfe8a1 && RoundConstant(41) == 0xa81a664b && RoundConstant(42) == 0xc24b8b70 && RoundConstant(43) == 0xc76c51a3
    ensures RoundConstant(44) == 0xd192e819 && RoundConstant(45) == 0xd6990624 && RoundConstant(46) == 0xf40e3585 && RoundConstant(47) == 0x106aa070
  {
  }

  lemma Constants48()
    ensures RoundConstant(48) == 0x19a4c116 && RoundConstant(49) == 0x1e376c08 && RoundConstant(50) == 0x2748774c && RoundConstant(51) == 0x34b0bcb5
    ensures RoundConstant(52) == 0x391c0cb3 && RoundConstant(53) == 0x4ed8aa4a && RoundConstant(54) == 0x5b9cca4f && RoundConstant(55) == 0x682e6ff3
    ensures RoundConstant(56) == 0x748f82ee && RoundConstant(57) == 0x78a5636f && RoundConstant(58) == 0x84c87814 && RoundConstant(59) == 0x8cc70208
    ensures RoundConstant(60) == 0x90befffa && RoundConstant(61) == 0xa4506ceb && RoundConstant(62) == 0xbef9a3f7 && RoundConstant(63) == 0xc67178f2
  {
  }

  lemma CubeRoots0()
    ensures HasFraction(0x428a2f98, 2) && HasFraction(0x71374491, 3)
    ensures HasFraction(0xb5c0fbcf, 5) && HasFraction(0xe9b5dba5, 7)
    ensures HasFraction(0x3956c25b, 11) && HasFraction(0x59f111f1, 13)
    ensures HasFraction(0x923f82a4, 17) && HasFraction(0xab1c5ed5, 19)
    ensures HasFraction(0xd807aa98, 23) && HasFraction(0x12835b01, 29)
    ensures HasFraction(0x243185be, 31) && HasFraction(0x550c7dc3, 37)
    ensures HasFraction(0x72be5d74, 41) && HasFraction(0x80deb1fe, 43)
    ensures HasFraction(0x9bdc06a7, 47) && HasFraction(0xc19bf174, 53)
  {
  }

  lemma CubeRoots16()
    ensures HasFraction(0xe49b69c1, 59) && HasFraction(0xefbe4786, 61)
    ensures HasFraction(0x0fc19dc6, 67) && HasFraction(0x240ca1cc, 71)
    ensures HasFraction(0x2de92c6f, 73) && HasFraction(0x4a7484aa, 79)
    ensures HasFraction(0x5cb0a9dc, 83) && HasFraction(0x76f988da, 89)
    ensures HasFraction(0x983e5152, 97) && HasFraction(0xa831c66d, 101)
    ensures HasFraction(0xb00327c8, 103) && HasFraction(0xbf597fc7, 107)
    ensures HasFraction(0xc6e00bf3, 109) && HasFraction(0xd5a79147, 113)
    ensures HasFraction(0x06ca6351, 127) && HasFraction(0x14292967, 131)
  {
  }

  lemma CubeRoots32()
    ensures HasFraction(0x27b70a85, 137) && HasFraction(0x2e1b2138, 139)
    ensures HasFraction(0x4d2c6dfc, 149) && HasFraction(0x53380d13, 151)
    ensures HasFraction(0x650a7354, 157) && HasFraction(0x766a0abb, 163)
    ensures HasFraction(0x81c2c92e, 167) && HasFraction(0x92722c85, 173)
    ensures HasFraction(0xa2bfe8a1, 179) && HasFraction(0xa81a664b, 181)
    ensures HasFraction(0xc24b8b70, 191) && HasFraction(0xc76c51a3, 193)
    ensures HasFraction(0xd192e819, 197) && HasFraction(0xd6990624, 199)
    ensures HasFraction(0xf40e3585, 211) && HasFraction(0x106aa070, 223)
  {
  }

  lemma CubeRoots48()
    ensures HasFraction(0x19a4c116, 227) && HasFraction(0x1e376c08, 229)
    ensures HasFraction(0x2748774c, 233) && HasFraction(0x34b0bcb5, 239)
    ensures HasFraction(0x391c0cb3, 241) && HasFraction(0x4ed8aa4a, 251)
    ensures HasFraction(0x5b9cca4f, 257) && HasFraction(0x682e6ff3, 263)
    ensures HasFraction(0x748f82ee, 269) && HasFraction(0x78a5636f, 271)
    ensures HasFraction(0x84c87814, 277) && HasFraction(0x8cc70208, 281)
    ensures HasFraction(0x90befffa, 283) && HasFraction(0xa4506ceb, 293)
    ensures HasFraction(0xbef9a3f7, 307) && HasFraction(0xc67178f2, 311)
  {
  }

  lemma Roots0(t: nat)
    requires 0 <= t < 16
    ensures HasFraction(RoundConstant(t), NthPrime(t))
  {
    Constants0();
    CubeRoots0();
    hide HasFraction, RoundConstant;
    assert t == 0 || t == 1 || t == 2 || t == 3 || t == 4 || t == 5 || t == 6 || t == 7
        || t == 8 || t == 9 || t == 10 || t == 11 || t == 12 || t == 13 || t == 14 || t == 15;
  }

  lemma Roots16(t: nat)
    requires 16 <= t < 32
    ensures HasFraction(RoundConstant(t), NthPrime(t))
  {
    Constants16();
    CubeRoots16();
    hide HasFraction, RoundConstant;
    assert t == 16 || t == 17 || t == 18 || t == 19 || t == 20 || t == 21 || t == 22 || t == 23
        || t == 24 || t == 25 || t == 26 || t == 27 || t == 28 || t == 29 || t == 30 || t == 31;
  }

  lemma Roots32(t: nat)
    requires 32 <= t < 48
    ensures HasFraction(RoundConstant(t), NthPrime(t))
  {
    Constants32();
    CubeRoots32();
    hide HasFraction, RoundConstant;
    assert t == 32 || t == 33 || t == 34 || t == 35 || t == 36 || t == 37 || t == 38 || t == 39
        || t == 40 || t == 41 || t == 42 || t == 43 || t == 44 || t == 45 || t == 46 || t == 47;
  }

  lemma Roots48(t: nat)
    requires 48 <= t < 64
    ensures HasFraction(RoundConstant(t), NthPrime(t))
  {
    Constants48();
    CubeRoots48();
    hide HasFraction, RoundConstant;
    assert t == 48 || t == 49 || t == 50 || t == 51 || t == 52 || t == 53 || t == 54 || t == 55
        || t == 56 || t == 57 || t == 58 || t == 59 || t == 60 || t == 61 || t == 62 || t == 63;
  }

  /** Round constant t is the low half of the cube root of prime t, scaled by 2^32. */
  lemma RoundConstantIsRoot(t: nat) returns (x: nat)
    requires t < 64
    ensures CubeRoot(x, NthPrime(t)) && x % ONE == RoundConstant(t) as nat
  {
    hide HasFraction, CubeRoot, RoundConstant, NthPrime;
    if t < 16 { Roots0(t); } else if t < 32 { Roots16(t); } else if t < 48 { Roots32(t); } else { Roots48(t); }
    x := LowHalf(RoundConstant(t), NthPrime(t));
  }

  lemma LowHalf(k: bv32, p: nat) returns (x: nat)
    requires HasFraction(k, p)
    ensures CubeRoot(x, p) && x % ONE == k as nat
  {
    x := ONE * Whole(p) + k as nat;
    LowPart(Whole(p), k as nat);
    hide CubeRoot, Whole;
  }

  lemma LowPart(w: nat, k: nat)
    requires k < ONE
    ensures (ONE * w + k) % ONE == k
  {
  }

  lemma SquareRoots()
    ensures H0[0] == 0x6a09e667 && SquareRoot(0x16a09e667, 2) && 0x16a09e667 % ONE == 0x6a09e667
    ensures H0[1] == 0xbb67ae85 && SquareRoot(0x1bb67ae85, 3) && 0x1bb67ae85 % ONE == 0xbb67ae85
    ensures H0[2] == 0x3c6ef372 && SquareRoot(0x23c6ef372, 5) && 0x23c6ef372 % ONE == 0x3c6ef372
    ensures H0[3] == 0xa54ff53a && SquareRoot(0x2a54ff53a, 7) && 0x2a54ff53a % ONE == 0xa54ff53a
    ensures H0[4] == 0x510e527f && SquareRoot(0x3510e527f, 11) && 0x3510e527f % ONE == 0x510e527f
    ensures H0[5] == 0x9b05688c && SquareRoot(0x39b05688c, 13) && 0x39b05688c % ONE == 0x9b05688c
    ensures H0[6] == 0x1f83d9ab && SquareRoot(0x41f83d9ab, 17) && 0x41f83d9ab % ONE == 0x1f83d9ab
    ensures H0[7] == 0x5be0cd19 && SquareRoot(0x45be0cd19, 19) && 0x45be0cd19 % ONE == 0x5be0cd19
  {
  }

  /** Word t of the initial hash value is the low half of the square root of prime t, scaled by 2^32. */
  lemma InitialIsRoot(t: nat) returns (x: nat)
    requires t < 8
    ensures SquareRoot(x, NthPrime(t)) && x % ONE == H0[t] as nat
  {
    SquareRoots();
    hide SquareRoot;
    x := ONE * (if NthPrime(t) < 4 then 1 else if NthPrime(t) < 9 then 2 else if NthPrime(t) < 16 then 3 else 4) + H0[t] as nat;
    assert t == 0 || t == 1 || t == 2 || t == 3 || t == 4 || t == 5 || t == 6 || t == 7;
  }
}
