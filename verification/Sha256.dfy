/** SHA-256 (auth.h): a streaming context against the one-shot definition of FIPS 180-4. */
module Sha256 {
  import opened Bytes

  // The round constants, from the one named on.
  const K0: seq<bv32> := [
    0x428a2f98, 0x71374491, 0xb5c0fbcf, 0xe9b5dba5, 0x3956c25b, 0x59f111f1, 0x923f82a4, 0xab1c5ed5,
    0xd807aa98, 0x12835b01, 0x243185be, 0x550c7dc3, 0x72be5d74, 0x80deb1fe, 0x9bdc06a7, 0xc19bf174]

  const K16: seq<bv32> := [
    0xe49b69c1, 0xefbe4786, 0x0fc19dc6, 0x240ca1cc, 0x2de92c6f, 0x4a7484aa, 0x5cb0a9dc, 0x76f988da,
    0x983e5152, 0xa831c66d, 0xb00327c8, 0xbf597fc7, 0xc6e00bf3, 0xd5a79147, 0x06ca6351, 0x14292967]

  const K32: seq<bv32> := [
    0x27b70a85, 0x2e1b2138, 0x4d2c6dfc, 0x53380d13, 0x650a7354, 0x766a0abb, 0x81c2c92e, 0x92722c85,
    0xa2bfe8a1, 0xa81a664b, 0xc24b8b70, 0xc76c51a3, 0xd192e819, 0xd6990624, 0xf40e3585, 0x106aa070]

  const K48: seq<bv32> := [
    0x19a4c116, 0x1e376c08, 0x2748774c, 0x34b0bcb5, 0x391c0cb3, 0x4ed8aa4a, 0x5b9cca4f, 0x682e6ff3,
    0x748f82ee, 0x78a5636f, 0x84c87814, 0x8cc70208, 0x90befffa, 0xa4506ceb, 0xbef9a3f7, 0xc67178f2]

  const H0: seq<bv32> := [
    0x6a09e667, 0xbb67ae85, 0x3c6ef372, 0xa54ff53a, 0x510e527f, 0x9b05688c, 0x1f83d9ab, 0x5be0cd19]

  // ----- Section 4.1.2 of FIPS 180-4 -----

  /** Addition modulo 2^32. */
  function Add(x: bv32, y: bv32): bv32 { x + y }

  function Rotr(x: bv32, n: nat): bv32
    requires 0 < n < 32
  {
    (x >> n) | (x << (32 - n))
  }

  function Ch(x: bv32, y: bv32, z: bv32): bv32 { (x & y) ^ (!x & z) }

  function Maj(x: bv32, y: bv32, z: bv32): bv32 { (x & y) ^ (x & z) ^ (y & z) }

  function BigSigma0(x: bv32): bv32 { Rotr(x, 2) ^ Rotr(x, 13) ^ Rotr(x, 22) }

  function BigSigma1(x: bv32): bv32 { Rotr(x, 6) ^ Rotr(x, 11) ^ Rotr(x, 25) }

  function SmallSigma0(x: bv32): bv32 { Rotr(x, 7) ^ Rotr(x, 18) ^ (x >> 3) }

  function SmallSigma1(x: bv32): bv32 { Rotr(x, 17) ^ Rotr(x, 19) ^ (x >> 10) }

  // ----- The compression function, section 6.2.2 -----

  function Word(b0: Byte, b1: Byte, b2: Byte, b3: Byte): bv32
  {
    ((b0 as bv32) << 24) | ((b1 as bv32) << 16) | ((b2 as bv32) << 8) | (b3 as bv32)
  }

  function Expand(w2: bv32, w7: bv32, w15: bv32, w16: bv32): bv32
  {
    SmallSigma1(w2) + w7 + SmallSigma0(w15) + w16
  }

  function W(block: seq<Byte>, t: nat): bv32
    requires |block| == 64
  {
    if t < 16 then Word(block[4 * t], block[4 * t + 1], block[4 * t + 2], block[4 * t + 3])
    else Expand(W(block, t - 2), W(block, t - 7), W(block, t - 15), W(block, t - 16))
  }

  lemma WordOfSchedule(block: seq<Byte>, t: nat)
    requires |block| == 64
    ensures t < 16 ==> W(block, t) == Word(block[4 * t], block[4 * t + 1], block[4 * t + 2], block[4 * t + 3])
    ensures t >= 16 ==> W(block, t) == Expand(W(block, t - 2), W(block, t - 7), W(block, t - 15), W(block, t - 16))
  {
    hide Word, Expand;
  }

  function RoundConstant(t: nat): bv32
    requires t < 64
  {
    if t < 16 then K0[t] else if t < 32 then K16[t - 16] else if t < 48 then K32[t - 32] else K48[t - 48]
  }

  datatype Vars = Vars(a: bv32, b: bv32, c: bv32, d: bv32, e: bv32, f: bv32, g: bv32, h: bv32)

  function T1(v: Vars, k: bv32, w: bv32): bv32
  {
    v.h + BigSigma1(v.e) + Ch(v.e, v.f, v.g) + k + w
  }

  function T2(v: Vars): bv32
  {
    BigSigma0(v.a) + Maj(v.a, v.b, v.c)
  }

  function Round(v: Vars, k: bv32, w: bv32): Vars
  {
    var t1 := T1(v, k, w);
    Vars(Add(t1, T2(v)), v.a, v.b, v.c, Add(v.d, t1), v.e, v.f, v.g)
  }

  function Rounds(block: seq<Byte>, v: Vars, t: nat): Vars
    requires |block| == 64 && t <= 64
  {
    if t == 0 then v else Round(Rounds(block, v, t - 1), RoundConstant(t - 1), W(block, t - 1))
  }

  function VarsOf(h: seq<bv32>): Vars
    requires |h| == 8
  {
    Vars(h[0], h[1], h[2], h[3], h[4], h[5], h[6], h[7])
  }

  function AddVars(h: seq<bv32>, v: Vars): (r: seq<bv32>)
    requires |h| == 8
    ensures |r| == 8
  {
    [Add(h[0], v.a), Add(h[1], v.b), Add(h[2], v.c), Add(h[3], v.d),
     Add(h[4], v.e), Add(h[5], v.f), Add(h[6], v.g), Add(h[7], v.h)]
  }

  function Compress(h: seq<bv32>, block: seq<Byte>): (r: seq<bv32>)
    requires |h| == 8 && |block| == 64
    ensures |r| == 8
  {
    var v := Rounds(block, VarsOf(h), 64);
    AddVars(h, v)
  }

  // ----- The hash of a message -----

  /** The hash value after the first n blocks. */
  function Absorb(msg: seq<Byte>, n: nat): (h: seq<bv32>)
    requires 64 * n <= |msg|
    ensures |h| == 8
  {
    if n == 0 then H0 else Compress(Absorb(msg, n - 1), msg[64 * (n - 1)..64 * n])
  }

  function BE64(n: nat): (b: seq<Byte>)
    requires n < 0x1_0000_0000_0000_0000
    ensures |b| == 8
  {
    ToBE32(n / 0x1_0000_0000) + ToBE32(n % 0x1_0000_0000)
  }

  /** How many zero octets follow the 0x80 octet. */
  function PadZeros(length: nat): nat { (119 - length % 64) % 64 }

  function Zeros(n: nat): (z: seq<Byte>)
    ensures |z| == n
  {
    seq(n, _ => 0)
  }

  /** Section 5.1.1: the message, one 1 bit, zeros, and the bit length in 64 bits. */
  function Pad(msg: seq<Byte>): seq<Byte>
    requires |msg| < 0x2000_0000_0000_0000
  {
    msg + [0x80] + Zeros(PadZeros(|msg|)) + BE64(8 * |msg|)
  }

  /** The number of zeros is the least that fills whole blocks. */
  lemma PadZerosLeast(length: nat, k: nat)
    ensures (length + 1 + PadZeros(length) + 8) % 64 == 0
    ensures k < PadZeros(length) ==> (length + 1 + k + 8) % 64 != 0
  {
    var q, r := length / 64, length % 64;
    assert length == 64 * q + r;
  }

  lemma PadFillsBlocks(msg: seq<Byte>)
    requires |msg| < 0x2000_0000_0000_0000
    ensures |Pad(msg)| % 64 == 0
  {
    PadZerosLeast(|msg|, 0);
  }

  /** The last eight octets are the number of bits, most significant octet first. */
  lemma LengthOctets(msg: seq<Byte>)
    requires |msg| < 0x2000_0000_0000_0000
    ensures var (p, n) := (Pad(msg), |Pad(msg)|);
            n >= 8 && 0x1_0000_0000 * U32(p[n - 8..n - 4]) + U32(p[n - 4..]) == 8 * |msg|
  {
    var (high, low) := (ToBE32(8 * |msg| / 0x1_0000_0000), ToBE32(8 * |msg| % 0x1_0000_0000));
    var (p, n) := (Pad(msg), |Pad(msg)|);
    assert p == msg + [0x80] + Zeros(PadZeros(|msg|)) + (high + low);
    assert p[n - 8..n - 4] == high && p[n - 4..] == low;
    hide U32, ToBE32;
  }

  function WordBytes(w: bv32): (b: seq<Byte>)
    ensures |b| == 4
  {
    [((w >> 24) & 0xFF) as int, ((w >> 16) & 0xFF) as int, ((w >> 8) & 0xFF) as int, (w & 0xFF) as int]
  }

  function Digest(h: seq<bv32>): (d: seq<Byte>)
    ensures |d| == 4 * |h|
  {
    if h == [] then [] else Digest(h[..|h| - 1]) + WordBytes(h[|h| - 1])
  }

  function Hash(msg: seq<Byte>): (d: seq<Byte>)
    requires |msg| < 0x2000_0000_0000_0000
    ensures |d| == 32
  {
    PadFillsBlocks(msg);
    Digest(Absorb(Pad(msg), |Pad(msg)| / 64))
  }

  /** Later blocks do not reach back. */
  lemma {:induction false} AbsorbPrefix(msg: seq<Byte>, more: seq<Byte>, n: nat)
    requires 64 * n <= |msg|
    ensures Absorb(msg + more, n) == Absorb(msg, n)
  {
    hide Compress;
    if n > 0 {
      AbsorbPrefix(msg, more, n - 1);
      assert (msg + more)[64 * (n - 1)..64 * n] == msg[64 * (n - 1)..64 * n];
    }
  }
}
