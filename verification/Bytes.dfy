/** Octets, fixed-width words and the byte-order conversions the sources use. */
module Bytes {

  type Byte = x: int | 0 <= x < 0x100
  type Word16 = x: int | 0 <= x < 0x1_0000
  type Word32 = x: int | 0 <= x < 0x1_0000_0000

  datatype Option<+T> = None | Some(value: T)

  // ----- Receiving -----

  /** What recvfrom does with a datagram that is longer than the buffer. */
  datatype Platform = Posix | Windows

  /** The octets that come into a buffer of `size` octets: an oversized datagram is cut off, or the call
      fails and nothing is received. */
  function Received(os: Platform, d: seq<Byte>, size: nat): (r: seq<Byte>)
    ensures |r| <= size
  {
    if |d| <= size then d else if os.Posix? then d[..size] else []
  }

  function Pow2(n: nat): (p: nat)
    ensures p > 0
  {
    if n == 0 then 1 else 2 * Pow2(n - 1)
  }

  /** Exclusive or of the `width` low bits of two naturals. */
  function XorBits(a: nat, b: nat, width: nat): (r: nat)
    ensures r < Pow2(width)
  {
    if width == 0 then 0
    else 2 * XorBits(a / 2, b / 2, width - 1) + (if a % 2 == b % 2 then 0 else 1)
  }

  /** Inclusive or of the `width` low bits. */
  function OrBits(a: nat, b: nat, width: nat): (r: nat)
    ensures r < Pow2(width)
  {
    if width == 0 then 0
    else 2 * OrBits(a / 2, b / 2, width - 1) + (if a % 2 == 0 && b % 2 == 0 then 0 else 1)
  }

  /** Bit n of a number, the lowest being bit 0. */
  predicate Bit(a: nat, n: nat)
  {
    if n == 0 then a % 2 == 1 else Bit(a / 2, n - 1)
  }

  lemma {:induction false} XorBitsAt(a: nat, b: nat, width: nat, n: nat)
    requires n < width
    ensures Bit(XorBits(a, b, width), n) == (Bit(a, n) != Bit(b, n))
  {
    if n > 0 {
      XorBitsAt(a / 2, b / 2, width - 1, n - 1);
      assert XorBits(a, b, width) / 2 == XorBits(a / 2, b / 2, width - 1);
    }
  }

  function Or(a: Byte, b: Byte): Byte
  {
    assert Pow2(8) == 256;
    OrBits(a, b, 8)
  }

  function Xor(a: Byte, b: Byte): Byte
  {
    assert Pow2(8) == 256;
    XorBits(a, b, 8)
  }

  lemma {:induction false} XorBitsCancels(a: nat, b: nat, width: nat)
    requires a < Pow2(width)
    ensures XorBits(XorBits(a, b, width), b, width) == a
  {
    if width > 0 {
      var low := if a % 2 == b % 2 then 0 else 1;
      var high := XorBits(a / 2, b / 2, width - 1);
      assert XorBits(a, b, width) / 2 == high && XorBits(a, b, width) % 2 == low;
      XorBitsCancels(a / 2, b / 2, width - 1);
    }
  }

  lemma {:induction false} XorBitsZero(a: nat, b: nat, width: nat)
    requires a < Pow2(width) && b < Pow2(width)
    ensures XorBits(a, b, width) == 0 <==> a == b
  {
    if width > 0 {
      XorBitsZero(a / 2, b / 2, width - 1);
    }
  }

  /** Bit by bit, the sum without carry. */
  lemma XorAt(a: Byte, b: Byte, n: nat)
    requires n < 8
    ensures Bit(Xor(a, b), n) == (Bit(a, n) != Bit(b, n))
  {
    XorBitsAt(a, b, 8, n);
  }

  /** Applying the same mask twice restores the octet. */
  lemma XorCancels(a: Byte, b: Byte)
    ensures Xor(Xor(a, b), b) == a
  {
    assert Pow2(8) == 256;
    XorBitsCancels(a, b, 8);
  }

  /** The difference of two octets vanishes exactly when they are equal. */
  lemma XorZero(a: Byte, b: Byte)
    ensures Xor(a, b) == 0 <==> a == b
  {
    assert Pow2(8) == 256;
    XorBitsZero(a, b, 8);
  }

  lemma {:induction false} OrBitsZero(a: nat, b: nat, width: nat)
    requires a < Pow2(width) && b < Pow2(width)
    ensures OrBits(a, b, width) == 0 <==> a == 0 && b == 0
  {
    if width > 0 {
      OrBitsZero(a / 2, b / 2, width - 1);
    }
  }

  lemma OrZero(a: Byte, b: Byte)
    ensures Or(a, b) == 0 <==> a == 0 && b == 0
  {
    assert Pow2(8) == 256;
    OrBitsZero(a, b, 8);
  }

  /** lo and hi times 256. A recursion, so that a proof sees the product only where it asks for it. */
  function Joined(hi: nat, lo: nat): nat
  {
    if hi == 0 then lo else 0x100 + Joined(hi - 1, lo)
  }

  lemma {:induction false} JoinedValue(hi: nat, lo: nat)
    ensures Joined(hi, lo) == 0x100 * hi + lo
  {
    if hi > 0 { JoinedValue(hi - 1, lo); }
  }

  /** Network byte order. */
  function U16(hi: Byte, lo: Byte): Word16
  {
    JoinedValue(hi, lo);
    Joined(hi, lo)
  }

  lemma U16Value(hi: Byte, lo: Byte)
    ensures U16(hi, lo) == 0x100 * hi + lo
  {
    JoinedValue(hi, lo);
  }

  function Hi(n: Word16): Byte { n / 0x100 }

  function Lo(n: Word16): Byte { n % 0x100 }

  lemma U16HiLo(n: Word16)
    ensures U16(Hi(n), Lo(n)) == n
  {
    U16Value(Hi(n), Lo(n));
  }

  function U32(b: seq<Byte>): Word32
    requires |b| == 4
  {
    0x1_0000 * U16(b[0], b[1]) + U16(b[2], b[3])
  }

  /** Host order of the receiver (little-endian). */
  function LE32(b: seq<Byte>): Word32
    requires |b| == 4
  {
    0x1_0000 * U16(b[3], b[2]) + U16(b[1], b[0])
  }

  function ToLE32(n: Word32): (b: seq<Byte>)
    ensures |b| == 4 && LE32(b) == n
  {
    var (high, low) := (n / 0x1_0000, n % 0x1_0000);
    U16HiLo(high);
    U16HiLo(low);
    [Lo(low), Hi(low), Lo(high), Hi(high)]
  }

  function ToBE32(n: Word32): (b: seq<Byte>)
    ensures |b| == 4 && U32(b) == n
  {
    var (high, low) := (n / 0x1_0000, n % 0x1_0000);
    U16HiLo(high);
    U16HiLo(low);
    [Hi(high), Lo(high), Hi(low), Lo(low)]
  }
}
