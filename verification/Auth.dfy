/** HMAC-SHA256, hexadecimal text and the accumulating comparison (auth.h). */
module Auth {
  import opened Bytes
  import opened Sha256
  import opened Sha256Stream

  /** Characters of a std::string. */
  type Char8 = c: char | c as int < 0x100 witness 'a'
  type Text = seq<Char8>

  // ----- Section 2 of RFC 2104 -----

  const BLOCK := 64
  const MESSAGE_LIMIT := 0x1000_0000_0000_0000

  /** The key, hashed first if it is longer than a block, followed by zeros up to a block. */
  function BlockKey(key: seq<Byte>): (k: seq<Byte>)
    requires |key| < MESSAGE_LIMIT
    ensures |k| == BLOCK
  {
    var short := if |key| > BLOCK then Hash(key) else key;
    short + Zeros(BLOCK - |short|)
  }

  function Mask(k: seq<Byte>, m: Byte): (r: seq<Byte>)
    ensures |r| == |k|
  {
    seq(|k|, i requires 0 <= i < |k| => Xor(k[i], m))
  }

  function Hmac(key: seq<Byte>, message: seq<Byte>): (mac: seq<Byte>)
    requires |key| < MESSAGE_LIMIT && |message| < MESSAGE_LIMIT
    ensures |mac| == 32
  {
    Hash(Mask(BlockKey(key), 0x5c) + Hash(Mask(BlockKey(key), 0x36) + message))
  }

  /** Section 2 of RFC 2104, octet by octet: the key followed by zeros, with 0x36 added to every octet before the
      inner hash and 0x5c before the outer; a key longer than a block is replaced by its hash. */
  lemma HmacIs(key: seq<Byte>, message: seq<Byte>) returns (inner: seq<Byte>, outer: seq<Byte>)
    requires |key| < MESSAGE_LIMIT && |message| < MESSAGE_LIMIT
    ensures var short := if |key| > 64 then Hash(key) else key;
            && |inner| == 64 == |outer| && |short| <= 64
            && forall i :: 0 <= i < 64 ==> inner[i] == Xor(if i < |short| then short[i] else 0, 0x36)
                                           && outer[i] == Xor(if i < |short| then short[i] else 0, 0x5c)
    ensures |Hash(inner + message)| == 32 && Hmac(key, message) == Hash(outer + Hash(inner + message))
  {
    hide Hash, Xor;
    inner, outer := Mask(BlockKey(key), 0x36), Mask(BlockKey(key), 0x5c);
  }

  /** Two updates of one fresh context. */
  method HashOfTwo(first: seq<Byte>, second: seq<Byte>) returns (out: seq<Byte>)
    requires |first| + |second| < 0x2000_0000_0000_0000
    ensures out == Hash(first + second)
  {
    hide Absorb, Hash;
    var ctx := new Sha256Ctx();
    ctx.Update(first, []);
    assert [] + first == first;
    ctx.Update(second, first);
    out := ctx.Final(first + second);
  }

  method PadKey(key: seq<Byte>) returns (kpad: seq<Byte>)
    requires |key| < MESSAGE_LIMIT
    ensures kpad == BlockKey(key)
  {
    hide Hash, Zeros;
    if |key| > BLOCK {
      var digest := HashOfTwo(key, []);
      assert key + [] == key;
      kpad := digest + Zeros(BLOCK - |digest|);
    } else {
      kpad := key + Zeros(BLOCK - |key|);
    }
  }

  method HmacSha256(key: seq<Byte>, message: seq<Byte>) returns (mac: seq<Byte>)
    requires |key| < MESSAGE_LIMIT && |message| < MESSAGE_LIMIT
    ensures mac == Hmac(key, message)
  {
    hide Hash, BlockKey, Xor;
    var kpad := PadKey(key);
    var opad, ipad := new Byte[BLOCK], new Byte[BLOCK];
    for i := 0 to BLOCK
      invariant opad[..i] == Mask(kpad, 0x5c)[..i] && ipad[..i] == Mask(kpad, 0x36)[..i]
    {
      opad[i], ipad[i] := Xor(kpad[i], 0x5c), Xor(kpad[i], 0x36);
    }
    assert opad[..] == Mask(kpad, 0x5c) && ipad[..] == Mask(kpad, 0x36);
    var inner := HashOfTwo(ipad[..], message);
    mac := HashOfTwo(opad[..], inner);
  }

  // ----- Hexadecimal -----

  function HexDigit(n: nat): Char8
    requires n < 16
  {
    if n < 10 then '0' + n as char else 'a' + (n - 10) as char
  }

  function DigitValue(c: Char8): (v: int)
    ensures -1 <= v < 16
  {
    if '0' <= c <= '9' then c as int - '0' as int
    else if 'a' <= c <= 'f' then c as int - 'a' as int + 10
    else if 'A' <= c <= 'F' then c as int - 'A' as int + 10
    else -1
  }

  function Hex(b: seq<Byte>): (s: Text)
    ensures |s| == 2 * |b|
  {
    if b == [] then [] else Hex(b[..|b| - 1]) + [HexDigit(b[|b| - 1] / 16), HexDigit(b[|b| - 1] % 16)]
  }

  predicate IsHex(s: Text)
  {
    |s| % 2 == 0 && forall i :: 0 <= i < |s| ==> DigitValue(s[i]) >= 0
  }

  /** The octets a hexadecimal text of even length stands for. */
  function HexValue(s: Text): (b: seq<Byte>)
    requires IsHex(s)
    ensures 2 * |b| == |s|
  {
    if s == [] then []
    else HexValue(s[..|s| - 2]) + [16 * DigitValue(s[|s| - 2]) + DigitValue(s[|s| - 1])]
  }

  /** Anything that is not hexadecimal decodes to nothing. */
  function Unhex(s: Text): seq<Byte>
  {
    if IsHex(s) then HexValue(s) else []
  }

  method ToHex(b: seq<Byte>) returns (s: Text)
    ensures s == Hex(b)
  {
    s := [];
    for i := 0 to |b|
      invariant s == Hex(b[..i])
    {
      assert b[..i + 1][..i] == b[..i];
      s := s + [HexDigit(b[i] / 16)];
      s := s + [HexDigit(b[i] % 16)];
    }
    assert b[..|b|] == b;
  }

  method FromHex(s: Text) returns (out: seq<Byte>)
    ensures out == Unhex(s)
  {
    out := [];
    if |s| % 2 != 0 { return; }
    var i := 0;
    while i < |s|
      invariant i <= |s| && i % 2 == 0 && IsHex(s[..i]) && out == HexValue(s[..i])
    {
      var hi, lo := DigitValue(s[i]), DigitValue(s[i + 1]);
      if hi < 0 || lo < 0 { return []; }
      assert s[..i + 2][..i] == s[..i];
      out := out + [16 * hi + lo];
      i := i + 2;
    }
    assert s[..|s|] == s;
  }

  /** Decoding what was encoded gives the octets back. */
  lemma {:induction false} UnhexHex(b: seq<Byte>)
    ensures IsHex(Hex(b)) && Unhex(Hex(b)) == b
  {
    if b != [] {
      var front, last := b[..|b| - 1], b[|b| - 1];
      UnhexHex(front);
      var s := Hex(b);
      assert s[..|s| - 2] == Hex(front);
      assert DigitValue(HexDigit(last / 16)) == last / 16 && DigitValue(HexDigit(last % 16)) == last % 16;
    }
  }

  /** The digits, and the capital ones that are read as well. */
  lemma Digits(n: nat)
    requires n < 16
    ensures HexDigit(n) == "0123456789abcdef"[n]
    ensures DigitValue("0123456789abcdef"[n]) == n == DigitValue("0123456789ABCDEF"[n])
  {
  }

  predicate LowerHex(c: Char8) { '0' <= c <= '9' || 'a' <= c <= 'f' }

  lemma LowerDigit(c: Char8)
    requires LowerHex(c)
    ensures DigitValue(c) >= 0 && HexDigit(DigitValue(c)) == c
  {
  }

  lemma Nibbles(hi: nat, lo: nat)
    requires hi < 16 && lo < 16
    ensures (16 * hi + lo) / 16 == hi && (16 * hi + lo) % 16 == lo
  {
  }

  /** And the other way round for lower-case text. */
  lemma {:induction false} HexUnhex(s: Text)
    requires |s| % 2 == 0 && forall i :: 0 <= i < |s| ==> LowerHex(s[i])
    ensures IsHex(s) && Hex(Unhex(s)) == s
  {
    if s != [] {
      var front := s[..|s| - 2];
      HexUnhex(front);
      LowerDigit(s[|s| - 2]);
      LowerDigit(s[|s| - 1]);
      hide DigitValue, HexDigit, LowerHex;
      Nibbles(DigitValue(s[|s| - 2]), DigitValue(s[|s| - 1]));
      var b := Unhex(s);
      assert b[..|b| - 1] == Unhex(front);
    }
  }

  // ----- Comparison -----

  /** The differences are only accumulated, yet the answer is equality. */
  method ConstTimeEqual(a: Text, b: Text) returns (equal: bool)
    ensures equal <==> a == b
  {
    if |a| != |b| { return false; }
    var diff: Byte := 0;
    hide Xor, Or;
    for i := 0 to |a|
      invariant diff == 0 <==> a[..i] == b[..i]
    {
      var x: Byte, y: Byte := a[i] as int, b[i] as int;
      XorZero(x, y);
      OrZero(diff, Xor(x, y));
      assert a[..i + 1] == b[..i + 1] <==> a[..i] == b[..i] && a[i] == b[i];
      diff := Or(diff, Xor(x, y));
    }
    assert a[..|a|] == a && b[..|b|] == b;
    equal := diff == 0;
  }
}
