/** What stands on the wire: the octets of protected packets in terms of the packet, the key's functions, the
    SSRC and the packet index, with offsets and positions written out (section 3.1 of RFC 3711, RFC 9335). */
module SrtpWire {
  import opened Bytes
  import opened SrtpPacket
  import opened SrtpHeaderExt
  import opened SrtpCryptex
  import opened SrtpTransform
  import opened SrtpRoundTrip

  // ----- Where things are -----

  /** The first octet after the CSRC list. */
  function AfterCsrcs(pkt: Octets): nat
    requires pkt != []
  {
    12 + 4 * (pkt[0] % 16)
  }

  function Wide(hi: nat, lo: nat): nat { 256 * hi + lo }

  predicate XBit(pkt: Octets) requires pkt != [] { pkt[0] / 16 % 2 == 1 }

  /** The first octet after the header extension, if there is one. */
  function AfterHeaders(pkt: Octets): nat
    requires pkt != [] && (XBit(pkt) ==> AfterCsrcs(pkt) + 4 <= |pkt|)
  {
    var h := AfterCsrcs(pkt);
    if XBit(pkt) then h + 4 + 4 * Wide(pkt[h + 2], pkt[h + 3]) else h
  }

  lemma Places(pkt: Octets)
    requires ValidRtp(pkt)
    ensures |pkt| >= 12 && XBit(pkt) == HasXtn(pkt) && AfterCsrcs(pkt) == HdrLen(pkt)
    ensures XBit(pkt) ==> AfterCsrcs(pkt) + 4 <= |pkt|
    ensures AfterHeaders(pkt) == PayloadStart(pkt) <= |pkt|
    ensures XBit(pkt) ==> Profile(pkt) == Wide(pkt[AfterCsrcs(pkt)], pkt[AfterCsrcs(pkt) + 1])
  {
    if HasXtn(pkt) {
      var h := HdrLen(pkt);
      U16Value(pkt[h + 2], pkt[h + 3]);
      U16Value(pkt[h], pkt[h + 1]);
    }
  }

  lemma ValidIff(pkt: Octets)
    ensures ValidRtp(pkt)
       <==> |pkt| >= 12 && (XBit(pkt) ==> AfterCsrcs(pkt) + 4 <= |pkt|) && AfterCsrcs(pkt) <= |pkt| && AfterHeaders(pkt) <= |pkt|
  {
    if |pkt| >= 12 && HasXtn(pkt) && HdrLen(pkt) + 4 <= |pkt| {
      U16Value(pkt[HdrLen(pkt) + 2], pkt[HdrLen(pkt) + 3]);
    }
  }

  // ----- The header extension -----

  /** `y` is the packet with its header extension encrypted under its own keystream, if the key has one. */
  ghost predicate Extended(c: Config, key: Keys, index: nat, pkt: Octets, y: Octets)
    requires ValidRtp(pkt)
  {
    Places(pkt);
    var (h, p) := (AfterCsrcs(pkt), AfterHeaders(pkt));
    |y| == |pkt|
    && if XBit(pkt) && key.xtnStream.Some? then
         var (form, ks) := (if Wide(pkt[h], pkt[h + 1]) == 0xBEDE then OneByte else TwoByte, key.xtnStream.value(Nonce(pkt[8..12], index)));
         && (Wide(pkt[h], pkt[h + 1]) == 0xBEDE || 0x1000 <= Wide(pkt[h], pkt[h + 1]) < 0x1010)
         && (forall i :: 0 <= i < h + 4 || p <= i < |y| ==> y[i] == pkt[i])
         && y[h + 4..p] == Walk(pkt[h + 4..p], form, c.encryptedIds, ks, 0).body
       else y == pkt
  }

  lemma StepExtends(c: Config, key: Keys, index: nat, pkt: Octets)
    requires ValidRtp(pkt) && XtnStep(c, key, NonceOf(pkt, index), pkt).ok
    ensures Extended(c, key, index, pkt, XtnStep(c, key, NonceOf(pkt, index), pkt).body)
  {
    hide XtnStep, ProcessXtn, ValidRtp, HdrLen, HasXtn, AfterCsrcs, AfterHeaders, XBit, SameLayout, Walk, Profile, PayloadStart;
    Places(pkt);
    StepIs(c, key, NonceOf(pkt, index), pkt);
    if XBit(pkt) && key.xtnStream.Some? {
      Spliced(pkt, c.encryptedIds, key.xtnStream.value(Nonce(pkt[8..12], index)));
    }
  }

  lemma StepIs(c: Config, key: Keys, nonce: Nonce, pkt: Octets)
    requires ValidRtp(pkt)
    ensures XtnStep(c, key, nonce, pkt)
         == if XBit(pkt) && key.xtnStream.Some? then ProcessXtn(pkt, c.encryptedIds, key.xtnStream.value(nonce)) else Walked(true, pkt)
  {
    hide ProcessXtn;
  }

  lemma Spliced(pkt: Octets, ids: seq<Byte>, ks: Keystream)
    requires ValidRtp(pkt) && HasXtn(pkt) && ProcessXtn(pkt, ids, ks).ok
    ensures var (y, from, to) := (ProcessXtn(pkt, ids, ks).body, HdrLen(pkt) + 4, PayloadStart(pkt));
            && |y| == |pkt| && from <= to <= |pkt| && (forall i :: 0 <= i < from || to <= i < |y| ==> y[i] == pkt[i])
            && (Profile(pkt) == 0xBEDE || 0x1000 <= Profile(pkt) < 0x1010)
            && y[from..to] == Walk(pkt[from..to], if Profile(pkt) == 0xBEDE then OneByte else TwoByte, ids, ks, 0).body
  {
    hide Walk;
  }

  // ----- Counter mode -----

  /** Octet i of the protected packet. The keystream position is that of the first octet encrypted, behind
      the prefix that goes into the tag. */
  function CtrOctet(c: Config, key: Keys, index: nat, pkt: Octets, y: Octets, i: nat): Byte
    requires ValidRtp(pkt) && |y| == |pkt| && i < |y|
  {
    Places(pkt);
    var ks, k := key.stream(Nonce(pkt[8..12], index)), if c.auth then key.prefixLen else 0;
    var h, p := AfterCsrcs(pkt), AfterHeaders(pkt);
    if !c.conf then y[i]
    else if c.useCryptex && XBit(pkt) then
      if i < 12 then y[i]
      else if i < h then Xor(y[i], ks(k + i - 12))
      else if i == h then if pkt[h] == 0xBE then 0xC0 else 0xC2
      else if i == h + 1 then 0xDE
      else if i < h + 4 then y[i]
      else Xor(y[i], ks(k + i - 16))
    else if i < p then y[i]
    else Xor(y[i], ks(k + i - p))
  }

  lemma BodyOctets(c: Config, key: Keys, index: nat, pkt: Octets)
    requires ValidRtp(pkt) && CtrBody(c, key, NonceOf(pkt, index), pkt).Some?
    ensures var y, body := XtnStep(c, key, NonceOf(pkt, index), pkt).body, CtrBody(c, key, NonceOf(pkt, index), pkt).value;
            Extended(c, key, index, pkt, y)
            && |body| == |pkt| && forall i :: 0 <= i < |pkt| ==> body[i] == CtrOctet(c, key, index, pkt, y, i)
  {
    var nonce := NonceOf(pkt, index);
    var y := XtnStep(c, key, nonce, pkt).body;
    StepExtends(c, key, index, pkt);
    LayoutKept(pkt, y);
    hide XtnStep, Extended, CtrOctet, Encrypted, ValidRtp;
    EncryptedOctets(c, key, index, pkt, y);
  }

  lemma EncryptedOctets(c: Config, key: Keys, index: nat, pkt: Octets, y: Octets)
    requires ValidRtp(pkt) && SameLayout(pkt, y) && |y| == |pkt| && ValidRtp(y)
    requires Encrypted(c, key, NonceOf(pkt, index), y).Some?
    ensures var body := Encrypted(c, key, NonceOf(pkt, index), y).value;
            forall i :: 0 <= i < |pkt| ==> body[i] == CtrOctet(c, key, index, pkt, y, i)
  {
    LayoutKept(pkt, y);
    Places(pkt);
    hide ValidRtp, HdrLen, HasXtn, AfterCsrcs, AfterHeaders, XBit, Profile, PayloadStart, InPlace;
    if CryptexSent(c, y) {
      ClosedOctets(c, key, index, pkt, y);
    }
  }

  lemma ClosedOctets(c: Config, key: Keys, index: nat, pkt: Octets, y: Octets)
    requires ValidRtp(pkt) && SameLayout(pkt, y) && |y| == |pkt| && ValidRtp(y)
    requires CryptexSent(c, y) && Encrypted(c, key, NonceOf(pkt, index), y).Some?
    ensures var body := Encrypted(c, key, NonceOf(pkt, index), y).value;
            forall i :: 0 <= i < |pkt| ==> body[i] == CtrOctet(c, key, index, pkt, y, i)
  {
    LayoutKept(pkt, y);
    Places(pkt);
    var (h, profile, k) := (HdrLen(y), CryptexProfile(Profile(y)).value, if c.auth then key.prefixLen else 0);
    var renamed := SetProfile(y, h, profile);
    var closed := InPlace(renamed, h, |pkt|, key.stream(Nonce(pkt[8..12], index)), k);
    assert Encrypted(c, key, NonceOf(pkt, index), y) == Some(closed) by { hide InPlace, SetProfile, Profile, HdrLen, ValidRtp; }
    assert c.conf && c.useCryptex && XBit(pkt) && h == AfterCsrcs(pkt) && 12 <= h && h + 4 <= |pkt|;
    CryptexNames(pkt[h], pkt[h + 1]);
    hide *;
    forall i | 0 <= i < |pkt| ensures closed[i] == CtrOctet(c, key, index, pkt, y, i) {
      InPlaceOctet(renamed, h, key.stream(Nonce(pkt[8..12], index)), k, i);
      ClosedOctet(c, key, index, pkt, y, h, profile, k, i);
    }
  }

  lemma ClosedOctet(c: Config, key: Keys, index: nat, pkt: Octets, y: Octets, h: nat, profile: Word16, k: nat, i: nat)
    requires ValidRtp(pkt) && |y| == |pkt| && i < |y| && h == AfterCsrcs(pkt) && 12 <= h && h + 4 <= |pkt|
    requires c.conf && c.useCryptex && XBit(pkt) && k == if c.auth then key.prefixLen else 0
    requires Hi(profile) == (if pkt[h] == 0xBE then 0xC0 else 0xC2) && Lo(profile) == 0xDE
    ensures CryptexOctet(SetProfile(y, h, profile), h, key.stream(Nonce(pkt[8..12], index)), k, i)
         == CtrOctet(c, key, index, pkt, y, i)
  {
    hide ValidRtp, AfterCsrcs, XBit, AfterHeaders, Xor, Hi, Lo;
  }

  /** 0xBEDE becomes 0xC0DE, 0x1000 becomes 0xC2DE. */
  lemma CryptexNames(hi: Byte, lo: Byte)
    requires CryptexProfile(U16(hi, lo)).Some?
    ensures var p := CryptexProfile(U16(hi, lo)).value;
            Hi(p) == (if hi == 0xBE then 0xC0 else 0xC2) && Lo(p) == 0xDE
  {
    U16Value(hi, lo);
  }

  /** The keystream octets that the tag is made with. */
  function Front(key: Keys, nonce: Nonce): Octets { seq(key.prefixLen, i requires 0 <= i => key.stream(nonce)(i)) }

  /** The tag over some octets: made with that keystream, the octets and the upper 32 bits of the index. */
  function TagOver(key: Keys, ssrc: Octets, index: nat, body: Octets): Octets
  {
    key.mac(Front(key, Nonce(ssrc, index)), body, index / 0x1_0000)
  }

  /** What protect sends: every octet of the packet, then the MKI, then a tag over the packet and the upper 32
      bits of the index - or without authentication the octets that stood there. */
  lemma CtrOnWire(c: Config, mkiIndex: nat, index: nat, pkt: Octets, capacity: nat, after: Octets) returns (y: Octets)
    requires ConfigOk(c) && capacity <= |pkt| + |after|
    requires ProtectCtr(c, mkiIndex, index, pkt, capacity, after).status == Ok
    ensures ValidRtp(pkt) && KeyForIndex(c, mkiIndex).Some? && |y| == |pkt|
    ensures var (out, key) := (ProtectCtr(c, mkiIndex, index, pkt, capacity, after).packet, KeyForIndex(c, mkiIndex).value);
            var (body, end) := (out[..|pkt|], |pkt| + c.mkiSize);
            && |out| == end + c.tagLen && Extended(c, key, index, pkt, y)
            && (forall i :: 0 <= i < |pkt| ==> body[i] == CtrOctet(c, key, index, pkt, y, i))
            && out[|pkt|..end] == key.mkiId
            && out[end..] == if c.auth then TagOver(key, pkt[8..12], index, body)
                             else after[c.mkiSize..c.mkiSize + c.tagLen]
  {
    hide *;
    HasKeys(c);
    CtrSent(c, mkiIndex, index, pkt, capacity, after);
    var key := KeyForIndex(c, mkiIndex).value;
    BodyOctets(c, key, index, pkt);
    HasHeader(pkt);
    y := XtnStep(c, key, NonceOf(pkt, index), pkt).body;
  }

  lemma CtrSent(c: Config, mkiIndex: nat, index: nat, pkt: Octets, capacity: nat, after: Octets)
    requires ConfigOk(c) && capacity <= |pkt| + |after| && c.keys != []
    requires ProtectCtr(c, mkiIndex, index, pkt, capacity, after).status == Ok
    ensures ValidRtp(pkt) && |pkt| >= 12 && KeyForIndex(c, mkiIndex).Some?
    ensures var (out, key) := (ProtectCtr(c, mkiIndex, index, pkt, capacity, after).packet, KeyForIndex(c, mkiIndex).value);
            var (body, end) := (CtrBody(c, key, NonceOf(pkt, index), pkt), |pkt| + c.mkiSize);
            && body.Some? && |out| == end + c.tagLen && out[..|pkt|] == body.value && out[|pkt|..end] == key.mkiId
            && |after| >= c.mkiSize + c.tagLen
            && out[end..] == if c.auth then TagOver(key, pkt[8..12], index, body.value)
                             else after[c.mkiSize..c.mkiSize + c.tagLen]
  {
    var key := KeyForIndex(c, mkiIndex).value;
    assert KeysFit(c, key);
    assert Front(key, NonceOf(pkt, index)) == Prefix(key, NonceOf(pkt, index));
    hide CtrBody, ValidRtp;
    var body := CtrBody(c, key, NonceOf(pkt, index), pkt).value;
    Trailer(body, key.mkiId, ProtectCtr(c, mkiIndex, index, pkt, capacity, after).packet[|pkt| + c.mkiSize..]);
  }

  // ----- What unprotect makes of it -----

  /** The receiver takes the extension for an encrypted one. */
  predicate LooksClosed(c: Config, srtp: Octets)
    requires ValidRtp(srtp)
  {
    Places(srtp);
    var h := AfterCsrcs(srtp);
    c.useCryptex && XBit(srtp) && (Wide(srtp[h], srtp[h + 1]) == 0xC0DE || Wide(srtp[h], srtp[h + 1]) == 0xC2DE)
  }

  lemma ClosedIs(c: Config, srtp: Octets)
    requires ValidRtp(srtp)
    ensures LooksClosed(c, srtp) == CryptexReceived(c, srtp)
    ensures OpenStart(c, srtp) == if LooksClosed(c, srtp) then 16 else AfterHeaders(srtp)
  {
    Places(srtp);
  }

  /** A packet that holds n octets of RTP and names a known key is refused for its tag exactly when this is not
      the tag over those octets and the upper 32 bits of the index. */
  lemma CtrRefused(c: Config, index: nat, srtp: Octets, capacity: nat, n: nat)
    requires ConfigOk(c) && ValidRtp(srtp) && KeyForPacket(c, srtp, c.tagLen).Some?
    requires n + c.mkiSize + c.tagLen == |srtp| && n <= capacity
    requires (if LooksClosed(c, srtp) then 16 else AfterHeaders(srtp)) <= n
    ensures UnprotectCtr(c, index, srtp, capacity).status == AuthFail
       <==> c.auth && srtp[n + c.mkiSize..] != TagOver(KeyForPacket(c, srtp, c.tagLen).value, srtp[8..12], index, srtp[..n])
  {
    var key := KeyForPacket(c, srtp, c.tagLen).value;
    Places(srtp);
    ClosedIs(c, srtp);
    assert Front(key, NonceOf(srtp, index)) == Prefix(key, NonceOf(srtp, index));
    hide ValidRtp, KeyForPacket, CtrOpened, XtnStep, LooksClosed, OpenStart;
  }

  /** Octet i of the packet of n octets that comes out. Rotated, the CSRC octets lie four places further on:
      those that come to lie behind the n octets stay as they are. */
  function OpenedOctet(c: Config, key: Keys, index: nat, srtp: Octets, y: Octets, n: nat, i: nat): Byte
    requires ValidRtp(srtp) && |y| == |srtp| && i < |y|
  {
    Places(srtp);
    var ks, k := key.stream(Nonce(srtp[8..12], index)), if c.auth then key.prefixLen else 0;
    var h, p := AfterCsrcs(srtp), AfterHeaders(srtp);
    if LooksClosed(c, srtp) then
      if i == h then if srtp[h] == 0xC0 then 0xBE else 0x10
      else if i == h + 1 then if srtp[h] == 0xC0 then 0xDE else 0x00
      else if !c.conf || i < 12 || h <= i < h + 4 then y[i]
      else if i >= h then Xor(y[i], ks(k + i - 16))
      else if i + 4 < n then Xor(y[i], ks(k + i - 12))
      else y[i]
    else if !c.conf || i < p then y[i]
    else Xor(y[i], ks(k + i - p))
  }

  /** What an accepted packet comes out as, octet by octet. */
  lemma CtrOffWire(c: Config, index: nat, srtp: Octets, capacity: nat) returns (y: Octets)
    requires ConfigOk(c) && UnprotectCtr(c, index, srtp, capacity).status == Ok
    ensures ValidRtp(srtp) && KeyForPacket(c, srtp, c.tagLen).Some? && |y| == |srtp|
    ensures var (out, key) := (UnprotectCtr(c, index, srtp, capacity).packet, KeyForPacket(c, srtp, c.tagLen).value);
            && |out| + c.mkiSize + c.tagLen == |srtp| && Extended(c, key, index, srtp, y)
            && forall i :: 0 <= i < |out| ==> out[i] == OpenedOctet(c, key, index, srtp, y, |out|, i)
  {
    hide *;
    HasKeys(c);
    CtrTaken(c, index, srtp, capacity);
    var (key, n) := (KeyForPacket(c, srtp, c.tagLen).value, |srtp| - c.mkiSize - c.tagLen);
    HasHeader(srtp);
    y := XtnStep(c, key, NonceOf(srtp, index), srtp).body;
    StepExtends(c, key, index, srtp);
    LookKept(c, srtp, y);
    StartKept(c, srtp, y);
    OpenedOctets(c, key, index, srtp, y, n);
  }

  lemma CtrTaken(c: Config, index: nat, srtp: Octets, capacity: nat)
    requires ConfigOk(c) && c.keys != [] && UnprotectCtr(c, index, srtp, capacity).status == Ok
    ensures ValidRtp(srtp) && |srtp| >= 12 && KeyForPacket(c, srtp, c.tagLen).Some?
    ensures var (key, n) := (KeyForPacket(c, srtp, c.tagLen).value, |srtp| - c.mkiSize - c.tagLen);
            var x := XtnStep(c, key, NonceOf(srtp, index), srtp);
            && 0 <= n && x.ok && |x.body| == |srtp| && SameLayout(srtp, x.body) && OpenStart(c, srtp) <= n
            && ValidRtp(x.body) && OpenStart(c, x.body) <= n
            && UnprotectCtr(c, index, srtp, capacity).packet == CtrOpened(c, key, NonceOf(srtp, index), x.body, n)[..n]
  {
    hide XtnStep, CtrOpened, KeyForPacket, OpenStart;
    var key := KeyForPacket(c, srtp, c.tagLen).value;
    StartKept(c, srtp, XtnStep(c, key, NonceOf(srtp, index), srtp).body);
  }

  lemma StartKept(c: Config, a: Octets, b: Octets)
    requires ValidRtp(a) && SameLayout(a, b)
    ensures ValidRtp(b) && OpenStart(c, b) == OpenStart(c, a) && CryptexReceived(c, b) == CryptexReceived(c, a)
  {
    LayoutKept(a, b);
  }

  lemma OpenedOctets(c: Config, key: Keys, index: nat, srtp: Octets, y: Octets, n: nat)
    requires ValidRtp(srtp) && |srtp| >= 12 && SameLayout(srtp, y) && |y| == |srtp| && ValidRtp(y)
    requires OpenStart(c, y) <= n <= |y| && CryptexReceived(c, y) == CryptexReceived(c, srtp)
    ensures var back := CtrOpened(c, key, NonceOf(srtp, index), y, n);
            forall i :: 0 <= i < n ==> back[i] == OpenedOctet(c, key, index, srtp, y, n, i)
  {
    LayoutKept(srtp, y);
    Places(srtp);
    ClosedIs(c, srtp);
    var (ks, k) := (key.stream(Nonce(srtp[8..12], index)), if c.auth then key.prefixLen else 0);
    OpenedParts(c, key, NonceOf(srtp, index), y, n);
    assert NonceOf(srtp, index) == Nonce(srtp[8..12], index);
    hide *;
    if LooksClosed(c, srtp) {
      var (h, profile) := (AfterCsrcs(srtp), PlainProfile(Profile(srtp)));
      AfterFixed(srtp);
      PlainNames(srtp[h], srtp[h + 1]);
      forall i | 0 <= i < n ensures CtrOpened(c, key, NonceOf(srtp, index), y, n)[i] == OpenedOctet(c, key, index, srtp, y, n, i) {
        ReopenedOctet(c, key, index, srtp, y, n, h, profile, ks, k, i);
      }
    } else {
      forall i | 0 <= i < n ensures CtrOpened(c, key, NonceOf(srtp, index), y, n)[i] == OpenedOctet(c, key, index, srtp, y, n, i) {
        ClearOctet(c, key, index, srtp, y, n, AfterHeaders(srtp), ks, k, i);
      }
    }
  }

  lemma AfterFixed(srtp: Octets)
    requires srtp != [] && XBit(srtp)
    ensures AfterCsrcs(srtp) >= 12
  {
  }

  lemma ClearOctet(c: Config, key: Keys, index: nat, srtp: Octets, y: Octets, n: nat, p: nat, ks: Keystream, k: nat, i: nat)
    requires ValidRtp(srtp) && |srtp| >= 12 && !LooksClosed(c, srtp) && |y| == |srtp| && i < n <= |y|
    requires p == AfterHeaders(srtp) <= n && ks == key.stream(Nonce(srtp[8..12], index)) && k == if c.auth then key.prefixLen else 0
    ensures (if c.conf then XorRange(y, p, n, ks, k) else y)[i] == OpenedOctet(c, key, index, srtp, y, n, i)
  {
    hide ValidRtp, AfterHeaders, AfterCsrcs, LooksClosed, XBit, Xor;
  }

  lemma ReopenedOctet(c: Config, key: Keys, index: nat, srtp: Octets, y: Octets, n: nat, h: nat, profile: Word16, ks: Keystream, k: nat, i: nat)
    requires ValidRtp(srtp) && |srtp| >= 12 && LooksClosed(c, srtp) && |y| == |srtp| && i < n <= |y| && 16 <= n
    requires 12 <= h == AfterCsrcs(srtp) && h + 4 <= |srtp|
    requires ks == key.stream(Nonce(srtp[8..12], index)) && k == if c.auth then key.prefixLen else 0
    requires Hi(profile) == (if srtp[h] == 0xC0 then 0xBE else 0x10) && Lo(profile) == if srtp[h] == 0xC0 then 0xDE else 0x00
    ensures SetProfile(if c.conf then InPlace(y, h, n, ks, k) else y, h, profile)[i] == OpenedOctet(c, key, index, srtp, y, n, i)
  {
    hide ValidRtp, AfterHeaders, AfterCsrcs, LooksClosed, XBit, Xor, Hi, Lo, InPlace, RotatedIndex;
    RegionOctet(y, h, n, ks, k, i);
    RotatedPlace(h, i);
  }

  lemma RotatedPlace(h: nat, i: nat)
    ensures RotatedIndex(h, i) == if i < 12 || i >= h + 4 then i else if i < h then i + 4 else i - h + 12
  {
  }

  lemma OpenedParts(c: Config, key: Keys, nonce: Nonce, y: Octets, n: nat)
    requires ValidRtp(y) && OpenStart(c, y) <= n <= |y|
    ensures var (ks, k, h) := (key.stream(nonce), if c.auth then key.prefixLen else 0, HdrLen(y));
            CtrOpened(c, key, nonce, y, n)
            == if CryptexReceived(c, y) then
                 SetProfile(if c.conf then InPlace(y, h, n, ks, k) else y, h, PlainProfile(Profile(y)))
               else if c.conf then XorRange(y, PayloadStart(y), n, ks, k)
               else y
  {
    hide InPlace, SetProfile, PlainProfile;
  }

  /** 0xC0DE becomes 0xBEDE, 0xC2DE becomes 0x1000. */
  lemma PlainNames(hi: Byte, lo: Byte)
    requires IsCryptexProfile(U16(hi, lo))
    ensures var p := PlainProfile(U16(hi, lo));
            Hi(p) == (if hi == 0xC0 then 0xBE else 0x10) && Lo(p) == if hi == 0xC0 then 0xDE else 0x00
  {
    U16Value(hi, lo);
  }

  // ----- Statuses -----

  /** The headers lie inside the packet. */
  predicate Headed(pkt: Octets)
  {
    && |pkt| >= 12 && AfterCsrcs(pkt) <= |pkt|
    && (XBit(pkt) ==> AfterCsrcs(pkt) + 4 <= |pkt|) && AfterHeaders(pkt) <= |pkt|
  }

  lemma HeadedIs(pkt: Octets)
    ensures Headed(pkt) == ValidRtp(pkt)
  {
    ValidIff(pkt);
  }

  /** Without MKIs there is one key; with MKIs the index names it. */
  lemma KeyChosen(c: Config, mkiIndex: nat)
    requires c.keys != []
    ensures KeyForIndex(c, mkiIndex) == if !c.useMki then Some(c.keys[0]) else if mkiIndex < |c.keys| then Some(c.keys[mkiIndex]) else None
  {
  }

  /** The extension has no form that is known, or its elements do not fit. */
  predicate CannotWalk(c: Config, key: Keys, index: nat, pkt: Octets)
    requires Headed(pkt)
  {
    XBit(pkt) && key.xtnStream.Some?
    && var (h, p) := (AfterCsrcs(pkt), AfterHeaders(pkt));
       var profile := Wide(pkt[h], pkt[h + 1]);
       var form := if profile == 0xBEDE then OneByte else TwoByte;
       (profile != 0xBEDE && !(0x1000 <= profile < 0x1010))
       || !Walk(pkt[h + 4..p], form, c.encryptedIds, key.xtnStream.value(Nonce(pkt[8..12], index)), 0).ok
  }

  /** Cryptex has a name for two profiles only. */
  predicate CannotRename(c: Config, pkt: Octets)
    requires Headed(pkt)
  {
    c.useCryptex && c.conf && XBit(pkt)
    && var h := AfterCsrcs(pkt);
       Wide(pkt[h], pkt[h + 1]) != 0xBEDE && Wide(pkt[h], pkt[h + 1]) != 0x1000
  }

  lemma WalksIff(c: Config, key: Keys, index: nat, pkt: Octets)
    requires ValidRtp(pkt) && Headed(pkt)
    ensures XtnStep(c, key, NonceOf(pkt, index), pkt).ok <==> !CannotWalk(c, key, index, pkt)
  {
    hide XtnStep, ProcessXtn, ValidRtp, HdrLen, HasXtn, AfterCsrcs, AfterHeaders, XBit, SameLayout, Walk, Profile, PayloadStart, Headed;
    Places(pkt);
    StepIs(c, key, NonceOf(pkt, index), pkt);
    if XBit(pkt) && key.xtnStream.Some? {
      ProcessedIff(pkt, c.encryptedIds, key.xtnStream.value(Nonce(pkt[8..12], index)));
    }
  }

  lemma ProcessedIff(pkt: Octets, ids: seq<Byte>, ks: Keystream)
    requires ValidRtp(pkt) && HasXtn(pkt)
    ensures HdrLen(pkt) + 4 <= PayloadStart(pkt) <= |pkt|
    ensures ProcessXtn(pkt, ids, ks).ok
       <==> (Profile(pkt) == 0xBEDE || 0x1000 <= Profile(pkt) < 0x1010)
            && Walk(pkt[HdrLen(pkt) + 4..PayloadStart(pkt)], if Profile(pkt) == 0xBEDE then OneByte else TwoByte, ids, ks, 0).ok
  {
    hide Walk;
  }

  lemma RenamesIff(c: Config, key: Keys, nonce: Nonce, pkt: Octets, y: Octets)
    requires ValidRtp(pkt) && Headed(pkt) && SameLayout(pkt, y) && |y| == |pkt| && ValidRtp(y)
    ensures Encrypted(c, key, nonce, y).None? <==> CannotRename(c, pkt)
  {
    Places(pkt);
    LayoutKept(pkt, y);
    hide InPlace, SetProfile, XorRange;
  }

  lemma BodyIff(c: Config, key: Keys, index: nat, pkt: Octets)
    requires ValidRtp(pkt) && Headed(pkt)
    ensures CtrBody(c, key, NonceOf(pkt, index), pkt).None? <==> CannotWalk(c, key, index, pkt) || CannotRename(c, pkt)
  {
    var y := XtnStep(c, key, NonceOf(pkt, index), pkt).body;
    LayoutKept(pkt, y);
    WalksIff(c, key, index, pkt);
    RenamesIff(c, key, NonceOf(pkt, index), pkt, y);
    hide XtnStep, Encrypted, CannotWalk, CannotRename, Headed, ValidRtp;
  }

  /** How protect ends, in the order in which it looks. */
  lemma ProtectStatus(c: Config, mkiIndex: nat, index: nat, pkt: Octets, capacity: nat, after: Octets)
    requires c.keys != [] && capacity <= |pkt| + |after|
    ensures ProtectCtr(c, mkiIndex, index, pkt, capacity, after).status
         == if !Headed(pkt) then BadParam
            else if c.useMki && mkiIndex >= |c.keys| then BadMki
            else if capacity < |pkt| + c.mkiSize + c.tagLen then BufferSmall
            else if c.useCryptex && c.conf && pkt[0] % 16 > 0 && !XBit(pkt) then CryptexErr
            else if CannotWalk(c, c.keys[if c.useMki then mkiIndex else 0], index, pkt) || CannotRename(c, pkt) then ParseErr
            else Ok
  {
    HeadedIs(pkt);
    KeyChosen(c, mkiIndex);
    if ValidRtp(pkt) && KeyForIndex(c, mkiIndex).Some? {
      Places(pkt);
      BodyIff(c, KeyForIndex(c, mkiIndex).value, index, pkt);
    }
    hide CtrBody, CannotWalk, CannotRename, Headed, ValidRtp, KeyForIndex, Tag;
  }

  /** How unprotect ends, in the order in which it looks. */
  lemma UnprotectStatus(c: Config, index: nat, srtp: Octets, capacity: nat)
    requires c.keys != []
    ensures Headed(srtp) == ValidRtp(srtp)
    ensures var (n, key) := (|srtp| - c.tagLen - c.mkiSize, KeyForPacket(c, srtp, c.tagLen));
            UnprotectCtr(c, index, srtp, capacity).status
            == if !Headed(srtp) then BadParam
               else if key.None? then BadMki
               else if n < 0 then BufferSmall
               else if n < (if LooksClosed(c, srtp) then 16 else AfterHeaders(srtp)) then ParseErr
               else if capacity < n then BufferSmall
               else if c.auth && srtp[n + c.mkiSize..] != TagOver(key.value, srtp[8..12], index, srtp[..n]) then AuthFail
               else if CannotWalk(c, key.value, index, srtp) then ParseErr
               else Ok
  {
    hide *;
    HeadedIs(srtp);
    EarlyStatus(c, index, srtp, capacity);
    if ValidRtp(srtp) && KeyForPacket(c, srtp, c.tagLen).Some? {
      var key := KeyForPacket(c, srtp, c.tagLen).value;
      HasHeader(srtp);
      ClosedIs(c, srtp);
      WalksIff(c, key, index, srtp);
      TakenStatus(c, index, srtp, capacity, key);
    }
  }

  lemma EarlyStatus(c: Config, index: nat, srtp: Octets, capacity: nat)
    requires c.keys != []
    ensures FIXED_HEADER == 12
    ensures !ValidRtp(srtp) ==> UnprotectCtr(c, index, srtp, capacity).status == BadParam
    ensures ValidRtp(srtp) && KeyForPacket(c, srtp, c.tagLen).None? ==> UnprotectCtr(c, index, srtp, capacity).status == BadMki
  {
    hide Accepting, ValidRtp, KeyForPacket;
  }

  lemma TakenStatus(c: Config, index: nat, srtp: Octets, capacity: nat, key: Keys)
    requires c.keys != [] && Headed(srtp) && ValidRtp(srtp) && |srtp| >= FIXED_HEADER == 12 && KeyForPacket(c, srtp, c.tagLen) == Some(key)
    requires OpenStart(c, srtp) == if LooksClosed(c, srtp) then 16 else AfterHeaders(srtp)
    requires XtnStep(c, key, NonceOf(srtp, index), srtp).ok <==> !CannotWalk(c, key, index, srtp)
    ensures var n := |srtp| - c.tagLen - c.mkiSize;
            UnprotectCtr(c, index, srtp, capacity).status
            == if n < 0 then BufferSmall
               else if n < (if LooksClosed(c, srtp) then 16 else AfterHeaders(srtp)) then ParseErr
               else if capacity < n then BufferSmall
               else if c.auth && srtp[n + c.mkiSize..] != TagOver(key, srtp[8..12], index, srtp[..n]) then AuthFail
               else if CannotWalk(c, key, index, srtp) then ParseErr
               else Ok
  {
    hide *;
    var n := |srtp| - c.tagLen - c.mkiSize;
    Sized(c, index, srtp, capacity, key);
    if n >= 0 {
      AcceptedStatus(c, key, NonceOf(srtp, index), srtp, n, capacity);
      TagIs(key, srtp, index, srtp[..n]);
    }
  }

  lemma Sized(c: Config, index: nat, srtp: Octets, capacity: nat, key: Keys)
    requires c.keys != [] && ValidRtp(srtp) && |srtp| >= FIXED_HEADER && KeyForPacket(c, srtp, c.tagLen) == Some(key)
    ensures var n := |srtp| - c.tagLen - c.mkiSize;
            UnprotectCtr(c, index, srtp, capacity)
            == if n < 0 then Failed(BufferSmall) else Accepting(c, key, NonceOf(srtp, index), srtp, n, capacity)
    ensures Failed(BufferSmall).status == BufferSmall
  {
    hide Accepting, ValidRtp, KeyForPacket;
  }

  lemma TagIs(key: Keys, srtp: Octets, index: nat, body: Octets)
    requires |srtp| >= FIXED_HEADER == 12
    ensures Tag(key, NonceOf(srtp, index), body) == TagOver(key, srtp[8..12], index, body)
  {
    assert Front(key, NonceOf(srtp, index)) == Prefix(key, NonceOf(srtp, index));
  }

  lemma AcceptedStatus(c: Config, key: Keys, nonce: Nonce, srtp: Octets, n: nat, capacity: nat)
    requires ValidRtp(srtp) && n + c.mkiSize + c.tagLen == |srtp|
    ensures Accepting(c, key, nonce, srtp, n, capacity).status
         == if n < OpenStart(c, srtp) then ParseErr
            else if capacity < n then BufferSmall
            else if c.auth && srtp[n + c.mkiSize..] != Tag(key, nonce, srtp[..n]) then AuthFail
            else if !XtnStep(c, key, nonce, srtp).ok then ParseErr
            else Ok
  {
    hide XtnStep, Tag, CtrOpened, ValidRtp, OpenStart;
  }
}
