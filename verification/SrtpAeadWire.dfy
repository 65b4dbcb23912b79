/** What stands on the wire with an AEAD cipher: the associated data, what is sealed and under which nonce
    (section 5 of RFC 7714, and RFC 9335). */
module SrtpAeadWire {
  import opened Bytes
  import opened SrtpPacket
  import opened SrtpHeaderExt
  import opened SrtpCryptex
  import opened SrtpTransform
  import opened SrtpRoundTrip
  import opened SrtpAead
  import opened SrtpWire

  // ----- Protect -----

  /** The packet up to the MKI, `y` being the packet with its extension encrypted: the headers are associated
      data. With Cryptex these are the fixed header and the extension header, and the rest of it is sealed with
      the CSRCs in front. */
  function SealedPacket(c: Config, key: Keys, index: nat, pkt: Octets, y: Octets): Octets
    requires ValidRtp(pkt) && |y| == |pkt| && KeysFit(c, key)
  {
    Places(pkt);
    var nonce := Nonce(pkt[8..12], index);
    var h, p := AfterCsrcs(pkt), AfterHeaders(pkt);
    if c.useCryptex && c.conf && XBit(pkt) then
      var aad := y[..12] + [if pkt[h] == 0xBE then 0xC0 else 0xC2, 0xDE] + y[h + 2..h + 4];
      var sealed := key.seal(nonce, aad, y[12..h] + y[h + 4..]);
      aad[..12] + sealed[..h - 12] + aad[12..] + sealed[h - 12..]
    else y[..p] + key.seal(nonce, y[..p], y[p..])
  }

  lemma ClosedOnWire(c: Config, key: Keys, index: nat, pkt: Octets, y: Octets)
    requires ValidRtp(pkt) && SameLayout(pkt, y) && |y| == |pkt| && ValidRtp(y) && KeysFit(c, key)
    requires CryptexSent(c, y) && Closed(c, key, NonceOf(pkt, index), y).Some?
    ensures Closed(c, key, NonceOf(pkt, index), y).value == SealedPacket(c, key, index, pkt, y)
  {
    LayoutKept(pkt, y);
    Places(pkt);
    var (h, profile) := (HdrLen(y), CryptexProfile(Profile(y)).value);
    CryptexNames(pkt[h], pkt[h + 1]);
    var rotated := Rotated(SetProfile(y, h, profile), h);
    var aad := y[..12] + [Hi(profile), Lo(profile)] + y[h + 2..h + 4];
    RenamedFront(y, h, profile);
    SealedRotated(c, key, NonceOf(pkt, index), rotated, h, aad, y[12..h] + y[h + 4..]);
    hide Sealed, Rotated, Unrotated, SetProfile, CryptexProfile, KeysFit, ValidRtp, HdrLen, AfterCsrcs, AfterHeaders, XBit, HasXtn;
  }

  lemma RenamedFront(y: Octets, h: nat, profile: Word16)
    requires 12 <= h && h + 4 <= |y|
    ensures Rotated(SetProfile(y, h, profile), h)
         == y[..12] + [Hi(profile), Lo(profile)] + y[h + 2..h + 4] + (y[12..h] + y[h + 4..])
  {
    var renamed := SetProfile(y, h, profile);
    assert renamed[h..h + 4] == [Hi(profile), Lo(profile)] + y[h + 2..h + 4];
    assert renamed[..12] == y[..12] && renamed[12..h] == y[12..h] && renamed[h + 4..] == y[h + 4..];
  }

  lemma SealedRotated(c: Config, key: Keys, nonce: Nonce, rotated: Octets, h: nat, aad: Octets, text: Octets)
    requires KeysFit(c, key) && 12 <= h && rotated == aad + text && |aad| == 16 && |text| >= h - 12
    ensures var sealed := key.seal(nonce, aad, text);
            |sealed| >= h - 12
            && Unrotated(Sealed(c, key, nonce, rotated, ROTATED_START), h)
               == aad[..12] + sealed[..h - 12] + aad[12..] + sealed[h - 12..]
  {
    assert rotated[..16] == aad && rotated[16..] == text;
    var all := aad + key.seal(nonce, aad, text);
    assert all[..12] == aad[..12] && all[12..16] == aad[12..];
  }

  lemma AeadOnWire(c: Config, mkiIndex: nat, index: nat, pkt: Octets, capacity: nat) returns (y: Octets)
    requires ConfigOk(c) && ProtectAead(c, mkiIndex, index, pkt, capacity).status == Ok
    ensures ValidRtp(pkt) && KeyForIndex(c, mkiIndex).Some? && |y| == |pkt| && KeysFit(c, KeyForIndex(c, mkiIndex).value)
    ensures var key := KeyForIndex(c, mkiIndex).value;
            && Extended(c, key, index, pkt, y)
            && ProtectAead(c, mkiIndex, index, pkt, capacity).packet == SealedPacket(c, key, index, pkt, y) + key.mkiId
  {
    ProtectedBody(c, mkiIndex, index, pkt, capacity);
    hide *;
    HasHeader(pkt);
    var key := KeyForIndex(c, mkiIndex).value;
    y := XtnStep(c, key, NonceOf(pkt, index), pkt).body;
    SentBody(c, key, index, pkt);
    StepExtends(c, key, index, pkt);
  }

  lemma SentBody(c: Config, key: Keys, index: nat, pkt: Octets)
    requires ValidRtp(pkt) && |pkt| >= FIXED_HEADER && KeysFit(c, key) && AeadBody(c, key, NonceOf(pkt, index), pkt).Some?
    ensures var x := XtnStep(c, key, NonceOf(pkt, index), pkt);
            x.ok && AeadBody(c, key, NonceOf(pkt, index), pkt).value == SealedPacket(c, key, index, pkt, x.body)
  {
    var y := XtnStep(c, key, NonceOf(pkt, index), pkt).body;
    LayoutKept(pkt, y);
    Places(pkt);
    hide XtnStep, KeysFit, Sealed, SealedPacket, Closed, ValidRtp;
    if CryptexSent(c, y) {
      ClosedOnWire(c, key, index, pkt, y);
    } else {
      PlainOnWire(c, key, index, pkt, y);
    }
  }

  lemma PlainOnWire(c: Config, key: Keys, index: nat, pkt: Octets, y: Octets)
    requires ValidRtp(pkt) && SameLayout(pkt, y) && |y| == |pkt| && ValidRtp(y) && KeysFit(c, key) && !CryptexSent(c, y)
    ensures Closed(c, key, NonceOf(pkt, index), y) == Some(SealedPacket(c, key, index, pkt, y))
  {
    LayoutKept(pkt, y);
    Places(pkt);
    hide KeysFit, ValidRtp, HdrLen, PayloadStart, AfterHeaders, AfterCsrcs;
  }

  // ----- Unprotect -----

  /** The associated data and the sealed octets of a received packet, the MKI left out. */
  function Parts(c: Config, srtp: Octets): (Octets, Octets)
    requires ValidRtp(srtp) && c.mkiSize <= |srtp| && (if LooksClosed(c, srtp) then 16 else AfterHeaders(srtp)) <= |srtp| - c.mkiSize
  {
    Places(srtp);
    var (h, p, end) := (AfterCsrcs(srtp), AfterHeaders(srtp), |srtp| - c.mkiSize);
    if LooksClosed(c, srtp) then (srtp[..12] + srtp[h..h + 4], (srtp[12..h] + srtp[h + 4..])[..end - 16])
    else (srtp[..p], srtp[p..end])
  }

  /** What the cipher makes of a received packet. */
  function OpenedText(c: Config, key: Keys, index: nat, srtp: Octets): Option<Octets>
    requires ValidRtp(srtp) && c.mkiSize <= |srtp| && (if LooksClosed(c, srtp) then 16 else AfterHeaders(srtp)) <= |srtp| - c.mkiSize
  {
    Places(srtp);
    key.open(Nonce(srtp[8..12], index), Parts(c, srtp).0, Parts(c, srtp).1)
  }

  /** The packet with the text where it was, and with Cryptex the octets moved back and the profile renamed. */
  function Reopened(c: Config, srtp: Octets, text: Octets): Octets
    requires ValidRtp(srtp) && c.mkiSize <= |srtp| && (if LooksClosed(c, srtp) then 16 else AfterHeaders(srtp)) <= |srtp| - c.mkiSize
    requires |text| <= |Parts(c, srtp).1|
  {
    Places(srtp);
    var (h, p) := (AfterCsrcs(srtp), AfterHeaders(srtp));
    if LooksClosed(c, srtp) then
      var clear := text + (srtp[12..h] + srtp[h + 4..])[|text|..];
      srtp[..12] + clear[..h - 12] + [if srtp[h] == 0xC0 then 0xBE else 0x10, if srtp[h] == 0xC0 then 0xDE else 0x00]
      + srtp[h + 2..h + 4] + clear[h - 12..]
    else srtp[..p] + text + srtp[p + |text|..]
  }

  lemma RotatedParts(c: Config, srtp: Octets)
    requires ValidRtp(srtp) && LooksClosed(c, srtp) && c.mkiSize + 16 <= |srtp|
    ensures var (r, h) := (Rotated(srtp, HdrLen(srtp)), AfterCsrcs(srtp));
            && r[..ROTATED_START] == Parts(c, srtp).0 && r[ROTATED_START..|srtp| - c.mkiSize] == Parts(c, srtp).1
            && r[ROTATED_START..] == srtp[12..h] + srtp[h + 4..]
  {
    Places(srtp);
  }

  lemma UnsealedIs(c: Config, key: Keys, index: nat, srtp: Octets)
    requires ValidRtp(srtp) && |srtp| >= 12 && KeysFit(c, key) && c.mkiSize <= |srtp| && OpenStart(c, srtp) <= |srtp| - c.mkiSize
    requires (if LooksClosed(c, srtp) then 16 else AfterHeaders(srtp)) == OpenStart(c, srtp)
    requires LooksClosed(c, srtp) ==> HasXtn(srtp) && HdrLen(srtp) + XTN_HEADER <= |srtp|
    ensures var all := if LooksClosed(c, srtp) then Rotated(srtp, HdrLen(srtp)) else srtp;
            var r := Unsealed(c, key, NonceOf(srtp, index), all, OpenStart(c, srtp), |srtp| - c.mkiSize);
            var text := OpenedText(c, key, index, srtp);
            && r.Some? == text.Some?
            && (r.Some? ==>
                  |text.value| <= |Parts(c, srtp).1|
                  && r.value == all[..OpenStart(c, srtp)] + text.value + all[OpenStart(c, srtp) + |text.value|..])
  {
    Places(srtp);
    if LooksClosed(c, srtp) { RotatedParts(c, srtp); }
    hide ValidRtp, HdrLen, AfterHeaders, AfterCsrcs, Rotated, LooksClosed;
  }

  /** A packet that holds n octets of RTP and names a known key is refused exactly when the cipher does not open
      what stands behind the headers, with the headers as associated data. */
  lemma AeadRefused(c: Config, index: nat, srtp: Octets, capacity: nat, n: nat)
    requires ConfigOk(c) && NotCombined(c) && ValidRtp(srtp) && KeyForPacket(c, srtp, 0).Some?
    requires n + c.tagLen + c.mkiSize == |srtp| && n <= capacity
    requires (if LooksClosed(c, srtp) then 16 else AfterHeaders(srtp)) <= n
    ensures UnprotectAead(c, index, srtp, capacity).status == AuthFail
       <==> OpenedText(c, KeyForPacket(c, srtp, 0).value, index, srtp).None?
  {
    var key := KeyForPacket(c, srtp, 0).value;
    assert KeysFit(c, key) by { assert key in c.keys; }
    Places(srtp);
    ClosedIs(c, srtp);
    ClosedHasXtn(c, srtp);
    hide *;
    UnprotectedAead(c, index, srtp, capacity, key, n);
    UnsealedIs(c, key, index, srtp);
    OpeningRefused(c, key, NonceOf(srtp, index), srtp, n, |srtp| - c.mkiSize);
  }

  lemma ClosedHasXtn(c: Config, srtp: Octets)
    requires ValidRtp(srtp)
    ensures LooksClosed(c, srtp) ==> HasXtn(srtp) && HdrLen(srtp) + XTN_HEADER <= |srtp|
    ensures |srtp| >= FIXED_HEADER == 12
  {
  }

  lemma OpeningRefused(c: Config, key: Keys, nonce: Nonce, srtp: Octets, n: nat, end: nat)
    requires ValidRtp(srtp) && OpenStart(c, srtp) <= n <= end <= |srtp| && KeysFit(c, key)
    requires LooksClosed(c, srtp) == CryptexReceived(c, srtp)
    requires LooksClosed(c, srtp) ==> HasXtn(srtp) && HdrLen(srtp) + XTN_HEADER <= |srtp|
    ensures var all := if LooksClosed(c, srtp) then Rotated(srtp, HdrLen(srtp)) else srtp;
            OpeningAead(c, key, nonce, srtp, n, end).status == AuthFail <==> Unsealed(c, key, nonce, all, OpenStart(c, srtp), end).None?
  {
    hide KeysFit, Unsealed, Rotated, Unrotated, SetProfile, XtnStep, LooksClosed, HdrLen, PayloadStart, PlainProfile;
  }

  // ----- What comes out -----

  /** What an accepted packet comes out as: the text where it was, and then the extension decrypted. */
  lemma AeadOffWire(c: Config, index: nat, srtp: Octets, capacity: nat) returns (y: Octets)
    requires ConfigOk(c) && NotCombined(c) && UnprotectAead(c, index, srtp, capacity).status == Ok
    ensures ValidRtp(srtp) && KeyForPacket(c, srtp, 0).Some?
    ensures c.mkiSize <= |srtp| && (if LooksClosed(c, srtp) then 16 else AfterHeaders(srtp)) <= |srtp| - c.mkiSize
    ensures var (out, key) := (UnprotectAead(c, index, srtp, capacity).packet, KeyForPacket(c, srtp, 0).value);
            var text := OpenedText(c, key, index, srtp);
            && text.Some? && |text.value| + c.tagLen == |Parts(c, srtp).1|
            && var z := Reopened(c, srtp, text.value);
               && ValidRtp(z) && |out| + c.tagLen + c.mkiSize == |srtp| && out <= y
               && if LooksClosed(c, srtp) then y == z else Extended(c, key, index, z, y)
  {
    AeadTaken(c, index, srtp, capacity);
    var (key, n) := (KeyForPacket(c, srtp, 0).value, |srtp| - c.tagLen - c.mkiSize);
    Places(srtp);
    ClosedIs(c, srtp);
    ClosedHasXtn(c, srtp);
    hide *;
    UnsealedIs(c, key, index, srtp);
    OpenedLength(c, key, index, srtp);
    OpeningRefused(c, key, NonceOf(srtp, index), srtp, n, |srtp| - c.mkiSize);
    var z := Reopened(c, srtp, OpenedText(c, key, index, srtp).value);
    if LooksClosed(c, srtp) {
      ClosedReopened(c, key, index, srtp, n);
      y := z;
    } else {
      PlainReopened(c, key, index, srtp, n);
      y := XtnStep(c, key, NonceOf(z, index), z).body;
    }
  }

  lemma AeadTaken(c: Config, index: nat, srtp: Octets, capacity: nat)
    requires ConfigOk(c) && NotCombined(c) && UnprotectAead(c, index, srtp, capacity).status == Ok
    ensures ValidRtp(srtp) && |srtp| >= FIXED_HEADER && KeyForPacket(c, srtp, 0).Some?
    ensures KeysFit(c, KeyForPacket(c, srtp, 0).value) && c.tagLen + c.mkiSize <= |srtp|
    ensures var (key, n) := (KeyForPacket(c, srtp, 0).value, |srtp| - c.tagLen - c.mkiSize);
            && OpenStart(c, srtp) <= n
            && UnprotectAead(c, index, srtp, capacity) == OpeningAead(c, key, NonceOf(srtp, index), srtp, n, |srtp| - c.mkiSize)
  {
    hide OpeningAead, KeyForPacket, KeysFit, OpenStart, ConfigOk, NotCombined, AcceptingAead, ValidRtp;
    HasKeys(c);
    KeyOfPacket(c, srtp);
    HasHeader(srtp);
    Accepted(c, KeyForPacket(c, srtp, 0).value, NonceOf(srtp, index), srtp, capacity);
  }

  lemma KeyOfPacket(c: Config, srtp: Octets)
    requires ConfigOk(c) && c.keys != []
    ensures KeyForPacket(c, srtp, 0).Some? ==> KeysFit(c, KeyForPacket(c, srtp, 0).value)
  {
    var key := KeyForPacket(c, srtp, 0);
    assert key.Some? ==> key.value in c.keys;
    hide KeyForPacket;
  }

  lemma Accepted(c: Config, key: Keys, nonce: Nonce, srtp: Octets, capacity: nat)
    requires ValidRtp(srtp) && KeysFit(c, key) && AcceptingAead(c, key, nonce, srtp, capacity).status == Ok
    ensures c.tagLen + c.mkiSize <= |srtp|
    ensures var n := |srtp| - c.tagLen - c.mkiSize;
            OpenStart(c, srtp) <= n && AcceptingAead(c, key, nonce, srtp, capacity) == OpeningAead(c, key, nonce, srtp, n, |srtp| - c.mkiSize)
  {
    hide OpeningAead, KeysFit, OpenStart, ValidRtp;
  }

  lemma OpenedLength(c: Config, key: Keys, index: nat, srtp: Octets)
    requires ValidRtp(srtp) && KeysFit(c, key) && c.mkiSize <= |srtp|
    requires (if LooksClosed(c, srtp) then 16 else AfterHeaders(srtp)) <= |srtp| - c.mkiSize
    ensures var text := OpenedText(c, key, index, srtp);
            text.Some? ==> |text.value| + c.tagLen == |Parts(c, srtp).1|
  {
    Places(srtp);
    var o := key.open(Nonce(srtp[8..12], index), Parts(c, srtp).0, Parts(c, srtp).1);
    assert OpenedText(c, key, index, srtp) == o;
    hide ValidRtp, LooksClosed, AfterHeaders, Parts, OpenedText;
  }

  lemma PlainReopened(c: Config, key: Keys, index: nat, srtp: Octets, n: nat)
    requires ValidRtp(srtp) && |srtp| >= FIXED_HEADER && KeysFit(c, key) && n + c.tagLen + c.mkiSize == |srtp|
    requires !LooksClosed(c, srtp) && AfterHeaders(srtp) <= n && OpenedText(c, key, index, srtp).Some?
    requires |OpenedText(c, key, index, srtp).value| <= |Parts(c, srtp).1|
    requires OpenStart(c, srtp) == AfterHeaders(srtp) <= n
    requires OpeningAead(c, key, NonceOf(srtp, index), srtp, n, |srtp| - c.mkiSize).status == Ok
    ensures var z := Reopened(c, srtp, OpenedText(c, key, index, srtp).value);
            && ValidRtp(z) && |z| >= FIXED_HEADER && |z| == |srtp| && Extended(c, key, index, z, XtnStep(c, key, NonceOf(z, index), z).body)
            && OpeningAead(c, key, NonceOf(srtp, index), srtp, n, |srtp| - c.mkiSize).packet
               == XtnStep(c, key, NonceOf(z, index), z).body[..n]
  {
    hide *;
    var text := OpenedText(c, key, index, srtp).value;
    var z := Reopened(c, srtp, text);
    ClosedIs(c, srtp);
    ClosedHasXtn(c, srtp);
    UnsealedIs(c, key, index, srtp);
    PlainLayout(c, srtp, text);
    NonceKept(srtp, z, index);
    PlainIs(c, srtp, text);
    PlainOpening(c, key, NonceOf(srtp, index), srtp, n, |srtp| - c.mkiSize, z);
    StepExtends(c, key, index, z);
  }

  lemma NonceKept(a: Octets, b: Octets, index: nat)
    requires ValidRtp(a) && SameLayout(a, b)
    ensures ValidRtp(b) && |b| >= FIXED_HEADER && |a| >= FIXED_HEADER && NonceOf(b, index) == NonceOf(a, index)
  {
    LayoutKept(a, b);
  }

  lemma PlainIs(c: Config, srtp: Octets, text: Octets)
    requires ValidRtp(srtp) && !LooksClosed(c, srtp) && c.mkiSize <= |srtp| && AfterHeaders(srtp) <= |srtp| - c.mkiSize
    requires |text| <= |Parts(c, srtp).1|
    ensures var p := AfterHeaders(srtp);
            p + |text| <= |srtp| && Reopened(c, srtp, text) == srtp[..p] + text + srtp[p + |text|..]
  {
    hide ValidRtp, LooksClosed, AfterHeaders;
  }

  /** The receiver's side under any other profile. */
  lemma PlainOpening(c: Config, key: Keys, nonce: Nonce, srtp: Octets, n: nat, end: nat, z: Octets)
    requires ValidRtp(srtp) && !CryptexReceived(c, srtp) && KeysFit(c, key) && OpenStart(c, srtp) <= n <= end <= |srtp|
    requires Unsealed(c, key, nonce, srtp, OpenStart(c, srtp), end) == Some(z) && ValidRtp(z) && |z| == |srtp|
    requires OpeningAead(c, key, nonce, srtp, n, end).status == Ok
    ensures var x := XtnStep(c, key, nonce, z); x.ok && OpeningAead(c, key, nonce, srtp, n, end).packet == x.body[..n]
  {
    hide ValidRtp, KeysFit, XtnStep, Unsealed, CryptexReceived, PayloadStart;
  }

  lemma PlainLayout(c: Config, srtp: Octets, text: Octets)
    requires ValidRtp(srtp) && !LooksClosed(c, srtp) && c.mkiSize <= |srtp| && AfterHeaders(srtp) <= |srtp| - c.mkiSize
    requires |text| <= |Parts(c, srtp).1|
    ensures SameLayout(srtp, Reopened(c, srtp, text)) && |Reopened(c, srtp, text)| == |srtp|
  {
    Places(srtp);
    hide LooksClosed;
  }

  lemma ClosedReopened(c: Config, key: Keys, index: nat, srtp: Octets, n: nat)
    requires ValidRtp(srtp) && |srtp| >= FIXED_HEADER && KeysFit(c, key) && n + c.tagLen + c.mkiSize == |srtp|
    requires LooksClosed(c, srtp) && OpenStart(c, srtp) == 16 <= n && OpenedText(c, key, index, srtp).Some?
    requires |OpenedText(c, key, index, srtp).value| <= |Parts(c, srtp).1|
    ensures var z := Reopened(c, srtp, OpenedText(c, key, index, srtp).value);
            && ValidRtp(z) && |z| == |srtp|
            && OpeningAead(c, key, NonceOf(srtp, index), srtp, n, |srtp| - c.mkiSize) == Outcome(Ok, z[..n])
  {
    var text := OpenedText(c, key, index, srtp).value;
    Places(srtp);
    ClosedIs(c, srtp);
    ClosedHasXtn(c, srtp);
    UnsealedIs(c, key, index, srtp);
    RotatedParts(c, srtp);
    var h := HdrLen(srtp);
    PlainNames(srtp[h], srtp[h + 1]);
    assert Profile(srtp) == U16(srtp[h], srtp[h + 1]) && h == AfterCsrcs(srtp) && 12 <= h && h + 4 <= |srtp|;
    var clear := Unsealed(c, key, NonceOf(srtp, index), Rotated(srtp, h), ROTATED_START, |srtp| - c.mkiSize);
    assert IsCryptexProfile(Profile(srtp)) && c.useCryptex && ROTATED_START == 16;
    hide *;
    CryptexOpening(c, key, NonceOf(srtp, index), srtp, n, |srtp| - c.mkiSize);
    ReopenedIs(c, srtp, text, h, PlainProfile(Profile(srtp)), clear.value);
  }

  lemma ReopenedIs(c: Config, srtp: Octets, text: Octets, h: nat, profile: Word16, clear: Octets)
    requires ValidRtp(srtp) && LooksClosed(c, srtp) && c.mkiSize + 16 <= |srtp| && |text| <= |Parts(c, srtp).1|
    requires 12 <= h == AfterCsrcs(srtp) && h + 4 <= |srtp|
    requires Hi(profile) == (if srtp[h] == 0xC0 then 0xBE else 0x10) && Lo(profile) == if srtp[h] == 0xC0 then 0xDE else 0x00
    requires var r := Rotated(srtp, h); clear == r[..16] + text + r[16 + |text|..]
    ensures var z := Reopened(c, srtp, text);
            z == SetProfile(Unrotated(clear, h), h, profile) && |z| == |srtp| && ValidRtp(z)
  {
    var t := text + (srtp[12..h] + srtp[h + 4..])[|text|..];
    ReopenedValid(c, srtp, text, h);
    ReopenedParts(c, srtp, text, h);
    hide *;
    ClearParts(srtp, h, text);
    UnrotatedClear(srtp[..12], srtp[h..h + 4], t, h);
    Renamed(srtp[..12] + t[..h - 12], srtp[h..h + 4], t[h - 12..], h, profile);
    assert srtp[h..h + 4][2..4] == srtp[h + 2..h + 4];
  }

  lemma ReopenedParts(c: Config, srtp: Octets, text: Octets, h: nat)
    requires ValidRtp(srtp) && LooksClosed(c, srtp) && c.mkiSize + 16 <= |srtp| && |text| <= |Parts(c, srtp).1|
    requires 12 <= h == AfterCsrcs(srtp) && h + 4 <= |srtp|
    ensures |text| <= |srtp[12..h] + srtp[h + 4..]|
    ensures var t := text + (srtp[12..h] + srtp[h + 4..])[|text|..];
            && |t| >= h - 12
            && Reopened(c, srtp, text)
               == srtp[..12] + t[..h - 12]
                  + [if srtp[h] == 0xC0 then 0xBE else 0x10, if srtp[h] == 0xC0 then 0xDE else 0x00] + srtp[h + 2..h + 4] + t[h - 12..]
  {
    hide ValidRtp, LooksClosed, AfterCsrcs;
  }

  lemma ClearParts(srtp: Octets, h: nat, text: Octets)
    requires 12 <= h && h + 4 <= |srtp| && 16 + |text| <= |srtp|
    ensures var (r, rest) := (Rotated(srtp, h), srtp[12..h] + srtp[h + 4..]);
            r[..16] + text + r[16 + |text|..] == srtp[..12] + srtp[h..h + 4] + (text + rest[|text|..])
  {
    var (r, rest) := (Rotated(srtp, h), srtp[12..h] + srtp[h + 4..]);
    assert r[..16] == srtp[..12] + srtp[h..h + 4];
    assert r[16 + |text|..] == rest[|text|..];
    hide Rotated;
  }

  lemma UnrotatedClear(fixed: Octets, header: Octets, t: Octets, h: nat)
    requires |fixed| == 12 && |header| == 4 && 12 <= h && |t| >= h - 12
    ensures Unrotated(fixed + header + t, h) == fixed + t[..h - 12] + header + t[h - 12..]
  {
  }

  lemma ReopenedValid(c: Config, srtp: Octets, text: Octets, h: nat)
    requires ValidRtp(srtp) && LooksClosed(c, srtp) && c.mkiSize + 16 <= |srtp| && |text| <= |Parts(c, srtp).1|
    requires 12 <= h == AfterCsrcs(srtp) && h + 4 <= |srtp|
    ensures ValidRtp(Reopened(c, srtp, text)) && |Reopened(c, srtp, text)| == |srtp|
  {
    var z := Reopened(c, srtp, text);
    assert z[0] == srtp[0];
    assert z[h + 2] == srtp[h + 2] && z[h + 3] == srtp[h + 3];
    ValidIff(srtp);
    ValidIff(z);
    hide LooksClosed, ValidRtp;
  }

  lemma Renamed(front: Octets, header: Octets, back: Octets, h: nat, profile: Word16)
    requires |front| == h && |header| == 4
    ensures SetProfile(front + header + back, h, profile) == front + [Hi(profile), Lo(profile)] + header[2..4] + back
  {
  }

  // ----- Statuses -----

  lemma AeadBodyIff(c: Config, key: Keys, index: nat, pkt: Octets)
    requires ValidRtp(pkt) && Headed(pkt) && KeysFit(c, key)
    ensures AeadBody(c, key, NonceOf(pkt, index), pkt).None? <==> CannotWalk(c, key, index, pkt) || CannotRename(c, pkt)
  {
    var y := XtnStep(c, key, NonceOf(pkt, index), pkt).body;
    LayoutKept(pkt, y);
    WalksIff(c, key, index, pkt);
    RenamesIff(c, key, NonceOf(pkt, index), pkt, y);
    ClosedIff(c, key, NonceOf(pkt, index), y);
    hide XtnStep, Encrypted, CannotWalk, CannotRename, Headed, ValidRtp, Closed, KeysFit;
  }

  lemma ClosedIff(c: Config, key: Keys, nonce: Nonce, y: Octets)
    requires ValidRtp(y) && KeysFit(c, key)
    ensures Closed(c, key, nonce, y).None? <==> Encrypted(c, key, nonce, y).None?
  {
    hide KeysFit, Sealed, InPlace, SetProfile, XorRange, Rotated, Unrotated;
  }

  /** Protect with an AEAD cipher ends as it does in counter mode. */
  lemma StatusesAgree(c: Config, mkiIndex: nat, index: nat, pkt: Octets, capacity: nat, after: Octets)
    requires ConfigOk(c) && c.keys != [] && capacity <= |pkt| + |after|
    ensures ProtectAead(c, mkiIndex, index, pkt, capacity).status == ProtectCtr(c, mkiIndex, index, pkt, capacity, after).status
  {
    HeadedIs(pkt);
    if ValidRtp(pkt) && KeyForIndex(c, mkiIndex).Some? {
      var key := KeyForIndex(c, mkiIndex).value;
      KeyFits(c, mkiIndex);
      HasHeader(pkt);
      AeadBodyIff(c, key, index, pkt);
      BodyIff(c, key, index, pkt);
    }
    hide CtrBody, AeadBody, CannotWalk, CannotRename, Headed, ValidRtp, KeyForIndex, Tag, KeysFit, ConfigOk, CryptexRefused;
  }

  /** How unprotect ends. A packet that is too short for MKI and tag is refused by the cipher if the MKI alone would
      fit behind the headers, and for its size otherwise. */
  lemma UnprotectAeadStatus(c: Config, index: nat, srtp: Octets, capacity: nat)
    requires ConfigOk(c) && NotCombined(c) && c.keys != []
    ensures Headed(srtp) == ValidRtp(srtp)
    ensures var (status, n, key) := (UnprotectAead(c, index, srtp, capacity).status, |srtp| - c.tagLen - c.mkiSize, KeyForPacket(c, srtp, 0));
            && (!Headed(srtp) ==> status == BadParam)
            && (Headed(srtp) && key.None? ==> status == BadMki)
            && (Headed(srtp) && key.Some? ==>
                  var start := if LooksClosed(c, srtp) then 16 else AfterHeaders(srtp);
                  && (n < 0 ==> status == if start + c.mkiSize <= |srtp| then CipherFail else BufferSmall)
                  && (0 <= n < start ==> status == ParseErr)
                  && (start <= n && capacity < n ==> status == BufferSmall)
                  && (start <= n <= capacity ==> (status == AuthFail <==> OpenedText(c, key.value, index, srtp).None?)))
  {
    HeadedIs(srtp);
    if ValidRtp(srtp) && KeyForPacket(c, srtp, 0).Some? {
      ClosedIs(c, srtp);
      HasHeader(srtp);
      KeyOfPacket(c, srtp);
      var n := |srtp| - c.tagLen - c.mkiSize;
      if (if LooksClosed(c, srtp) then 16 else AfterHeaders(srtp)) <= n <= capacity {
        AeadRefused(c, index, srtp, capacity, n);
      }
      hide ConfigOk, NotCombined, KeysFit, Headed, ValidRtp, KeyForPacket, LooksClosed, OpenStart, AfterHeaders, OpeningAead, OpenedText;
    }
  }
}
