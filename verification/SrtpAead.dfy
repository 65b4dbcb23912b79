/** The AEAD transforms (srtp_protect_aead, srtp_unprotect_aead in srtp.c) and their round trip. */
module SrtpAead {
  import opened Bytes
  import opened SrtpPacket
  import opened SrtpCryptex
  import opened SrtpTransform
  import opened SrtpRoundTrip

  /** Header-extension encryption and Cryptex are not used together. */
  predicate NotCombined(c: Config)
  {
    c.useCryptex ==> forall i :: 0 <= i < |c.keys| ==> c.keys[i].xtnStream.None?
  }

  // ----- Protect -----

  /** Everything before `start` is associated data, everything from there is sealed. */
  function Sealed(c: Config, key: Keys, nonce: Nonce, pkt: Octets, start: nat): (r: Octets)
    requires start <= |pkt| && KeysFit(c, key)
    ensures |r| == |pkt| + c.tagLen
  {
    pkt[..start] + key.seal(nonce, pkt[..start], pkt[start..])
  }

  /** None when Cryptex cannot name the profile. */
  function Closed(c: Config, key: Keys, nonce: Nonce, pkt: Octets): (r: Option<Octets>)
    requires ValidRtp(pkt) && KeysFit(c, key)
    ensures r.Some? ==> |r.value| == |pkt| + c.tagLen
  {
    var h := HdrLen(pkt);
    if CryptexSent(c, pkt) then
      match CryptexProfile(Profile(pkt))
      case None => None
      case Some(p) => Some(Unrotated(Sealed(c, key, nonce, Rotated(SetProfile(pkt, h, p), h), ROTATED_START), h))
    else Some(Sealed(c, key, nonce, pkt, PayloadStart(pkt)))
  }

  function AeadBody(c: Config, key: Keys, nonce: Nonce, pkt: Octets): (r: Option<Octets>)
    requires ValidRtp(pkt) && KeysFit(c, key)
    ensures r.Some? ==> |r.value| == |pkt| + c.tagLen
  {
    var x := XtnStep(c, key, nonce, pkt);
    if !x.ok then None else Closed(c, key, nonce, x.body)
  }

  function ProtectAead(c: Config, mkiIndex: nat, index: nat, pkt: Octets, capacity: nat): Outcome
    requires ConfigOk(c)
  {
    if !ValidRtp(pkt) then Failed(BadParam)
    else if KeyForIndex(c, mkiIndex).None? then Failed(BadMki)
    else if capacity < |pkt| + c.tagLen + c.mkiSize then Failed(BufferSmall)
    else if CryptexRefused(c, pkt) then Failed(CryptexErr)
    else
      var key, nonce := KeyForIndex(c, mkiIndex).value, NonceOf(pkt, index);
      match AeadBody(c, key, nonce, pkt)
      case None => Failed(ParseErr)
      case Some(body) => Outcome(Ok, body + key.mkiId)
  }

  // ----- Unprotect -----

  /** The packet with the sealed part opened in place; the cipher leaves the tag where it was. */
  function Unsealed(c: Config, key: Keys, nonce: Nonce, srtp: Octets, start: nat, end: nat): (r: Option<Octets>)
    requires start <= end <= |srtp| && KeysFit(c, key)
    ensures r.Some? ==> |r.value| == |srtp| && forall i :: 0 <= i < start ==> r.value[i] == srtp[i]
  {
    match key.open(nonce, srtp[..start], srtp[start..end])
    case None => None
    case Some(text) => Some(srtp[..start] + text + srtp[start + |text|..])
  }

  function OpeningCryptex(c: Config, key: Keys, nonce: Nonce, srtp: Octets, n: nat, end: nat): Outcome
    requires ValidRtp(srtp) && HasXtn(srtp) && ROTATED_START <= n <= end <= |srtp| && KeysFit(c, key)
  {
    var h := HdrLen(srtp);
    match Unsealed(c, key, nonce, Rotated(srtp, h), ROTATED_START, end)
    case None => Failed(AuthFail)
    case Some(clear) => Outcome(Ok, SetProfile(Unrotated(clear, h), h, PlainProfile(Profile(srtp)))[..n])
  }

  function OpeningPlain(c: Config, key: Keys, nonce: Nonce, srtp: Octets, n: nat, end: nat): Outcome
    requires ValidRtp(srtp) && PayloadStart(srtp) <= n <= end <= |srtp| && KeysFit(c, key)
  {
    match Unsealed(c, key, nonce, srtp, PayloadStart(srtp), end)
    case None => Failed(AuthFail)
    case Some(clear) =>
      LayoutKept(srtp, clear);
      var x := XtnStep(c, key, nonce, clear);
      if !x.ok then Failed(ParseErr) else Outcome(Ok, x.body[..n])
  }

  function OpeningAead(c: Config, key: Keys, nonce: Nonce, srtp: Octets, n: nat, end: nat): Outcome
    requires ValidRtp(srtp) && OpenStart(c, srtp) <= n <= end <= |srtp| && KeysFit(c, key)
  {
    if CryptexReceived(c, srtp) then OpeningCryptex(c, key, nonce, srtp, n, end)
    else OpeningPlain(c, key, nonce, srtp, n, end)
  }

  function UnprotectAead(c: Config, index: nat, srtp: Octets, capacity: nat): Outcome
    requires ConfigOk(c) && NotCombined(c)
  {
    if !ValidRtp(srtp) then Failed(BadParam)
    else if KeyForPacket(c, srtp, 0).None? then Failed(BadMki)
    else AcceptingAead(c, KeyForPacket(c, srtp, 0).value, NonceOf(srtp, index), srtp, capacity)
  }

  /** What follows the choice of the key. */
  function AcceptingAead(c: Config, key: Keys, nonce: Nonce, srtp: Octets, capacity: nat): Outcome
    requires ValidRtp(srtp) && KeysFit(c, key)
  {
    if |srtp| < c.tagLen + c.mkiSize then
      // The sizes wrap: only the length of the encrypted part can still show it.
      Failed(if OpenStart(c, srtp) + c.mkiSize <= |srtp| then CipherFail else BufferSmall)
    else
      var n := |srtp| - c.tagLen - c.mkiSize;
      if OpenStart(c, srtp) > n then Failed(ParseErr)
      else if capacity < n then Failed(BufferSmall)
      else OpeningAead(c, key, nonce, srtp, n, |srtp| - c.mkiSize)
  }

  // ----- The round trip -----

  lemma RotateUnrotated(pkt: Octets, h: nat)
    requires FIXED_HEADER <= h && h + XTN_HEADER <= |pkt|
    ensures Rotated(Unrotated(pkt, h), h) == pkt
  {
    assert pkt == pkt[..FIXED_HEADER] + pkt[FIXED_HEADER..ROTATED_START] + pkt[ROTATED_START..h + XTN_HEADER]
                  + pkt[h + XTN_HEADER..];
  }

  /** Opening what was sealed, whatever follows it in the buffer. */
  lemma UnsealSealed(c: Config, key: Keys, nonce: Nonce, pkt: Octets, start: nat, after: Octets)
    requires start <= |pkt| && KeysFit(c, key) && AeadLaw(key)
    ensures var sealed := Sealed(c, key, nonce, pkt, start);
            var back := Unsealed(c, key, nonce, sealed + after, start, |sealed|);
            back.Some? && |back.value| >= |pkt| && back.value[..|pkt|] == pkt
  {
    var aad, text := pkt[..start], pkt[start..];
    var cipher := key.seal(nonce, aad, text);
    var sealed := aad + cipher;
    assert (sealed + after)[..start] == aad && (sealed + after)[start..|sealed|] == cipher;
    assert key.open(nonce, aad, cipher) == Some(text);
    assert aad + text == pkt;
  }

  lemma FrontLayout(a: Octets, b: Octets, p: nat)
    requires ValidRtp(a) && LayoutEnd(a) <= p <= |a| <= |b| && b[..p] == a[..p]
    ensures SameLayout(a, b)
  {
    forall i | 0 <= i < LayoutEnd(a) ensures b[i] == a[i] {
      assert b[i] == b[..p][i];
    }
  }

  lemma LayoutInHeaders(pkt: Octets)
    requires ValidRtp(pkt)
    ensures LayoutEnd(pkt) <= PayloadStart(pkt)
  {
  }

  /** Walking the extension of a packet that begins as the processed one does restores it. */
  lemma StepRestores(c: Config, key: Keys, nonce: Nonce, pkt: Octets, b: Octets)
    requires ValidRtp(pkt) && XtnStep(c, key, nonce, pkt).ok
    requires |b| >= |pkt| && b[..|pkt|] == XtnStep(c, key, nonce, pkt).body
    ensures ValidRtp(b) && XtnStep(c, key, nonce, b).ok && XtnStep(c, key, nonce, b).body[..|pkt|] == pkt
  {
    var x := XtnStep(c, key, nonce, pkt).body;
    hide XtnStep, ValidRtp, HasXtn, HdrLen, XtnLen;
    forall i | 0 <= i < |pkt| ensures b[i] == x[i] { assert b[i] == b[..|pkt|][i]; }
    LayoutKept(pkt, x);
    LayoutKept(pkt, b);
    StepAgain(c, key, nonce, pkt, b);
    StepOutside(c, key, nonce, pkt);
  }

  lemma SealedFront(c: Config, key: Keys, nonce: Nonce, pkt: Octets, start: nat, after: Octets)
    requires start <= |pkt| && KeysFit(c, key)
    ensures var srtp := Sealed(c, key, nonce, pkt, start) + after; |srtp| >= |pkt| && srtp[..start] == pkt[..start]
  {
  }

  /** Without Cryptex the receiver sees the headers the sender sent. */
  lemma PlainArrives(c: Config, key: Keys, nonce: Nonce, pkt: Octets, after: Octets)
    requires ValidRtp(pkt) && KeysFit(c, key)
    ensures var x := XtnStep(c, key, nonce, pkt).body;
            var srtp := Sealed(c, key, nonce, x, PayloadStart(pkt)) + after;
            SameLayout(pkt, srtp) && ValidRtp(srtp) && PayloadStart(srtp) == PayloadStart(pkt)
            && CryptexReceived(c, srtp) == CryptexReceived(c, pkt) && NonceOf(srtp, 0) == NonceOf(pkt, 0)
  {
    var x, p := XtnStep(c, key, nonce, pkt).body, PayloadStart(pkt);
    var srtp := Sealed(c, key, nonce, x, p) + after;
    hide XtnStep, Sealed, ValidRtp, PayloadStart, CryptexReceived;
    LayoutInHeaders(pkt);
    LookKept(c, pkt, x);
    LayoutKept(pkt, x);
    SealedFront(c, key, nonce, x, p, after);
    FrontLayout(x, srtp, p);
    LayoutChain(pkt, x, srtp);
    LookKept(c, pkt, srtp);
    LayoutKept(pkt, srtp);
  }

  lemma PlainBody(c: Config, key: Keys, nonce: Nonce, pkt: Octets)
    requires ValidRtp(pkt) && KeysFit(c, key) && !CryptexSent(c, pkt) && AeadBody(c, key, nonce, pkt).Some?
    ensures XtnStep(c, key, nonce, pkt).ok
    ensures AeadBody(c, key, nonce, pkt).value
         == Sealed(c, key, nonce, XtnStep(c, key, nonce, pkt).body, PayloadStart(pkt))
  {
    LayoutKept(pkt, XtnStep(c, key, nonce, pkt).body);
    hide XtnStep, Sealed;
  }

  lemma PlainBack(c: Config, key: Keys, nonce: Nonce, pkt: Octets, after: Octets)
    requires ValidRtp(pkt) && KeysFit(c, key) && AeadLaw(key)
    requires !CryptexSent(c, pkt) && !CryptexReceived(c, pkt) && AeadBody(c, key, nonce, pkt).Some?
    ensures var srtp := AeadBody(c, key, nonce, pkt).value + after;
            ValidRtp(srtp) && NonceOf(srtp, 0) == NonceOf(pkt, 0) && OpenStart(c, srtp) <= |pkt|
            && OpeningAead(c, key, nonce, srtp, |pkt|, |srtp| - |after|) == Outcome(Ok, pkt)
  {
    PlainBody(c, key, nonce, pkt);
    PlainArrives(c, key, nonce, pkt, after);
    hide AeadBody, ValidRtp, XtnStep, PayloadStart, CryptexReceived, Sealed, Unsealed, KeysFit, AeadLaw, NonceOf;
    var x, p := XtnStep(c, key, nonce, pkt).body, PayloadStart(pkt);
    var sealed := Sealed(c, key, nonce, x, p);
    UnsealSealed(c, key, nonce, x, p, after);
    StepRestores(c, key, nonce, pkt, Unsealed(c, key, nonce, sealed + after, p, |sealed|).value);
  }

  // With Cryptex

  lemma CryptexBody(c: Config, key: Keys, nonce: Nonce, pkt: Octets)
    requires ValidRtp(pkt) && KeysFit(c, key) && CryptexSent(c, pkt) && key.xtnStream.None?
    requires AeadBody(c, key, nonce, pkt).Some?
    ensures CryptexProfile(Profile(pkt)).Some?
    ensures var h, p := HdrLen(pkt), CryptexProfile(Profile(pkt)).value;
            AeadBody(c, key, nonce, pkt).value
            == Unrotated(Sealed(c, key, nonce, Rotated(SetProfile(pkt, h, p), h), ROTATED_START), h)
  {
    hide Sealed, Rotated, Unrotated, SetProfile;
  }

  /** What the receiver sees of the headers: rotated, they are associated data. */
  lemma CryptexHeaders(pkt: Octets, p: Word16, rotated: Octets, srtp: Octets)
    requires ValidRtp(pkt) && HasXtn(pkt) && |rotated| >= |pkt| && |srtp| == |rotated|
    requires var h := HdrLen(pkt);
             srtp == Unrotated(rotated, h)
             && rotated[..ROTATED_START] == Rotated(SetProfile(pkt, h, p), h)[..ROTATED_START]
    ensures ValidRtp(srtp) && HasXtn(srtp) && HdrLen(srtp) == HdrLen(pkt) && Profile(srtp) == p
    ensures NonceOf(srtp, 0) == NonceOf(pkt, 0)
  {
    var h := HdrLen(pkt);
    var renamed := SetProfile(pkt, h, p);
    forall i | 0 <= i < FIXED_HEADER || h <= i < h + XTN_HEADER ensures srtp[i] == renamed[i] {
      RotatedAt(rotated, h, i);
      RotatedAt(renamed, h, i);
      var j := RotatedIndex(h, i);
      assert rotated[j] == rotated[..ROTATED_START][j];
      assert Rotated(renamed, h)[j] == Rotated(renamed, h)[..ROTATED_START][j];
    }
    ProfileFree(pkt, srtp, p);
  }

  lemma CryptexBack(c: Config, key: Keys, nonce: Nonce, pkt: Octets, after: Octets)
    requires ValidRtp(pkt) && KeysFit(c, key) && AeadLaw(key)
    requires CryptexSent(c, pkt) && key.xtnStream.None? && AeadBody(c, key, nonce, pkt).Some?
    ensures var srtp := AeadBody(c, key, nonce, pkt).value + after;
            ValidRtp(srtp) && NonceOf(srtp, 0) == NonceOf(pkt, 0) && OpenStart(c, srtp) <= |pkt|
            && OpeningAead(c, key, nonce, srtp, |pkt|, |srtp| - |after|) == Outcome(Ok, pkt)
  {
    hide AeadBody, Sealed, Unsealed, Rotated, Unrotated, KeysFit, AeadLaw, SetProfile, CryptexProfile, PlainProfile, ValidRtp,
      HdrLen, CryptexSent, CryptexReceived, Profile, NonceOf, OpeningAead, OpenStart, HasXtn, IsCryptexProfile;
    CryptexSentParts(c, pkt);
    CryptexBody(c, key, nonce, pkt);
    ProfileBack(pkt);
    var h, p := HdrLen(pkt), CryptexProfile(Profile(pkt)).value;
    var rotated := Rotated(SetProfile(pkt, h, p), h);
    var sealed := Sealed(c, key, nonce, rotated, ROTATED_START);
    var srtp := Unrotated(sealed, h) + after;
    UnrotatedAppend(sealed, after, h);
    SealedFront(c, key, nonce, rotated, ROTATED_START, after);
    CryptexHeaders(pkt, p, sealed + after, srtp);
    RotatedAppend(Unrotated(sealed, h), after, h);
    RotateUnrotated(sealed, h);
    UnsealSealed(c, key, nonce, rotated, ROTATED_START, after);
    var clear := Unsealed(c, key, nonce, sealed + after, ROTATED_START, |sealed|).value;
    CryptexCleared(pkt, p, clear);
    CryptexOpening(c, key, nonce, srtp, |pkt|, |sealed|);
  }

  lemma CryptexSentParts(c: Config, pkt: Octets)
    requires ValidRtp(pkt) && CryptexSent(c, pkt)
    ensures HasXtn(pkt) && FIXED_HEADER <= HdrLen(pkt) && HdrLen(pkt) + XTN_HEADER <= |pkt| && ROTATED_START <= |pkt| && c.useCryptex
  {
  }

  /** The receiver's side under a Cryptex profile. */
  lemma CryptexOpening(c: Config, key: Keys, nonce: Nonce, srtp: Octets, n: nat, end: nat)
    requires ValidRtp(srtp) && HasXtn(srtp) && IsCryptexProfile(Profile(srtp)) && c.useCryptex && KeysFit(c, key)
    requires ROTATED_START <= n <= end <= |srtp|
    ensures OpenStart(c, srtp) <= n
    ensures var h := HdrLen(srtp);
            var clear := Unsealed(c, key, nonce, Rotated(srtp, h), ROTATED_START, end);
            OpeningAead(c, key, nonce, srtp, n, end)
            == if clear.None? then Failed(AuthFail)
               else Outcome(Ok, SetProfile(Unrotated(clear.value, h), h, PlainProfile(Profile(srtp)))[..n])
  {
    hide Sealed, Unsealed, Rotated, Unrotated, KeysFit, SetProfile, PlainProfile;
  }

  /** Rotating back and naming the plain profile completes the packet. */
  lemma CryptexCleared(pkt: Octets, p: Word16, clear: Octets)
    requires ValidRtp(pkt) && HasXtn(pkt) && |clear| >= |pkt| && CryptexProfile(Profile(pkt)) == Some(p)
    requires clear[..|pkt|] == Rotated(SetProfile(pkt, HdrLen(pkt), p), HdrLen(pkt))
    ensures SetProfile(Unrotated(clear, HdrLen(pkt)), HdrLen(pkt), PlainProfile(p))[..|pkt|] == pkt
  {
    var h := HdrLen(pkt);
    var renamed := SetProfile(pkt, h, p);
    ProfileBack(pkt);
    hide Rotated, Unrotated, SetProfile, CryptexProfile, PlainProfile, ValidRtp, HdrLen, Profile;
    assert clear == clear[..|pkt|] + clear[|pkt|..];
    UnrotatedAppend(Rotated(renamed, h), clear[|pkt|..], h);
    UnrotateRotated(renamed, h);
    RenamedAgain(pkt, h, p, PlainProfile(p), clear[|pkt|..]);
  }

  lemma RenamedAgain(pkt: Octets, h: nat, p: Word16, q: Word16, after: Octets)
    requires h + XTN_HEADER <= |pkt|
    ensures SetProfile(SetProfile(pkt, h, p) + after, h, q)[..|pkt|] == SetProfile(pkt, h, q)
  {
    hide SetProfile;
    var a, b := SetProfile(SetProfile(pkt, h, p) + after, h, q), SetProfile(pkt, h, q);
    forall i | 0 <= i < |pkt| ensures a[i] == b[i] {}
  }

  lemma KeyFits(c: Config, mkiIndex: nat)
    requires ConfigOk(c) && KeyForIndex(c, mkiIndex).Some?
    ensures KeysFit(c, KeyForIndex(c, mkiIndex).value)
    ensures NotCombined(c) && c.useCryptex ==> KeyForIndex(c, mkiIndex).value.xtnStream.None?
  {
  }

  lemma KeyAtEnd(c: Config, mkiIndex: nat, body: Octets)
    requires ConfigOk(c) && KeyForIndex(c, mkiIndex).Some?
    ensures |KeyForIndex(c, mkiIndex).value.mkiId| == c.mkiSize
    ensures |body + KeyForIndex(c, mkiIndex).value.mkiId| == |body| + c.mkiSize
    ensures KeyForPacket(c, body + KeyForIndex(c, mkiIndex).value.mkiId, 0) == KeyForIndex(c, mkiIndex)
  {
    KeyFits(c, mkiIndex);
    var mki := KeyForIndex(c, mkiIndex).value.mkiId;
    assert (body + mki)[|body|..] == mki;
    KeyAgreed(c, mkiIndex, body + mki, 0);
  }

  /** Unprotecting a packet whose key is known and whose parts fit. */
  lemma UnprotectedAead(c: Config, index: nat, srtp: Octets, room: nat, key: Keys, n: nat)
    requires ConfigOk(c) && NotCombined(c) && ValidRtp(srtp) && KeyForPacket(c, srtp, 0) == Some(key) && KeysFit(c, key)
    requires n + c.tagLen + c.mkiSize == |srtp| && OpenStart(c, srtp) <= n <= room
    ensures UnprotectAead(c, index, srtp, room)
         == OpeningAead(c, key, NonceOf(srtp, index), srtp, n, |srtp| - c.mkiSize)
  {
    hide OpeningAead, ValidRtp, OpenStart, KeysFit, ConfigOk, KeyForPacket, NotCombined;
  }

  lemma ProtectedBody(c: Config, mkiIndex: nat, index: nat, pkt: Octets, capacity: nat)
    requires ConfigOk(c) && ProtectAead(c, mkiIndex, index, pkt, capacity).status == Ok
    ensures ValidRtp(pkt) && KeyForIndex(c, mkiIndex).Some? && KeysFit(c, KeyForIndex(c, mkiIndex).value)
    ensures var key := KeyForIndex(c, mkiIndex).value;
            var body := AeadBody(c, key, NonceOf(pkt, index), pkt);
            body.Some? && ProtectAead(c, mkiIndex, index, pkt, capacity).packet == body.value + key.mkiId
  {
    var result := ProtectAead(c, mkiIndex, index, pkt, capacity);
    if KeyForIndex(c, mkiIndex).Some? { KeyFits(c, mkiIndex); }
    hide AeadBody, ConfigOk, KeysFit, KeyForIndex, ValidRtp;
  }

  /** In place, with equal keys and packet index and an AEAD cipher that meets its law, unprotect after
      protect succeeds with the exact octets and length - unless the stream is clear but set up for Cryptex
      and the packet already carries a Cryptex profile, and then never. */
  lemma AeadRoundTrip(c: Config, mkiIndex: nat, index: nat, pkt: Octets, capacity: nat, room: nat)
    requires ConfigOk(c) && NotCombined(c) && room >= |pkt|
    requires ProtectAead(c, mkiIndex, index, pkt, capacity).status == Ok
    requires KeyForIndex(c, mkiIndex).Some? ==> AeadLaw(KeyForIndex(c, mkiIndex).value)
    ensures ValidRtp(pkt)
    ensures UnprotectAead(c, index, ProtectAead(c, mkiIndex, index, pkt, capacity).packet, room) == Outcome(Ok, pkt)
       <==> (CryptexReceived(c, pkt) ==> c.conf)
    ensures |ProtectAead(c, mkiIndex, index, pkt, capacity).packet| == |pkt| + c.tagLen + c.mkiSize
  {
    ProtectedBody(c, mkiIndex, index, pkt, capacity);
    KeyFits(c, mkiIndex);
    hide *;
    var body := AeadBody(c, KeyForIndex(c, mkiIndex).value, NonceOf(pkt, index), pkt).value;
    KeyAtEnd(c, mkiIndex, body);
    if CryptexReceived(c, pkt) ==> c.conf {
      SentBack(c, mkiIndex, index, pkt, body, room);
    } else {
      LookalikeLost(c, mkiIndex, index, pkt, body, room);
    }
  }

  lemma SentBack(c: Config, mkiIndex: nat, index: nat, pkt: Octets, body: Octets, room: nat)
    requires ConfigOk(c) && NotCombined(c) && room >= |pkt| && ValidRtp(pkt) && KeyForIndex(c, mkiIndex).Some?
    requires KeysFit(c, KeyForIndex(c, mkiIndex).value) && AeadLaw(KeyForIndex(c, mkiIndex).value)
    requires CryptexReceived(c, pkt) ==> c.conf
    requires c.useCryptex ==> KeyForIndex(c, mkiIndex).value.xtnStream.None?
    requires AeadBody(c, KeyForIndex(c, mkiIndex).value, NonceOf(pkt, index), pkt) == Some(body)
    ensures var srtp := body + KeyForIndex(c, mkiIndex).value.mkiId;
            UnprotectAead(c, index, srtp, room) == Outcome(Ok, pkt)
  {
    hide *;
    HasHeader(pkt);
    HasKeys(c);
    var key, nonce := KeyForIndex(c, mkiIndex).value, NonceOf(pkt, index);
    var srtp := body + key.mkiId;
    KeyAtEnd(c, mkiIndex, body);
    BodyBack(c, key, nonce, pkt, key.mkiId);
    NonceAgreed(pkt, srtp, index);
    UnprotectedAead(c, index, srtp, room, key, |pkt|);
  }

  // A clear packet that looks like Cryptex

  /** Whatever comes out of the cipher, the receiver has renamed the profile. */
  lemma RenamedDiffers(c: Config, key: Keys, nonce: Nonce, pkt: Octets, srtp: Octets, n: nat, end: nat)
    requires ValidRtp(pkt) && CryptexReceived(c, pkt) && n == |pkt| && KeysFit(c, key)
    requires ValidRtp(srtp) && SameLayout(pkt, srtp) && CryptexReceived(c, srtp) && OpenStart(c, srtp) <= n <= end <= |srtp|
    ensures OpeningAead(c, key, nonce, srtp, n, end) != Outcome(Ok, pkt)
  {
    hide KeysFit, OpeningAead, PlainProfile;
    LayoutKept(pkt, srtp);
    RenamedProfile(c, key, nonce, srtp, n, end);
    PlainIsOther(Profile(pkt));
  }

  lemma RenamedProfile(c: Config, key: Keys, nonce: Nonce, srtp: Octets, n: nat, end: nat)
    requires ValidRtp(srtp) && CryptexReceived(c, srtp) && OpenStart(c, srtp) <= n <= end <= |srtp| && KeysFit(c, key)
    requires HdrLen(srtp) + XTN_HEADER <= n
    ensures var (o, h) := (OpeningAead(c, key, nonce, srtp, n, end), HdrLen(srtp));
            o.status == Ok ==> |o.packet| == n && U16(o.packet[h], o.packet[h + 1]) == PlainProfile(Profile(srtp))
  {
    hide KeysFit, Unsealed, Rotated, Unrotated, PlainProfile, SetProfile;
    var h := HdrLen(srtp);
    var front := Unsealed(c, key, nonce, Rotated(srtp, h), ROTATED_START, end);
    if front.Some? {
      ProfileSet(Unrotated(front.value, h), h, PlainProfile(Profile(srtp)));
    }
  }

  lemma ProfileSet(pkt: Octets, h: nat, p: Word16)
    requires h + XTN_HEADER <= |pkt|
    ensures U16(SetProfile(pkt, h, p)[h], SetProfile(pkt, h, p)[h + 1]) == p
  {
    U16HiLo(p);
  }

  lemma PlainIsOther(p: Word16)
    requires IsCryptexProfile(p)
    ensures PlainProfile(p) != p
  {
  }

  lemma LookalikeLost(c: Config, mkiIndex: nat, index: nat, pkt: Octets, body: Octets, room: nat)
    requires ConfigOk(c) && NotCombined(c) && room >= |pkt| && ValidRtp(pkt) && KeyForIndex(c, mkiIndex).Some?
    requires KeysFit(c, KeyForIndex(c, mkiIndex).value) && CryptexReceived(c, pkt) && !c.conf
    requires AeadBody(c, KeyForIndex(c, mkiIndex).value, NonceOf(pkt, index), pkt) == Some(body)
    ensures var srtp := body + KeyForIndex(c, mkiIndex).value.mkiId;
            UnprotectAead(c, index, srtp, room) != Outcome(Ok, pkt)
  {
    hide *;
    HasHeader(pkt);
    HasKeys(c);
    var key, nonce := KeyForIndex(c, mkiIndex).value, NonceOf(pkt, index);
    var srtp := body + key.mkiId;
    KeyAtEnd(c, mkiIndex, body);
    ClearNotSent(c, pkt);
    PlainBody(c, key, nonce, pkt);
    PlainArrives(c, key, nonce, pkt, key.mkiId);
    NonceAgreed(pkt, srtp, index);
    LookalikeStart(c, pkt, srtp);
    UnprotectedAead(c, index, srtp, room, key, |pkt|);
    RenamedDiffers(c, key, nonce, pkt, srtp, |pkt|, |srtp| - c.mkiSize);
  }

  lemma ClearNotSent(c: Config, pkt: Octets)
    requires ValidRtp(pkt) && !c.conf
    ensures !CryptexSent(c, pkt)
  {
  }

  lemma LookalikeStart(c: Config, pkt: Octets, srtp: Octets)
    requires ValidRtp(pkt) && SameLayout(pkt, srtp) && ValidRtp(srtp) && CryptexReceived(c, srtp)
    ensures OpenStart(c, srtp) <= |pkt|
  {
    LayoutKept(pkt, srtp);
  }

  lemma NonceAgreed(a: Octets, b: Octets, index: nat)
    requires |a| >= FIXED_HEADER && |b| >= FIXED_HEADER && NonceOf(a, 0) == NonceOf(b, 0)
    ensures NonceOf(a, index) == NonceOf(b, index)
  {
  }

  lemma BodyBack(c: Config, key: Keys, nonce: Nonce, pkt: Octets, after: Octets)
    requires ValidRtp(pkt) && KeysFit(c, key) && AeadLaw(key)
    requires CryptexReceived(c, pkt) ==> c.conf
    requires c.useCryptex ==> key.xtnStream.None?
    requires AeadBody(c, key, nonce, pkt).Some?
    ensures var srtp := AeadBody(c, key, nonce, pkt).value + after;
            ValidRtp(srtp) && NonceOf(srtp, 0) == NonceOf(pkt, 0) && OpenStart(c, srtp) <= |pkt|
            && OpeningAead(c, key, nonce, srtp, |pkt|, |srtp| - |after|) == Outcome(Ok, pkt)
  {
    if CryptexSent(c, pkt) {
      hide AeadBody, KeysFit, AeadLaw, OpeningAead, ValidRtp;
      CryptexBack(c, key, nonce, pkt, after);
    } else {
      assert !CryptexReceived(c, pkt);
      hide AeadBody, KeysFit, AeadLaw, OpeningAead, ValidRtp;
      PlainBack(c, key, nonce, pkt, after);
    }
  }
}
