/** Unprotecting what was protected (section 3.3 of RFC 3711). */
module SrtpRoundTrip {
  import opened Bytes
  import opened SrtpPacket
  import opened SrtpHeaderExt
  import opened SrtpCryptex
  import opened SrtpTransform

  // ----- Header extensions -----

  /** Octets of the extension body. */
  predicate InXtnBody(pkt: Octets, i: nat)
    requires ValidRtp(pkt)
  {
    HasXtn(pkt) && HdrLen(pkt) + XTN_HEADER <= i < HdrLen(pkt) + XtnLen(pkt)
  }

  predicate SameXtnBody(a: Octets, b: Octets)
    requires ValidRtp(a)
  {
    |a| <= |b| && forall i :: 0 <= i < |a| && InXtnBody(a, i) ==> b[i] == a[i]
  }

  lemma XtnBodyOf(a: Octets, b: Octets)
    requires ValidRtp(a) && HasXtn(a) && SameLayout(a, b) && SameXtnBody(a, b)
    ensures ValidRtp(b) && HasXtn(b) && XtnBody(b) == XtnBody(a)
  {
    LayoutKept(a, b);
  }

  lemma SplicedBody(pkt: Octets, part: Octets)
    requires ValidRtp(pkt) && HasXtn(pkt) && |part| == XtnLen(pkt) - XTN_HEADER
    ensures var r := Splice(pkt, HdrLen(pkt) + XTN_HEADER, part);
            SameLayout(pkt, r) && ValidRtp(r) && HasXtn(r) && XtnBody(r) == part
            && forall i :: 0 <= i < |pkt| && !InXtnBody(pkt, i) ==> r[i] == pkt[i]
  {
    LayoutKept(pkt, Splice(pkt, HdrLen(pkt) + XTN_HEADER, part));
  }

  predicate OutsideKept(pkt: Octets, a: Octets, b: Octets)
    requires ValidRtp(pkt) && |a| == |b|
  {
    forall i :: 0 <= i < |a| && !InXtnBody(pkt, i) ==> b[i] == a[i]
  }

  /** Processing replaces the extension body by the walked one and nothing else. */
  lemma ProcessedBody(pkt: Octets, ids: seq<Byte>, ks: Keystream)
    requires ValidRtp(pkt) && HasXtn(pkt)
    ensures var r, form := ProcessXtn(pkt, ids, ks), FormOf(Profile(pkt));
            OutsideKept(pkt, pkt, r.body) && ValidRtp(r.body) && HasXtn(r.body)
            && (form.None? ==> !r.ok)
            && (form.Some? ==> r.ok == Walk(XtnBody(pkt), form.value, ids, ks, 0).ok
                               && XtnBody(r.body) == Walk(XtnBody(pkt), form.value, ids, ks, 0).body)
  {
    hide Walk, FormOf, Splice;
    LayoutKept(pkt, ProcessXtn(pkt, ids, ks).body);
    if FormOf(Profile(pkt)).Some? {
      SplicedBody(pkt, Walk(XtnBody(pkt), FormOf(Profile(pkt)).value, ids, ks, 0).body);
    }
  }

  lemma BodyEquals(a: Octets, b: Octets)
    requires ValidRtp(a) && HasXtn(a) && SameLayout(a, b) && ValidRtp(b) && HasXtn(b) && XtnBody(a) == XtnBody(b)
    ensures SameXtnBody(a, b)
  {
    LayoutKept(a, b);
    var at := HdrLen(a) + XTN_HEADER;
    forall i | 0 <= i < |a| && InXtnBody(a, i) ensures b[i] == a[i] {
      assert XtnBody(a)[i - at] == XtnBody(b)[i - at];
    }
  }

  /** Processing a packet whose extension body is the processed one of `pkt` gives back the body of `pkt`,
      and leaves the rest as it is. */
  lemma ProcessAgain(pkt: Octets, b: Octets, ids: seq<Byte>, ks: Keystream)
    requires ValidRtp(pkt) && HasXtn(pkt) && ProcessXtn(pkt, ids, ks).ok
    requires SameLayout(pkt, b) && SameXtnBody(ProcessXtn(pkt, ids, ks).body, b)
    ensures ValidRtp(b) && HasXtn(b)
    ensures var again := ProcessXtn(b, ids, ks);
            again.ok && SameXtnBody(pkt, again.body) && OutsideKept(pkt, b, again.body)
  {
    hide ProcessXtn, XtnBody, Walk, FormOf, SameXtnBody, HdrLen, XtnLen, Profile;
    LayoutKept(pkt, b);
    var x, again := ProcessXtn(pkt, ids, ks).body, ProcessXtn(b, ids, ks).body;
    LayoutKept(b, again);
    LayoutChain(pkt, b, again);
    LayoutKept(pkt, x);
    LayoutChain2(pkt, x, b);
    ProcessedBody(pkt, ids, ks);
    ProcessedBody(b, ids, ks);
    XtnBodyOf(x, b);
    WalkTwice(XtnBody(pkt), FormOf(Profile(pkt)).value, ids, ks, 0);
    BodyEquals(pkt, again);
  }

  lemma LayoutChain(a: Octets, b: Octets, d: Octets)
    requires ValidRtp(a) && SameLayout(a, b) && ValidRtp(b) && SameLayout(b, d)
    ensures SameLayout(a, d)
  {
    LayoutKept(a, b);
  }

  /** Two packets that begin with the layout of a third share it. */
  lemma LayoutChain2(a: Octets, x: Octets, b: Octets)
    requires ValidRtp(a) && SameLayout(a, x) && ValidRtp(x) && SameLayout(a, b) && |x| <= |b|
    ensures SameLayout(x, b)
  {
    LayoutKept(a, x);
  }

  // ----- Counter mode -----

  /** The two ways a protected packet does not come back: Cryptex and header-extension encryption both at
      work (the receiver walks the extension under the Cryptex profile), and a clear stream set up for
      Cryptex whose packet already carries a Cryptex profile (the receiver renames it). */
  predicate CtrFails(c: Config, key: Keys, pkt: Octets)
    requires ValidRtp(pkt)
  {
    c.useCryptex && HasXtn(pkt) && if c.conf then key.xtnStream.Some? else IsCryptexProfile(Profile(pkt))
  }

  /** `srtp` is what the protected packet looks like to the receiver, trailer included. */
  predicate Carries(c: Config, key: Keys, nonce: Nonce, pkt: Octets, srtp: Octets)
    requires ValidRtp(pkt)
  {
    var body := CtrBody(c, key, nonce, pkt);
    body.Some? && |srtp| >= |pkt| && srtp[..|pkt|] == body.value
  }

  /** Walking the extension of a received packet restores it and touches nothing else. */
  lemma StepAgain(c: Config, key: Keys, nonce: Nonce, pkt: Octets, srtp: Octets)
    requires ValidRtp(pkt) && XtnStep(c, key, nonce, pkt).ok
    requires SameLayout(pkt, srtp)
    requires HasXtn(pkt) ==> SameXtnBody(XtnStep(c, key, nonce, pkt).body, srtp)
    ensures ValidRtp(srtp)
    ensures var again := XtnStep(c, key, nonce, srtp);
            again.ok && (HasXtn(pkt) ==> SameXtnBody(pkt, again.body)) && OutsideKept(pkt, srtp, again.body)
  {
    LayoutKept(pkt, srtp);
    hide ProcessXtn, ValidRtp, SameLayout;
    if HasXtn(pkt) && key.xtnStream.Some? {
      ProcessAgain(pkt, srtp, c.encryptedIds, key.xtnStream.value(nonce));
    }
  }

  lemma StepOutside(c: Config, key: Keys, nonce: Nonce, pkt: Octets)
    requires ValidRtp(pkt)
    ensures OutsideKept(pkt, pkt, XtnStep(c, key, nonce, pkt).body)
  {
    if HasXtn(pkt) && key.xtnStream.Some? {
      ProcessedBody(pkt, c.encryptedIds, key.xtnStream.value(nonce));
    }
  }

  /** Without Cryptex: what the sender sends. */
  lemma PlainSent(c: Config, key: Keys, nonce: Nonce, pkt: Octets, srtp: Octets)
    requires ValidRtp(pkt) && Carries(c, key, nonce, pkt, srtp) && !CryptexSent(c, pkt)
    ensures var x, ks, k, p := XtnStep(c, key, nonce, pkt).body, key.stream(nonce), TextKeystreamAt(c, key), PayloadStart(pkt);
            forall i :: 0 <= i < |pkt|
              ==> srtp[i] == if c.conf && i >= p then Xor(x[i], ks(k + i - p)) else x[i]
  {
    LayoutKept(pkt, XtnStep(c, key, nonce, pkt).body);
    hide XtnStep, ValidRtp, HdrLen, XtnLen, PayloadStart, HasXtn;
    var body := CtrBody(c, key, nonce, pkt).value;
    forall i | 0 <= i < |pkt| ensures srtp[i] == body[i] {
      assert srtp[i] == srtp[..|pkt|][i];
    }
  }

  lemma PlainSentLayout(c: Config, key: Keys, nonce: Nonce, pkt: Octets, srtp: Octets)
    requires ValidRtp(pkt) && Carries(c, key, nonce, pkt, srtp) && !CryptexSent(c, pkt)
    ensures SameLayout(pkt, srtp)
    ensures HasXtn(pkt) ==> SameXtnBody(XtnStep(c, key, nonce, pkt).body, srtp)
  {
    var x := XtnStep(c, key, nonce, pkt).body;
    PlainSent(c, key, nonce, pkt, srtp);
    LayoutKept(pkt, x);
    hide XtnStep, CtrBody;
  }

  lemma PlainOpens(c: Config, key: Keys, nonce: Nonce, pkt: Octets, srtp: Octets)
    requires ValidRtp(pkt) && Carries(c, key, nonce, pkt, srtp)
    requires !CryptexSent(c, pkt) && !CryptexReceived(c, pkt)
    ensures ValidRtp(srtp) && NonceOf(srtp, 0) == NonceOf(pkt, 0) && OpenStart(c, srtp) <= |pkt|
    ensures Opening(c, key, nonce, srtp, |pkt|) == Outcome(Ok, pkt)
  {
    hide XtnStep, CtrBody, SameXtnBody, Carries, SameLayout;
    PlainSentLayout(c, key, nonce, pkt, srtp);
    LayoutKept(pkt, srtp);
    CarriesOk(c, key, nonce, pkt, srtp);
    StepAgain(c, key, nonce, pkt, srtp);
    var again := XtnStep(c, key, nonce, srtp).body;
    LayoutKept(srtp, again);
    PlainOctets(c, key, nonce, pkt, srtp);
  }

  lemma CarriesOk(c: Config, key: Keys, nonce: Nonce, pkt: Octets, srtp: Octets)
    requires ValidRtp(pkt) && Carries(c, key, nonce, pkt, srtp)
    ensures XtnStep(c, key, nonce, pkt).ok
  {
  }

  /** What the receiver has after walking the extension. */
  lemma PlainAgain(c: Config, key: Keys, nonce: Nonce, pkt: Octets, srtp: Octets)
    requires ValidRtp(pkt) && Carries(c, key, nonce, pkt, srtp) && !CryptexSent(c, pkt)
    requires SameLayout(pkt, srtp) && ValidRtp(srtp)
    ensures var again, ks, k, p := XtnStep(c, key, nonce, srtp).body, key.stream(nonce), TextKeystreamAt(c, key), PayloadStart(pkt);
            forall i :: 0 <= i < |pkt|
              ==> again[i] == if c.conf && i >= p then Xor(pkt[i], ks(k + i - p)) else pkt[i]
  {
    CarriesOk(c, key, nonce, pkt, srtp);
    PlainSentLayout(c, key, nonce, pkt, srtp);
    PlainSent(c, key, nonce, pkt, srtp);
    StepAgain(c, key, nonce, pkt, srtp);
    StepOutside(c, key, nonce, pkt);
    hide XtnStep, CtrBody, ValidRtp, SameLayout, HdrLen, XtnLen, HasXtn, Carries, CryptexSent;
  }

  lemma LookKept(c: Config, a: Octets, b: Octets)
    requires ValidRtp(a) && SameLayout(a, b)
    ensures ValidRtp(b) && |a| <= |b|
    ensures CryptexReceived(c, b) == CryptexReceived(c, a) && PayloadStart(b) == PayloadStart(a)
  {
    LayoutKept(a, b);
  }

  lemma PlainClear(c: Config, key: Keys, nonce: Nonce, pkt: Octets, n: nat)
    requires ValidRtp(pkt) && !CryptexReceived(c, pkt) && PayloadStart(pkt) <= n <= |pkt|
    ensures OpenStart(c, pkt) <= n
    ensures CtrOpened(c, key, nonce, pkt, n)
         == if c.conf then XorRange(pkt, PayloadStart(pkt), n, key.stream(nonce), TextKeystreamAt(c, key)) else pkt
  {
    hide ValidRtp, LooksEncrypted, PayloadStart;
  }

  lemma PlainOctets(c: Config, key: Keys, nonce: Nonce, pkt: Octets, srtp: Octets)
    requires ValidRtp(pkt) && Carries(c, key, nonce, pkt, srtp)
    requires !CryptexSent(c, pkt) && !CryptexReceived(c, pkt)
    requires SameLayout(pkt, srtp) && ValidRtp(srtp)
    ensures var again := XtnStep(c, key, nonce, srtp).body;
            ValidRtp(again) && OpenStart(c, again) <= |pkt| && !CryptexReceived(c, again)
            && CtrOpened(c, key, nonce, again, |pkt|)[..|pkt|] == pkt
  {
    hide *;
    var again, ks, k, p := XtnStep(c, key, nonce, srtp).body, key.stream(nonce), TextKeystreamAt(c, key), PayloadStart(pkt);
    LookKept(c, pkt, srtp);
    LookKept(c, srtp, again);
    PlainAgain(c, key, nonce, pkt, srtp);
    PlainClear(c, key, nonce, again, |pkt|);
    var back := CtrOpened(c, key, nonce, again, |pkt|);
    forall i | 0 <= i < |pkt| ensures back[i] == pkt[i] {
      if c.conf && i >= p { XorCancels(pkt[i], ks(k + i - p)); }
    }
  }

  // ----- Cryptex -----

  /** The profile is not part of the layout. */
  lemma ProfileFree(a: Octets, b: Octets, p: Word16)
    requires ValidRtp(a) && HasXtn(a) && |a| <= |b|
    requires var h := HdrLen(a); forall i :: 0 <= i < FIXED_HEADER || h <= i < h + XTN_HEADER ==> b[i] == SetProfile(a, h, p)[i]
    ensures ValidRtp(b) && HasXtn(b) && HdrLen(b) == HdrLen(a) && XtnLen(b) == XtnLen(a) && Profile(b) == p
    ensures NonceOf(b, 0) == NonceOf(a, 0)
  {
    var h := HdrLen(a);
    U16HiLo(p);
    assert b[0] == a[0];
    assert HdrLen(b) == h && HasXtn(b);
    hide CsrcCount, HasXtn, HdrLen, SetProfile;
    assert b[8..FIXED_HEADER] == a[8..FIXED_HEADER];
    assert b[h + 2] == a[h + 2] && b[h + 3] == a[h + 3];
  }

  lemma CryptexLayout(pkt: Octets, p: Word16, ks: Keystream, k: nat, srtp: Octets)
    requires ValidRtp(pkt) && HasXtn(pkt) && |srtp| >= |pkt|
    requires var h := HdrLen(pkt); srtp[..|pkt|] == InPlace(SetProfile(pkt, h, p), h, |pkt|, ks, k)
    ensures ValidRtp(srtp) && HasXtn(srtp) && HdrLen(srtp) == HdrLen(pkt) && XtnLen(srtp) == XtnLen(pkt)
    ensures Profile(srtp) == p && NonceOf(srtp, 0) == NonceOf(pkt, 0)
  {
    var h := HdrLen(pkt);
    var renamed := SetProfile(pkt, h, p);
    hide InPlace, SetProfile;
    forall i | 0 <= i < FIXED_HEADER || h <= i < h + XTN_HEADER ensures srtp[i] == renamed[i] {
      ClearParts(renamed, h, |pkt|, ks, k, i);
      assert srtp[i] == srtp[..|pkt|][i];
    }
    ProfileFree(pkt, srtp, p);
  }

  lemma ProfileBack(pkt: Octets)
    requires ValidRtp(pkt) && HasXtn(pkt) && CryptexProfile(Profile(pkt)).Some?
    ensures SetProfile(pkt, HdrLen(pkt), PlainProfile(CryptexProfile(Profile(pkt)).value)) == pkt
    ensures IsCryptexProfile(CryptexProfile(Profile(pkt)).value)
    ensures FormOf(CryptexProfile(Profile(pkt)).value).None?
  {
    U16Value(pkt[HdrLen(pkt)], pkt[HdrLen(pkt) + 1]);
  }

  /** What the sender sends with Cryptex: its profile was one Cryptex can name. */
  lemma CryptexCarried(c: Config, key: Keys, nonce: Nonce, pkt: Octets, srtp: Octets)
    requires ValidRtp(pkt) && Carries(c, key, nonce, pkt, srtp) && CryptexSent(c, pkt)
    ensures CryptexProfile(Profile(pkt)).Some?
    ensures var h, p, x := HdrLen(pkt), CryptexProfile(Profile(pkt)).value, XtnStep(c, key, nonce, pkt).body;
            SameLayout(pkt, x)
            && srtp[..|pkt|] == InPlace(SetProfile(x, h, p), h, |pkt|, key.stream(nonce), TextKeystreamAt(c, key))
  {
    LayoutKept(pkt, XtnStep(c, key, nonce, pkt).body);
    hide XtnStep, InPlace;
  }

  lemma CryptexArrives(c: Config, key: Keys, nonce: Nonce, pkt: Octets, srtp: Octets)
    requires ValidRtp(pkt) && Carries(c, key, nonce, pkt, srtp) && CryptexSent(c, pkt)
    ensures ValidRtp(srtp) && HasXtn(srtp) && HdrLen(srtp) == HdrLen(pkt) && NonceOf(srtp, 0) == NonceOf(pkt, 0)
    ensures CryptexProfile(Profile(pkt)) == Some(Profile(srtp)) && CryptexReceived(c, srtp)
  {
    CryptexCarried(c, key, nonce, pkt, srtp);
    ProfileBack(pkt);
    var x := XtnStep(c, key, nonce, pkt).body;
    LayoutKept(pkt, x);
    hide XtnStep, CtrBody, Carries, InPlace, ValidRtp;
    CryptexLayout(x, CryptexProfile(Profile(pkt)).value, key.stream(nonce), TextKeystreamAt(c, key), srtp);
  }

  lemma NoStep(c: Config, key: Keys, nonce: Nonce, srtp: Octets, n: nat)
    requires ValidRtp(srtp) && CryptexReceived(c, srtp) && c.conf && key.xtnStream.None?
    requires OpenStart(c, srtp) <= n <= |srtp|
    ensures var h := HdrLen(srtp);
            var clear := InPlace(srtp, h, n, key.stream(nonce), TextKeystreamAt(c, key));
            Opening(c, key, nonce, srtp, n) == Outcome(Ok, SetProfile(clear, h, PlainProfile(Profile(srtp)))[..n])
  {
    hide InPlace, SetProfile;
  }

  lemma CryptexOpens(c: Config, key: Keys, nonce: Nonce, pkt: Octets, srtp: Octets)
    requires ValidRtp(pkt) && Carries(c, key, nonce, pkt, srtp) && CryptexSent(c, pkt) && key.xtnStream.None?
    ensures ValidRtp(srtp) && OpenStart(c, srtp) <= |pkt|
    ensures Opening(c, key, nonce, srtp, |pkt|) == Outcome(Ok, pkt)
  {
    hide *;
    CryptexFits(c, key, nonce, pkt, srtp);
    CryptexArrives(c, key, nonce, pkt, srtp);
    NoStep(c, key, nonce, srtp, |pkt|);
    CryptexTwice(c, key, nonce, pkt, srtp);
  }

  lemma CryptexFits(c: Config, key: Keys, nonce: Nonce, pkt: Octets, srtp: Octets)
    requires ValidRtp(pkt) && Carries(c, key, nonce, pkt, srtp) && CryptexSent(c, pkt)
    ensures ValidRtp(srtp) && OpenStart(c, srtp) <= |pkt| <= |srtp| && c.conf
    ensures FIXED_HEADER <= HdrLen(srtp) && HdrLen(srtp) + XTN_HEADER <= |srtp| && ROTATED_START <= |pkt|
  {
    CryptexArrives(c, key, nonce, pkt, srtp);
    hide CtrBody, HasXtn;
  }

  /** Encrypting in place once more and naming the plain profile gives the packet back. */
  lemma CryptexTwice(c: Config, key: Keys, nonce: Nonce, pkt: Octets, srtp: Octets)
    requires ValidRtp(pkt) && Carries(c, key, nonce, pkt, srtp) && CryptexSent(c, pkt) && key.xtnStream.None?
    requires ValidRtp(srtp) && HasXtn(srtp) && HdrLen(srtp) == HdrLen(pkt) && CryptexProfile(Profile(pkt)) == Some(Profile(srtp))
    requires |srtp| >= |pkt| >= ROTATED_START
    ensures var h := HdrLen(srtp);
            SetProfile(InPlace(srtp, h, |pkt|, key.stream(nonce), TextKeystreamAt(c, key)), h, PlainProfile(Profile(srtp)))[..|pkt|] == pkt
  {
    ProfileBack(pkt);
    hide CtrBody, Carries, InPlace, SetProfile, TextKeystreamAt, CryptexProfile, PlainProfile;
    CryptexCarried(c, key, nonce, pkt, srtp);
    assert srtp == srtp[..|pkt|] + srtp[|pkt|..];
    InPlaceTwice(pkt, HdrLen(pkt), Profile(srtp), PlainProfile(Profile(srtp)), key.stream(nonce), TextKeystreamAt(c, key), srtp[|pkt|..]);
  }

  /** With Cryptex on the wire the extension has no form the receiver could walk. */
  lemma CryptexBlocksWalk(c: Config, key: Keys, nonce: Nonce, pkt: Octets, srtp: Octets)
    requires ValidRtp(pkt) && Carries(c, key, nonce, pkt, srtp) && CryptexSent(c, pkt) && key.xtnStream.Some?
    ensures ValidRtp(srtp) && OpenStart(c, srtp) <= |pkt|
    ensures Opening(c, key, nonce, srtp, |pkt|) == Failed(ParseErr)
  {
    CryptexArrives(c, key, nonce, pkt, srtp);
    ProfileBack(pkt);
  }

  /** A clear packet that carries a Cryptex profile comes out under another one. */
  lemma LookalikeRenamed(c: Config, key: Keys, nonce: Nonce, pkt: Octets, srtp: Octets)
    requires ValidRtp(pkt) && Carries(c, key, nonce, pkt, srtp)
    requires CryptexReceived(c, pkt) && !c.conf
    ensures ValidRtp(srtp) && NonceOf(srtp, 0) == NonceOf(pkt, 0) && OpenStart(c, srtp) <= |pkt|
    ensures Opening(c, key, nonce, srtp, |pkt|) != Outcome(Ok, pkt)
  {
    assert key.xtnStream.None?;
    hide CtrOpened;
    assert srtp[..|pkt|] == pkt;
    forall i | 0 <= i < |pkt| ensures srtp[i] == pkt[i] { assert srtp[i] == srtp[..|pkt|][i]; }
    LayoutKept(pkt, srtp);
    LookalikeOctet(c, key, nonce, srtp, |pkt|);
    var h := HdrLen(pkt);
    assert CtrOpened(c, key, nonce, srtp, |pkt|)[h] != pkt[h];
    assert CtrOpened(c, key, nonce, srtp, |pkt|)[..|pkt|][h] != pkt[h];
  }

  lemma LookalikeOctet(c: Config, key: Keys, nonce: Nonce, srtp: Octets, n: nat)
    requires ValidRtp(srtp) && CryptexReceived(c, srtp) && !c.conf && ROTATED_START <= n <= |srtp|
    ensures CtrOpened(c, key, nonce, srtp, n)[HdrLen(srtp)] != srtp[HdrLen(srtp)]
  {
    U16Value(srtp[HdrLen(srtp)], srtp[HdrLen(srtp) + 1]);
  }

  // ----- The round trip -----

  /** The packet after the trailer is put on: where its parts are. */
  lemma Trailer(body: Octets, mki: Octets, tag: Octets)
    ensures var srtp := body + mki + tag;
            srtp[..|body|] == body && srtp[|srtp| - |tag|..] == tag
            && srtp[|srtp| - |tag| - |mki|..|srtp| - |tag|] == mki
  {
  }

  /** What a successful protect gives. */
  lemma ProtectedCarries(c: Config, mkiIndex: nat, index: nat, pkt: Octets, capacity: nat, after: Octets)
    requires ConfigOk(c) && capacity <= |pkt| + |after|
    requires ProtectCtr(c, mkiIndex, index, pkt, capacity, after).status == Ok
    ensures ValidRtp(pkt) && KeyForIndex(c, mkiIndex).Some?
    ensures var srtp, key, nonce := ProtectCtr(c, mkiIndex, index, pkt, capacity, after).packet,
                                    KeyForIndex(c, mkiIndex).value, NonceOf(pkt, index);
            |srtp| == |pkt| + c.mkiSize + c.tagLen && Carries(c, key, nonce, pkt, srtp)
            && srtp[|srtp| - c.tagLen - c.mkiSize..|srtp| - c.tagLen] == key.mkiId
            && (c.auth ==> srtp[|srtp| - c.tagLen..] == Tag(key, nonce, srtp[..|pkt|]))
  {
    var key, nonce := KeyForIndex(c, mkiIndex).value, NonceOf(pkt, index);
    assert KeysFit(c, key);
    hide CtrBody, ValidRtp;
    var body := CtrBody(c, key, nonce, pkt).value;
    Trailer(body, key.mkiId, if c.auth then Tag(key, nonce, body) else after[c.mkiSize..c.mkiSize + c.tagLen]);
  }

  /** Unprotecting a protected packet, once the packet is known to start well. */
  lemma Unprotected(c: Config, mkiIndex: nat, index: nat, pkt: Octets, srtp: Octets, capacity: nat)
    requires ConfigOk(c) && ValidRtp(pkt) && KeyForIndex(c, mkiIndex).Some? && ValidRtp(srtp)
    requires |srtp| == |pkt| + c.mkiSize + c.tagLen && capacity >= |pkt| && NonceOf(srtp, 0) == NonceOf(pkt, 0)
    requires var key, nonce := KeyForIndex(c, mkiIndex).value, NonceOf(pkt, index);
             srtp[|srtp| - c.tagLen - c.mkiSize..|srtp| - c.tagLen] == key.mkiId
             && (c.auth ==> srtp[|srtp| - c.tagLen..] == Tag(key, nonce, srtp[..|pkt|]))
    requires OpenStart(c, srtp) <= |pkt|
    ensures UnprotectCtr(c, index, srtp, capacity)
         == Opening(c, KeyForIndex(c, mkiIndex).value, NonceOf(pkt, index), srtp, |pkt|)
  {
    hide Opening, ValidRtp, Tag;
    KeyAgreed(c, mkiIndex, srtp, c.tagLen);
  }

  /** In place, with equal keys and packet index, unprotect after protect succeeds with the exact octets
      and length, for every CSRC count, extension, payload and MKI - except in the two cases of
      CtrFails, and there never. */
  lemma CtrRoundTrip(c: Config, mkiIndex: nat, index: nat, pkt: Octets, capacity: nat, after: Octets, room: nat)
    requires ConfigOk(c) && capacity <= |pkt| + |after| && room >= |pkt|
    requires ProtectCtr(c, mkiIndex, index, pkt, capacity, after).status == Ok
    ensures ValidRtp(pkt) && KeyForIndex(c, mkiIndex).Some?
    ensures UnprotectCtr(c, index, ProtectCtr(c, mkiIndex, index, pkt, capacity, after).packet, room) == Outcome(Ok, pkt)
       <==> !CtrFails(c, KeyForIndex(c, mkiIndex).value, pkt)
  {
    var srtp := ProtectCtr(c, mkiIndex, index, pkt, capacity, after).packet;
    ProtectedCarries(c, mkiIndex, index, pkt, capacity, after);
    hide *;
    ReceivedBack(c, mkiIndex, index, pkt, srtp, room);
  }

  lemma ReceivedBack(c: Config, mkiIndex: nat, index: nat, pkt: Octets, srtp: Octets, room: nat)
    requires ConfigOk(c) && ValidRtp(pkt) && KeyForIndex(c, mkiIndex).Some? && room >= |pkt|
    requires |srtp| == |pkt| + c.mkiSize + c.tagLen
    requires var key, nonce := KeyForIndex(c, mkiIndex).value, NonceOf(pkt, index);
             Carries(c, key, nonce, pkt, srtp)
             && srtp[|srtp| - c.tagLen - c.mkiSize..|srtp| - c.tagLen] == key.mkiId
             && (c.auth ==> srtp[|srtp| - c.tagLen..] == Tag(key, nonce, srtp[..|pkt|]))
    ensures UnprotectCtr(c, index, srtp, room) == Outcome(Ok, pkt) <==> !CtrFails(c, KeyForIndex(c, mkiIndex).value, pkt)
  {
    var key, nonce := KeyForIndex(c, mkiIndex).value, NonceOf(pkt, index);
    hide ConfigOk, ValidRtp, UnprotectCtr, Opening, Carries, Tag, KeyForIndex, NonceOf;
    if CryptexSent(c, pkt) {
      CryptexArrives(c, key, nonce, pkt, srtp);
      Unprotected(c, mkiIndex, index, pkt, srtp, room);
      if key.xtnStream.None? {
        CryptexOpens(c, key, nonce, pkt, srtp);
      } else {
        CryptexBlocksWalk(c, key, nonce, pkt, srtp);
      }
    } else if CryptexReceived(c, pkt) {
      LookalikeRenamed(c, key, nonce, pkt, srtp);
      Unprotected(c, mkiIndex, index, pkt, srtp, room);
    } else {
      PlainOpens(c, key, nonce, pkt, srtp);
      LayoutKept(pkt, srtp);
      Unprotected(c, mkiIndex, index, pkt, srtp, room);
    }
  }
}
