/** srtp_protect and srtp_unprotect on the packet buffer, in place: every step changes one array, and the
    outcome is that of the functions in SrtpTransform. */
module SrtpBuffers {
  import opened Bytes
  import opened SrtpPacket
  import opened SrtpHeaderExt
  import opened SrtpCryptex
  import opened SrtpTransform
  import opened SrtpInPlace

  // ----- A packet at the front of a longer buffer -----

  lemma XorRangeAppend(pkt: Octets, after: Octets, from: nat, to: nat, ks: Keystream, k: nat)
    requires from <= to <= |pkt|
    ensures XorRange(pkt + after, from, to, ks, k) == XorRange(pkt, from, to, ks, k) + after
  {
  }

  lemma SetProfileAppend(pkt: Octets, after: Octets, h: nat, p: Word16)
    requires h + XTN_HEADER <= |pkt|
    ensures SetProfile(pkt + after, h, p) == SetProfile(pkt, h, p) + after
  {
  }

  lemma InPlaceAppend(pkt: Octets, after: Octets, h: nat, end: nat, ks: Keystream, k: nat)
    requires FIXED_HEADER <= h && h + XTN_HEADER <= |pkt| && ROTATED_START <= end <= |pkt|
    ensures InPlace(pkt + after, h, end, ks, k) == InPlace(pkt, h, end, ks, k) + after
  {
    hide Rotated, Unrotated, XorRange;
    RotatedAppend(pkt, after, h);
    XorRangeAppend(Rotated(pkt, h), after, ROTATED_START, end, ks, k);
    UnrotatedAppend(XorRange(Rotated(pkt, h), ROTATED_START, end, ks, k), after, h);
  }

  lemma LayoutAppend(pkt: Octets, after: Octets)
    requires ValidRtp(pkt)
    ensures SameLayout(pkt, pkt + after) && ValidRtp(pkt + after)
  {
    LayoutKept(pkt, pkt + after);
  }

  lemma SpliceAppend(pkt: Octets, after: Octets, at: nat, part: Octets)
    requires at + |part| <= |pkt|
    ensures Splice(pkt + after, at, part) == Splice(pkt, at, part) + after
  {
  }

  lemma BodyAppend(pkt: Octets, after: Octets)
    requires ValidRtp(pkt) && HasXtn(pkt)
    ensures pkt != [] && pkt + after != []
    ensures ValidRtp(pkt + after) && HasXtn(pkt + after) && HdrLen(pkt + after) == HdrLen(pkt)
    ensures Profile(pkt + after) == Profile(pkt) && XtnBody(pkt + after) == XtnBody(pkt)
  {
    LayoutAppend(pkt, after);
    LayoutKept(pkt, pkt + after);
  }

  lemma ProcessXtnAppend(pkt: Octets, after: Octets, ids: seq<Byte>, ks: Keystream)
    requires ValidRtp(pkt) && HasXtn(pkt) && ValidRtp(pkt + after) && HasXtn(pkt + after)
    ensures var x := ProcessXtn(pkt, ids, ks);
            ProcessXtn(pkt + after, ids, ks) == Walked(x.ok, x.body + after)
  {
    hide ValidRtp, HasXtn, HdrLen, XtnLen, XtnBody, Profile, FormOf, Walk, ProcessXtn, Splice;
    BodyAppend(pkt, after);
    LayoutInside(pkt);
    ProcessXtnIs(pkt, ids, ks);
    ProcessXtnIs(pkt + after, ids, ks);
    if FormOf(Profile(pkt)).Some? {
      SpliceAppend(pkt, after, HdrLen(pkt) + XTN_HEADER, Walk(XtnBody(pkt), FormOf(Profile(pkt)).value, ids, ks, 0).body);
    }
  }

  lemma ProcessXtnIs(pkt: Octets, ids: seq<Byte>, ks: Keystream)
    requires ValidRtp(pkt) && HasXtn(pkt)
    ensures FormOf(Profile(pkt)).None? ==> ProcessXtn(pkt, ids, ks) == Walked(false, pkt)
    ensures FormOf(Profile(pkt)).Some?
      ==> var w := Walk(XtnBody(pkt), FormOf(Profile(pkt)).value, ids, ks, 0);
          HdrLen(pkt) + XTN_HEADER + |w.body| <= |pkt|
          && ProcessXtn(pkt, ids, ks) == Walked(w.ok, Splice(pkt, HdrLen(pkt) + XTN_HEADER, w.body))
  {
    hide Walk, FormOf, Splice;
  }

  lemma XtnStepAppend(c: Config, key: Keys, nonce: Nonce, pkt: Octets, after: Octets)
    requires ValidRtp(pkt) && ValidRtp(pkt + after)
    ensures var x := XtnStep(c, key, nonce, pkt);
            XtnStep(c, key, nonce, pkt + after) == Walked(x.ok, x.body + after)
  {
    LayoutAppend(pkt, after);
    LayoutKept(pkt, pkt + after);
    hide ValidRtp, ProcessXtn;
    if HasXtn(pkt) && key.xtnStream.Some? {
      ProcessXtnAppend(pkt, after, c.encryptedIds, key.xtnStream.value(nonce));
    }
  }

  // ----- Reading the headers -----

  datatype Headers = Headers(valid: bool, h: nat, x: bool, e: nat)

  function HeadersOf(pkt: Octets): Headers
  {
    if ValidRtp(pkt) then Headers(true, HdrLen(pkt), HasXtn(pkt), PayloadStart(pkt) - HdrLen(pkt))
    else Headers(false, 0, false, 0)
  }

  /** srtp_validate_rtp_header and the length helpers. */
  method ReadHeaders(buf: array<Byte>, len: nat) returns (r: Headers)
    requires len <= buf.Length
    ensures r == HeadersOf(buf[..len])
  {
    ghost var pkt := buf[..len];
    if len < FIXED_HEADER { return Headers(false, 0, false, 0); }
    var h := FIXED_HEADER + 4 * (buf[0] % 16);
    var x := buf[0] / 16 % 2 == 1;
    assert h == HdrLen(pkt) && x == HasXtn(pkt);
    if len < h { return Headers(false, 0, false, 0); }
    if !x { return Headers(true, h, false, 0); }
    if len < h + XTN_HEADER { return Headers(false, 0, false, 0); }
    var e := 4 * (U16(buf[h + 2], buf[h + 3]) + 1);
    assert e == XtnLen(pkt);
    if len < h + e { return Headers(false, 0, false, 0); }
    return Headers(true, h, true, e);
  }

  // ----- Rotation in place -----

  /** srtp_cryptex_move_hdr_xtnd_hdr_before_csrc */
  method MoveXtnBeforeCsrc(buf: array<Byte>, h: nat)
    requires FIXED_HEADER <= h && h + XTN_HEADER <= buf.Length
    modifies buf
    ensures buf[..] == Rotated(old(buf[..]), h)
  {
    ghost var was := buf[..];
    if h > FIXED_HEADER {
      var tmp := buf[h..h + XTN_HEADER];
      forall i | FIXED_HEADER <= i < h { buf[i + XTN_HEADER] := buf[i]; }
      forall i | 0 <= i < XTN_HEADER { buf[FIXED_HEADER + i] := tmp[i]; }
    }
    assert buf[..] == Rotated(was, h);
  }

  /** srtp_cryptex_move_csrc_before_hdr_xtnd_hdr */
  method MoveCsrcBeforeXtn(buf: array<Byte>, h: nat)
    requires FIXED_HEADER <= h && h + XTN_HEADER <= buf.Length
    modifies buf
    ensures buf[..] == Unrotated(old(buf[..]), h)
  {
    ghost var was := buf[..];
    if h > FIXED_HEADER {
      var tmp := buf[FIXED_HEADER..ROTATED_START];
      forall i | FIXED_HEADER <= i < h { buf[i] := buf[i + XTN_HEADER]; }
      forall i | 0 <= i < XTN_HEADER { buf[h + i] := tmp[i]; }
    }
    assert buf[..] == Unrotated(was, h);
  }

  method WriteProfile(buf: array<Byte>, h: nat, p: Word16)
    requires h + XTN_HEADER <= buf.Length
    modifies buf
    ensures buf[..] == SetProfile(old(buf[..]), h, p)
  {
    buf[h], buf[h + 1] := Hi(p), Lo(p);
  }

  /** Rotate, encrypt one region, rotate back. */
  method CryptexInPlace(buf: array<Byte>, h: nat, end: nat, ks: Keystream, k: nat)
    requires FIXED_HEADER <= h && h + XTN_HEADER <= buf.Length && ROTATED_START <= end <= buf.Length
    modifies buf
    ensures buf[..] == InPlace(old(buf[..]), h, end, ks, k)
  {
    MoveXtnBeforeCsrc(buf, h);
    XorInPlace(buf, ROTATED_START, end, ks, k);
    MoveCsrcBeforeXtn(buf, h);
  }

  /** The same into a second buffer: the headers are copied, the CSRC list is encrypted there, and the
      cipher writes the rest. */
  method CryptexOutOfPlace(src: array<Byte>, dst: array<Byte>, len: nat, h: nat, p: Word16, ks: Keystream, k: nat)
    requires src != dst && len <= src.Length && len <= dst.Length
    requires FIXED_HEADER <= h && h + XTN_HEADER <= len
    modifies dst
    ensures dst[..len] == OutOfPlace(SetProfile(src[..len], h, p), h, len, ks, k)
    ensures dst[len..] == old(dst[len..])
  {
    ghost var pkt := src[..len];
    CopyHeaders(src, dst, h, p, pkt);
    XorInPlace(dst, FIXED_HEADER, h, ks, k);
    ghost var headers := dst[..];
    assert forall i :: 0 <= i < h + XTN_HEADER ==> headers[i] == XorRange(SetProfile(pkt, h, p), FIXED_HEADER, h, ks, k)[i];
    hide SetProfile, XorRange, OutOfPlace;
    XorTo(src, dst, h + XTN_HEADER, len, ks, k + (h - FIXED_HEADER));
    HeadersThenRest(pkt, headers, dst[..], h, p, ks, k);
  }

  method CopyHeaders(src: array<Byte>, dst: array<Byte>, h: nat, p: Word16, ghost pkt: Octets)
    requires src != dst && h + XTN_HEADER <= |pkt| <= src.Length && |pkt| <= dst.Length && pkt == src[..|pkt|]
    modifies dst
    ensures forall i :: 0 <= i < h + XTN_HEADER ==> dst[i] == SetProfile(pkt, h, p)[i]
    ensures forall i :: h + XTN_HEADER <= i < dst.Length ==> dst[i] == old(dst[i])
  {
    forall i | 0 <= i < h + XTN_HEADER { dst[i] := src[i]; }
    WriteProfile(dst, h, p);
  }

  /** srtp_cipher_encrypt from one buffer to another. */
  method XorTo(src: array<Byte>, dst: array<Byte>, from: nat, to: nat, ks: Keystream, k: nat)
    requires src != dst && from <= to <= src.Length && to <= dst.Length
    modifies dst
    ensures forall j :: 0 <= j < dst.Length
              ==> dst[j] == if from <= j < to then Xor(src[j], ks(k + j - from)) else old(dst[j])
  {
    ghost var was := dst[..];
    var i := from;
    while i < to
      invariant from <= i <= to
      invariant forall j :: 0 <= j < dst.Length
                  ==> dst[j] == if from <= j < i then Xor(src[j], ks(k + j - from)) else was[j]
    {
      dst[i] := Xor(src[i], ks(k + i - from));
      i := i + 1;
    }
  }

  lemma HeadersThenRest(pkt: Octets, headers: Octets, dst: Octets, h: nat, p: Word16, ks: Keystream, k: nat)
    requires FIXED_HEADER <= h && h + XTN_HEADER <= |pkt| <= |headers| == |dst|
    requires forall i :: 0 <= i < h + XTN_HEADER
               ==> headers[i] == XorRange(SetProfile(pkt, h, p), FIXED_HEADER, h, ks, k)[i]
    requires forall i :: 0 <= i < |dst|
               ==> dst[i] == if h + XTN_HEADER <= i < |pkt| then Xor(pkt[i], ks(k + (h - FIXED_HEADER) + i - (h + XTN_HEADER))) else headers[i]
    ensures dst[..|pkt|] == OutOfPlace(SetProfile(pkt, h, p), h, |pkt|, ks, k)
  {
    var out := OutOfPlace(SetProfile(pkt, h, p), h, |pkt|, ks, k);
    hide SetProfile;
    forall i | 0 <= i < |pkt| ensures dst[i] == out[i] {}
  }

  // ----- Header extension in place -----

  /** srtp_process_header_encryption on the whole buffer. */
  method ProcessXtnInPlace(buf: array<Byte>, h: nat, e: nat, ids: seq<Byte>, ks: Keystream) returns (ok: bool)
    requires ValidRtp(buf[..]) && HasXtn(buf[..]) && h == HdrLen(buf[..]) && e == XtnLen(buf[..])
    modifies buf
    ensures Walked(ok, buf[..]) == ProcessXtn(old(buf[..]), ids, ks)
  {
    hide ValidRtp, HasXtn, HdrLen, XtnLen, Profile, FormOf, ProcessXtn, Finished;
    ghost var all := buf[..];
    LayoutInside(all);
    var profile := ReadProfile(buf, h);
    if FormOf(profile).None? {
      NoForm(all, ids, ks);
      return false;
    }
    WalkIsProcess(all, h, e, ids, ks);
    ok := WalkInPlace(buf, h + XTN_HEADER, h + e, FormOf(profile).value, ids, ks);
  }

  method ReadProfile(buf: array<Byte>, h: nat) returns (p: Word16)
    requires h + XTN_HEADER <= buf.Length && buf[..] != [] && h == HdrLen(buf[..])
    ensures p == Profile(buf[..])
  {
    p := U16(buf[h], buf[h + 1]);
  }

  lemma LayoutInside(pkt: Octets)
    requires ValidRtp(pkt) && HasXtn(pkt)
    ensures pkt != [] && HdrLen(pkt) + XTN_HEADER <= HdrLen(pkt) + XtnLen(pkt) <= |pkt|
  {
  }

  lemma NoForm(pkt: Octets, ids: seq<Byte>, ks: Keystream)
    requires ValidRtp(pkt) && HasXtn(pkt) && FormOf(Profile(pkt)).None?
    ensures ProcessXtn(pkt, ids, ks) == Walked(false, pkt)
  {
  }

  lemma WalkIsProcess(all: Octets, h: nat, e: nat, ids: seq<Byte>, ks: Keystream)
    requires ValidRtp(all) && HasXtn(all) && h == HdrLen(all) && e == XtnLen(all) && FormOf(Profile(all)).Some?
    ensures e >= XTN_HEADER && h + e <= |all|
    ensures Finished(all, h + XTN_HEADER, h + e, FormOf(Profile(all)).value, ids, ks, 0) == ProcessXtn(all, ids, ks)
  {
    hide Walk, FormOf;
  }

  // ----- Protect -----

  /** memcpy of `part` to `at`. */
  method WriteAt(buf: array<Byte>, at: nat, part: Octets)
    requires at + |part| <= buf.Length
    modifies buf
    ensures buf[..] == Splice(old(buf[..]), at, part)
  {
    forall i | 0 <= i < |part| { buf[at + i] := part[i]; }
  }

  method XtnStepInPlace(c: Config, key: Keys, nonce: Nonce, buf: array<Byte>, len: nat, hdr: Headers) returns (ok: bool)
    requires len <= buf.Length && ValidRtp(buf[..len]) && hdr == HeadersOf(buf[..len])
    modifies buf
    ensures Walked(ok, buf[..len]) == XtnStep(c, key, nonce, old(buf[..len]))
    ensures buf[len..] == old(buf[len..])
  {
    ghost var pkt, after := buf[..len], buf[len..];
    assert buf[..] == pkt + after;
    HeadersAppend(pkt, after);
    XtnStepAppend(c, key, nonce, pkt, after);
    hide ValidRtp, HasXtn, HdrLen, XtnLen, ProcessXtn;
    ok := true;
    if hdr.x && key.xtnStream.Some? {
      ok := ProcessXtnInPlace(buf, hdr.h, hdr.e, c.encryptedIds, key.xtnStream.value(nonce));
    }
    FrontAndRest(buf[..], XtnStep(c, key, nonce, pkt).body, after);
  }

  lemma FrontAndRest(all: Octets, front: Octets, after: Octets)
    requires all == front + after
    ensures all[..|front|] == front && all[|front|..] == after
  {
  }

  lemma HeadersAppend(pkt: Octets, after: Octets)
    requires ValidRtp(pkt)
    ensures var hdr, all := HeadersOf(pkt), pkt + after;
            ValidRtp(all) && hdr.valid && hdr.h == HdrLen(all) && hdr.x == HasXtn(all)
            && (hdr.x ==> hdr.e == XtnLen(all)) && hdr.h + hdr.e == PayloadStart(pkt)
  {
    LayoutAppend(pkt, after);
    LayoutKept(pkt, pkt + after);
  }

  method RenameAndCrypt(buf: array<Byte>, h: nat, p: Word16, end: nat, ks: Keystream, k: nat)
    requires FIXED_HEADER <= h && h + XTN_HEADER <= buf.Length && ROTATED_START <= end <= buf.Length
    modifies buf
    ensures buf[..] == InPlace(SetProfile(old(buf[..]), h, p), h, end, ks, k)
  {
    WriteProfile(buf, h, p);
    CryptexInPlace(buf, h, end, ks, k);
  }

  /** Encrypting the packet of `len` octets that a longer buffer begins with. */
  function EncryptedIn(c: Config, key: Keys, nonce: Nonce, all: Octets, len: nat, hdr: Headers): Option<Octets>
    requires FIXED_HEADER <= hdr.h && hdr.h + hdr.e <= len <= |all| && (hdr.x ==> XTN_HEADER <= hdr.e)
  {
    var ks, k := key.stream(nonce), TextKeystreamAt(c, key);
    if c.useCryptex && c.conf && hdr.x then
      match CryptexProfile(U16(all[hdr.h], all[hdr.h + 1]))
      case None => None
      case Some(p) => Some(InPlace(SetProfile(all, hdr.h, p), hdr.h, len, ks, k))
    else if c.conf then Some(XorRange(all, hdr.h + hdr.e, len, ks, k))
    else Some(all)
  }

  lemma EncryptedInIs(c: Config, key: Keys, nonce: Nonce, pkt: Octets, after: Octets)
    requires ValidRtp(pkt)
    ensures var hdr, result := HeadersOf(pkt), Encrypted(c, key, nonce, pkt);
            FIXED_HEADER <= hdr.h && hdr.h + hdr.e <= |pkt| && (hdr.x ==> XTN_HEADER <= hdr.e)
            && EncryptedIn(c, key, nonce, pkt + after, |pkt|, hdr)
               == if result.None? then None else Some(result.value + after)
  {
    var ks, k, hdr := key.stream(nonce), TextKeystreamAt(c, key), HeadersOf(pkt);
    var h := hdr.h;
    assert h == HdrLen(pkt) && hdr.x == HasXtn(pkt) && h + hdr.e == PayloadStart(pkt);
    hide InPlace, SetProfile, XorRange, ValidRtp, HdrLen, HasXtn, XtnLen, CryptexProfile, HeadersOf, TextKeystreamAt;
    if CryptexSent(c, pkt) {
      var profile := CryptexProfile(Profile(pkt));
      if profile.Some? {
        SetProfileAppend(pkt, after, h, profile.value);
        InPlaceAppend(SetProfile(pkt, h, profile.value), after, h, |pkt|, ks, k);
      }
    } else if c.conf {
      XorRangeAppend(pkt, after, h + hdr.e, |pkt|, ks, k);
    }
  }

  /** Cryptex or the plain cipher, or no cipher at all. */
  method EncryptInPlace(c: Config, key: Keys, nonce: Nonce, buf: array<Byte>, len: nat, hdr: Headers) returns (ok: bool)
    requires FIXED_HEADER <= hdr.h && hdr.h + hdr.e <= len <= buf.Length && (hdr.x ==> XTN_HEADER <= hdr.e)
    modifies buf
    ensures var result := EncryptedIn(c, key, nonce, old(buf[..]), len, hdr);
            ok == result.Some? && (ok ==> buf[..] == result.value)
  {
    var ks, k, h := key.stream(nonce), TextKeystreamAt(c, key), hdr.h;
    hide InPlace, SetProfile, XorRange, CryptexProfile, TextKeystreamAt;
    if c.useCryptex && c.conf && hdr.x {
      var p := CryptexProfile(U16(buf[h], buf[h + 1]));
      if p.None? { return false; }
      RenameAndCrypt(buf, h, p.value, len, ks, k);
    } else if c.conf {
      XorInPlace(buf, h + hdr.e, len, ks, k);
    }
    ok := true;
  }

  /** Header extension and encryption of the packet at the front of the buffer. */
  method BodyInPlace(c: Config, key: Keys, nonce: Nonce, buf: array<Byte>, len: nat, hdr: Headers) returns (ok: bool)
    requires len <= buf.Length && ValidRtp(buf[..len]) && hdr == HeadersOf(buf[..len])
    modifies buf
    ensures var body := CtrBody(c, key, nonce, old(buf[..len]));
            ok == body.Some? && (ok ==> buf[..] == body.value + old(buf[len..]))
  {
    ghost var pkt, after := buf[..len], buf[len..];
    ghost var x := XtnStep(c, key, nonce, pkt);
    BodyIs(c, key, nonce, pkt, after);
    hide CtrBody, XtnStep, EncryptedIn, HeadersOf, ValidRtp;
    ok := XtnStepInPlace(c, key, nonce, buf, len, hdr);
    if ok {
      assert buf[..] == x.body + after;
      ok := EncryptInPlace(c, key, nonce, buf, len, hdr);
    }
  }

  lemma BodyIs(c: Config, key: Keys, nonce: Nonce, pkt: Octets, after: Octets)
    requires ValidRtp(pkt)
    ensures var x, hdr, body := XtnStep(c, key, nonce, pkt), HeadersOf(pkt), CtrBody(c, key, nonce, pkt);
            FIXED_HEADER <= hdr.h && hdr.h + hdr.e <= |pkt| && (hdr.x ==> XTN_HEADER <= hdr.e)
            && (!x.ok ==> body.None?)
            && (x.ok ==> EncryptedIn(c, key, nonce, x.body + after, |pkt|, hdr)
                         == if body.None? then None else Some(body.value + after))
  {
    var x := XtnStep(c, key, nonce, pkt);
    LayoutKept(pkt, x.body);
    assert HeadersOf(x.body) == HeadersOf(pkt);
    hide XtnStep, Encrypted, EncryptedIn;
    EncryptedInIs(c, key, nonce, x.body, after);
  }
}
