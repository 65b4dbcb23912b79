/** The AEAD transforms on one buffer. */
module SrtpAeadInPlace {
  import opened Bytes
  import opened SrtpPacket
  import opened SrtpCryptex
  import opened SrtpTransform
  import opened SrtpBuffers
  import opened SrtpProtect
  import opened SrtpUnprotect
  import opened SrtpAead

  // ----- Protect -----

  /** The cipher over the octets from `start` to `len`, with what stands before them as associated data. */
  method SealInPlace(c: Config, key: Keys, nonce: Nonce, buf: array<Byte>, start: nat, len: nat)
    requires KeysFit(c, key) && start <= len && len + c.tagLen <= buf.Length
    modifies buf
    ensures buf[..] == Sealed(c, key, nonce, old(buf[..len]), start) + old(buf[len + c.tagLen..])
  {
    ghost var pkt, rest := buf[..len], buf[len + c.tagLen..];
    var aad := buf[..start];
    var text := key.seal(nonce, aad, buf[start..len]);
    SealedParts(c, key, nonce, pkt, start);
    assert aad == pkt[..start] && buf[start..len] == pkt[start..];
    ThreeParts(buf[..], start, len + c.tagLen);
    hide KeysFit, Sealed;
    Overwrite(buf, buf[..start], buf[start..len + c.tagLen], rest, start, text);
  }

  lemma SealedParts(c: Config, key: Keys, nonce: Nonce, pkt: Octets, start: nat)
    requires KeysFit(c, key) && start <= |pkt|
    ensures |key.seal(nonce, pkt[..start], pkt[start..])| == |pkt| - start + c.tagLen
    ensures Sealed(c, key, nonce, pkt, start) == pkt[..start] + key.seal(nonce, pkt[..start], pkt[start..])
  {
  }

  /** Sealing with the headers rotated, or not. */
  method ClosePacket(c: Config, key: Keys, nonce: Nonce, buf: array<Byte>, len: nat, hdr: Headers) returns (ok: bool)
    requires KeysFit(c, key) && len + c.tagLen <= buf.Length && ValidRtp(buf[..len]) && hdr == HeadersOf(buf[..len])
    modifies buf
    ensures var body := Closed(c, key, nonce, old(buf[..len]));
            ok == body.Some? && (ok ==> buf[..] == body.value + old(buf[len + c.tagLen..]))
  {
    hide Closed, Sealed, KeysFit, ValidRtp, HeadersOf, HdrLen, HasXtn, CryptexProfile, Rotated, Unrotated, SetProfile;
    ghost var pkt, after, rest := buf[..len], buf[len..], buf[len + c.tagLen..];
    ghost var result := Closed(c, key, nonce, pkt);
    assert buf[..] == pkt + after && after[c.tagLen..] == rest;
    var h := hdr.h;
    ClosedCases(c, key, nonce, pkt);
    if c.useCryptex && c.conf && hdr.x {
      var p := CryptexProfile(U16(buf[h], buf[h + 1]));
      if p.None? { return false; }
      CloseRotated(c, key, nonce, buf, len, h, p.value);
    } else {
      SealInPlace(c, key, nonce, buf, h + hdr.e, len);
    }
    return true;
  }

  method CloseRotated(c: Config, key: Keys, nonce: Nonce, buf: array<Byte>, len: nat, h: nat, p: Word16)
    requires KeysFit(c, key) && len + c.tagLen <= buf.Length && FIXED_HEADER <= h && h + XTN_HEADER <= len
    modifies buf
    ensures var renamed := SetProfile(old(buf[..len]), h, p);
            buf[..] == Unrotated(Sealed(c, key, nonce, Rotated(renamed, h), ROTATED_START), h) + old(buf[len + c.tagLen..])
  {
    ghost var pkt, after, rest := buf[..len], buf[len..], buf[len + c.tagLen..];
    ghost var renamed := SetProfile(pkt, h, p);
    assert buf[..] == pkt + after && after[c.tagLen..] == rest;
    hide Sealed, KeysFit, Rotated, Unrotated, SetProfile;
    SetProfileAppend(pkt, after, h, p);
    RotatedAppend(renamed, after, h);
    WriteProfile(buf, h, p);
    MoveXtnBeforeCsrc(buf, h);
    FrontAndRest(buf[..], Rotated(renamed, h), after);
    assert buf[len + c.tagLen..] == buf[len..][c.tagLen..];
    SealInPlace(c, key, nonce, buf, ROTATED_START, len);
    UnrotatedAppend(Sealed(c, key, nonce, Rotated(renamed, h), ROTATED_START), rest, h);
    MoveCsrcBeforeXtn(buf, h);
  }

  lemma ClosedCases(c: Config, key: Keys, nonce: Nonce, pkt: Octets)
    requires ValidRtp(pkt) && KeysFit(c, key)
    ensures var hdr := HeadersOf(pkt);
            var h := hdr.h;
            FIXED_HEADER <= h && h + hdr.e <= |pkt| && (hdr.x ==> h + XTN_HEADER <= |pkt|)
            && if c.useCryptex && c.conf && hdr.x then
                 var p := CryptexProfile(U16(pkt[h], pkt[h + 1]));
                 Closed(c, key, nonce, pkt)
                 == (if p.None? then None
                     else Some(Unrotated(Sealed(c, key, nonce, Rotated(SetProfile(pkt, h, p.value), h), ROTATED_START), h)))
               else Closed(c, key, nonce, pkt) == Some(Sealed(c, key, nonce, pkt, h + hdr.e))
  {
    hide Sealed, Rotated, Unrotated, SetProfile, CryptexProfile, KeysFit;
  }

  /** srtp_protect_aead in place after the checks. */
  method SendAead(c: Config, key: Keys, nonce: Nonce, buf: array<Byte>, len: nat, hdr: Headers) returns (ok: bool)
    requires KeysFit(c, key) && len + c.tagLen + c.mkiSize <= buf.Length && ValidRtp(buf[..len]) && hdr == HeadersOf(buf[..len])
    modifies buf
    ensures var body, end := AeadBody(c, key, nonce, old(buf[..len])), len + c.tagLen + c.mkiSize;
            ok == body.Some?
            && (ok ==> buf[..end] == body.value + key.mkiId && buf[end..] == old(buf[len..])[end - len..])
  {
    hide AeadBody, XtnStep, KeysFit, ValidRtp, HeadersOf, Closed;
    ghost var pkt, after := buf[..len], buf[len..];
    ghost var x := XtnStep(c, key, nonce, pkt);
    AeadBodyIs(c, key, nonce, pkt);
    ok := XtnStepInPlace(c, key, nonce, buf, len, hdr);
    if ok {
      ok := CloseWithMki(c, key, nonce, buf, len, hdr);
    }
  }

  method CloseWithMki(c: Config, key: Keys, nonce: Nonce, buf: array<Byte>, len: nat, hdr: Headers) returns (ok: bool)
    requires KeysFit(c, key) && len + c.tagLen + c.mkiSize <= buf.Length && ValidRtp(buf[..len]) && hdr == HeadersOf(buf[..len])
    modifies buf
    ensures var body, end := Closed(c, key, nonce, old(buf[..len])), len + c.tagLen + c.mkiSize;
            ok == body.Some?
            && (ok ==> buf[..end] == body.value + key.mkiId && buf[end..] == old(buf[len..])[end - len..])
  {
    hide KeysFit, ValidRtp, HeadersOf, Closed;
    ghost var pkt, after, tail := buf[..len], buf[len..], buf[len + c.tagLen..];
    TagLength(c, key, nonce, pkt);
    FrontOfAfter(pkt, after, c.tagLen);
    FrontAndRest(buf[..], pkt, after);
    ok := ClosePacket(c, key, nonce, buf, len, hdr);
    if ok {
      AppendMki(c, key, buf, Closed(c, key, nonce, pkt).value, tail, len + c.tagLen);
      assert tail[c.mkiSize..] == after[c.tagLen + c.mkiSize..];
    }
  }

  method AppendMki(c: Config, key: Keys, buf: array<Byte>, ghost body: Octets, ghost tail: Octets, at: nat)
    requires buf[..] == body + tail && at == |body| && |key.mkiId| == c.mkiSize <= |tail|
    modifies buf
    ensures var end := at + c.mkiSize;
            end <= buf.Length && buf[..end] == body + key.mkiId && buf[end..] == tail[c.mkiSize..]
  {
    FrontOfAfter(body, tail, c.mkiSize);
    InjectMki(c, key, buf, at);
    FrontAndRest(buf[..], body + key.mkiId, tail[c.mkiSize..]);
  }

  lemma AeadBodyIs(c: Config, key: Keys, nonce: Nonce, pkt: Octets)
    requires ValidRtp(pkt) && KeysFit(c, key)
    ensures var x := XtnStep(c, key, nonce, pkt);
            HeadersOf(x.body) == HeadersOf(pkt)
            && AeadBody(c, key, nonce, pkt) == if x.ok then Closed(c, key, nonce, x.body) else None
  {
    LayoutKept(pkt, XtnStep(c, key, nonce, pkt).body);
    hide XtnStep, Closed, KeysFit;
  }

  lemma ProtectChecks(c: Config, mkiIndex: nat, index: nat, pkt: Octets, capacity: nat)
    requires ConfigOk(c)
    ensures var hdr, key, o := HeadersOf(pkt), KeyForIndex(c, mkiIndex), ProtectAead(c, mkiIndex, index, pkt, capacity);
            hdr.valid == ValidRtp(pkt)
            && if !hdr.valid then o == Failed(BadParam)
               else if key.None? then o == Failed(BadMki)
               else if capacity < |pkt| + c.tagLen + c.mkiSize then o == Failed(BufferSmall)
               else if c.useCryptex && c.conf && hdr.h > FIXED_HEADER && !hdr.x then o == Failed(CryptexErr)
               else
                 KeysFit(c, key.value) && |pkt| >= FIXED_HEADER
                 && var body := AeadBody(c, key.value, NonceOf(pkt, index), pkt);
                    o == if body.None? then Failed(ParseErr) else Outcome(Ok, body.value + key.value.mkiId)
  {
    if KeyForIndex(c, mkiIndex).Some? { KeyFits(c, mkiIndex); }
    hide AeadBody, KeysFit;
  }

  /** srtp_protect_aead in place. */
  method ProtectAeadInPlace(c: Config, mkiIndex: nat, index: nat, buf: array<Byte>, len: nat, capacity: nat)
      returns (status: Status, outLen: nat)
    requires ConfigOk(c) && len <= buf.Length && capacity <= buf.Length
    modifies buf
    ensures var o := ProtectAead(c, mkiIndex, index, old(buf[..len]), capacity);
            status == o.status
            && (status == Ok ==> outLen == len + c.tagLen + c.mkiSize <= buf.Length && buf[..outLen] == o.packet
                                 && buf[outLen..] == old(buf[len..])[outLen - len..])
    ensures LeavesBuffer(status) ==> buf[..] == old(buf[..])
  {
    hide HeadersOf, KeyForIndex, AeadBody, ProtectAead, ConfigOk, KeysFit, ValidRtp, NonceOf;
    outLen := 0;
    ProtectChecks(c, mkiIndex, index, buf[..len], capacity);
    var hdr := ReadHeaders(buf, len);
    if !hdr.valid { return BadParam, 0; }
    HasKeys(c);
    var key := KeyForIndex(c, mkiIndex);
    if key.None? { return BadMki, 0; }
    outLen := len + c.tagLen + c.mkiSize;
    if capacity < outLen { return BufferSmall, 0; }
    if c.useCryptex && c.conf && hdr.h > FIXED_HEADER && !hdr.x { return CryptexErr, 0; }
    var ok := SendAead(c, key.value, NonceOf(buf[..len], index), buf, len, hdr);
    status := if ok then Ok else ParseErr;
  }

  // ----- Unprotect -----

  /** The cipher writes the text over the front of what it opened. */
  method UnsealInPlace(c: Config, key: Keys, nonce: Nonce, buf: array<Byte>, start: nat, end: nat) returns (ok: bool)
    requires start <= end <= buf.Length && KeysFit(c, key)
    modifies buf
    ensures var r := Unsealed(c, key, nonce, old(buf[..]), start, end);
            ok == r.Some? && buf[..] == if ok then r.value else old(buf[..])
  {
    ghost var all := buf[..];
    assert buf[..start] == all[..start] && buf[start..end] == all[start..end];
    var text := key.open(nonce, buf[..start], buf[start..end]);
    ok := text.Some?;
    if ok {
      WriteAt(buf, start, text.value);
    }
  }

  lemma UnsealedAppend(c: Config, key: Keys, nonce: Nonce, srtp: Octets, after: Octets, start: nat, end: nat)
    requires start <= end <= |srtp| && KeysFit(c, key)
    ensures var r := Unsealed(c, key, nonce, srtp, start, end);
            Unsealed(c, key, nonce, srtp + after, start, end) == if r.None? then None else Some(r.value + after)
  {
    var all := srtp + after;
    assert all[..start] == srtp[..start] && all[start..end] == srtp[start..end];
    match key.open(nonce, srtp[..start], srtp[start..end]) {
      case None =>
      case Some(text) =>
        assert all[start + |text|..] == srtp[start + |text|..] + after;
        Group(srtp[..start] + text, srtp[start + |text|..], after);
    }
  }

  /** Open the rotated packet, rotate back, name the plain profile. */
  method OpenRotated(c: Config, key: Keys, nonce: Nonce, buf: array<Byte>, n: nat, end: nat, h: nat, ghost srtp: Octets, ghost after: Octets)
      returns (ok: bool)
    requires buf[..] == srtp + after && KeysFit(c, key)
    requires FIXED_HEADER <= h && h + XTN_HEADER <= |srtp| && ROTATED_START <= n <= end <= |srtp|
    modifies buf
    ensures var clear := Unsealed(c, key, nonce, Rotated(srtp, h), ROTATED_START, end);
            ok == clear.Some?
            && (ok ==> buf[..] == SetProfile(Unrotated(clear.value, h), h, PlainProfile(U16(srtp[h], srtp[h + 1]))) + after)
  {
    ghost var clear := Unsealed(c, key, nonce, Rotated(srtp, h), ROTATED_START, end);
    var profile := U16(buf[h], buf[h + 1]);
    assert profile == U16(srtp[h], srtp[h + 1]);
    hide KeysFit, Rotated, Unrotated, Unsealed, SetProfile, PlainProfile;
    RotatedAppend(srtp, after, h);
    UnsealedAppend(c, key, nonce, Rotated(srtp, h), after, ROTATED_START, end);
    MoveXtnBeforeCsrc(buf, h);
    ok := UnsealInPlace(c, key, nonce, buf, ROTATED_START, end);
    if ok {
      UnrotatedAppend(clear.value, after, h);
      SetProfileAppend(Unrotated(clear.value, h), after, h, PlainProfile(profile));
      MoveCsrcBeforeXtn(buf, h);
      WriteProfile(buf, h, PlainProfile(profile));
    }
  }

  /** Open, then the header extension. */
  method OpenPlain(c: Config, key: Keys, nonce: Nonce, buf: array<Byte>, len: nat, end: nat, hdr: Headers, start: nat, ghost srtp: Octets, ghost after: Octets)
      returns (status: Status)
    requires buf[..] == srtp + after && len == |srtp| && KeysFit(c, key)
    requires ValidRtp(srtp) && hdr == HeadersOf(srtp) && start == PayloadStart(srtp) <= end <= |srtp|
    modifies buf
    ensures var clear := Unsealed(c, key, nonce, srtp, start, end);
            (clear.None? ==> status == AuthFail)
            && (clear.Some? ==> ValidRtp(clear.value)
                                && var x := XtnStep(c, key, nonce, clear.value);
                                   status == (if x.ok then Ok else ParseErr) && buf[..] == x.body + after)
  {
    hide KeysFit, Unsealed, ValidRtp, XtnStep, HeadersOf, PayloadStart;
    UnsealedLayout(c, key, nonce, srtp, end);
    UnsealedAppend(c, key, nonce, srtp, after, start, end);
    ghost var clear := Unsealed(c, key, nonce, srtp, start, end);
    var ok := UnsealInPlace(c, key, nonce, buf, start, end);
    if !ok { return AuthFail; }
    FrontAndRest(buf[..], clear.value, after);
    ok := XtnStepInPlace(c, key, nonce, buf, len, hdr);
    return if ok then Ok else ParseErr;
  }

  lemma UnsealedLayout(c: Config, key: Keys, nonce: Nonce, srtp: Octets, end: nat)
    requires ValidRtp(srtp) && KeysFit(c, key) && end <= |srtp|
    ensures HeadersOf(srtp).h + HeadersOf(srtp).e == PayloadStart(srtp)
    ensures PayloadStart(srtp) <= end ==>
            var r := Unsealed(c, key, nonce, srtp, PayloadStart(srtp), end);
            r.Some? ==> ValidRtp(r.value) && HeadersOf(r.value) == HeadersOf(srtp)
  {
    if PayloadStart(srtp) <= end {
      var r := Unsealed(c, key, nonce, srtp, PayloadStart(srtp), end);
      if r.Some? { LayoutKept(srtp, r.value); }
    }
  }

  /** srtp_unprotect_aead after the checks. */
  method ReceiveAead(c: Config, key: Keys, nonce: Nonce, buf: array<Byte>, len: nat, n: nat, end: nat, hdr: Headers, received: bool)
      returns (status: Status)
    requires len <= buf.Length && ValidRtp(buf[..len]) && hdr == HeadersOf(buf[..len]) && KeysFit(c, key)
    requires received == CryptexReceived(c, buf[..len]) && OpenStart(c, buf[..len]) <= n <= end <= len
    modifies buf
    ensures var o := OpeningAead(c, key, nonce, old(buf[..len]), n, end);
            status == o.status && (status == Ok ==> buf[..n] == o.packet && buf[len..] == old(buf[len..]))
  {
    hide KeysFit, ValidRtp, HeadersOf, XtnStep, Unsealed, Rotated, Unrotated, SetProfile, PlainProfile, OpeningAead;
    hide CryptexReceived, PayloadStart, OpenStart, HdrLen, HasXtn;
    ghost var srtp, after := buf[..len], buf[len..];
    FrontAndRest(buf[..], srtp, after);
    OpeningCases(c, key, nonce, srtp, n, end);
    HeadersAre(srtp);
    if received {
      var ok := OpenRotated(c, key, nonce, buf, n, end, hdr.h, srtp, after);
      if !ok { return AuthFail; }
      status := Ok;
    } else {
      status := OpenPlain(c, key, nonce, buf, len, end, hdr, hdr.h + hdr.e, srtp, after);
      if status != Ok { return; }
    }
    FrontOnly(buf[..], len, n, after);
  }

  lemma OpeningCases(c: Config, key: Keys, nonce: Nonce, srtp: Octets, n: nat, end: nat)
    requires ValidRtp(srtp) && OpenStart(c, srtp) <= n <= end <= |srtp| && KeysFit(c, key)
    ensures CryptexReceived(c, srtp)
      ==> var h := HeadersOf(srtp).h;
          FIXED_HEADER <= h && h + XTN_HEADER <= |srtp| && ROTATED_START <= n
          && var clear := Unsealed(c, key, nonce, Rotated(srtp, h), ROTATED_START, end);
             OpeningAead(c, key, nonce, srtp, n, end)
             == if clear.None? then Failed(AuthFail)
                else Outcome(Ok, SetProfile(Unrotated(clear.value, h), h, PlainProfile(U16(srtp[h], srtp[h + 1])))[..n])
    ensures !CryptexReceived(c, srtp)
      ==> PayloadStart(srtp) <= n
          && var clear := Unsealed(c, key, nonce, srtp, PayloadStart(srtp), end);
             (clear.None? ==> OpeningAead(c, key, nonce, srtp, n, end) == Failed(AuthFail))
             && (clear.Some? ==> ValidRtp(clear.value)
                                 && var x := XtnStep(c, key, nonce, clear.value);
                                    OpeningAead(c, key, nonce, srtp, n, end)
                                    == if x.ok then Outcome(Ok, x.body[..n]) else Failed(ParseErr))
  {
    if !CryptexReceived(c, srtp) { UnsealedLayout(c, key, nonce, srtp, end); }
    hide KeysFit, XtnStep, Unsealed, Rotated, Unrotated, SetProfile, PlainProfile;
  }

  lemma FrontOnly(all: Octets, len: nat, n: nat, after: Octets)
    requires n <= len <= |all| && all[len..] == after
    ensures all[..n] == all[..len][..n]
  {
  }

  /** Everything after the choice of the key. */
  method AcceptAead(c: Config, key: Keys, nonce: Nonce, buf: array<Byte>, len: nat, capacity: nat, hdr: Headers)
      returns (status: Status, outLen: nat)
    requires len <= buf.Length && ValidRtp(buf[..len]) && hdr == HeadersOf(buf[..len]) && KeysFit(c, key)
    modifies buf
    ensures var o := AcceptingAead(c, key, nonce, old(buf[..len]), capacity);
            status == o.status
            && (status == Ok ==> outLen == len - c.tagLen - c.mkiSize && buf[..outLen] == o.packet
                                 && buf[len..] == old(buf[len..]))
    ensures LeavesBuffer(status) ==> buf[..] == old(buf[..])
  {
    hide HeadersOf, OpeningAead, KeysFit, ValidRtp, CryptexReceived, OpenStart;
    outLen := 0;
    var received, start := SeesCryptex(c, buf, len, hdr);
    if len < c.tagLen + c.mkiSize {
      return if start + c.mkiSize <= len then CipherFail else BufferSmall, 0;
    }
    outLen := len - c.tagLen - c.mkiSize;
    if start > outLen { return ParseErr, 0; }
    if capacity < outLen { return BufferSmall, 0; }
    status := ReceiveAead(c, key, nonce, buf, len, outLen, len - c.mkiSize, hdr, received);
    OpeningStatus(c, key, nonce, old(buf[..len]), outLen, len - c.mkiSize);
  }

  lemma OpeningStatus(c: Config, key: Keys, nonce: Nonce, srtp: Octets, n: nat, end: nat)
    requires ValidRtp(srtp) && OpenStart(c, srtp) <= n <= end <= |srtp| && KeysFit(c, key)
    ensures !LeavesBuffer(OpeningAead(c, key, nonce, srtp, n, end).status)
  {
    hide Unsealed, Rotated, Unrotated, SetProfile, XtnStep, KeysFit;
  }

  lemma FoundFits(c: Config, srtp: Octets, tagLen: nat)
    requires ConfigOk(c) && KeyForPacket(c, srtp, tagLen).Some?
    ensures KeysFit(c, KeyForPacket(c, srtp, tagLen).value)
  {
    assert KeyForPacket(c, srtp, tagLen).value in c.keys;
  }

  /** srtp_unprotect_aead in place. */
  method UnprotectAeadInPlace(c: Config, index: nat, buf: array<Byte>, len: nat, capacity: nat)
      returns (status: Status, outLen: nat)
    requires ConfigOk(c) && NotCombined(c) && len <= buf.Length
    modifies buf
    ensures var o := UnprotectAead(c, index, old(buf[..len]), capacity);
            status == o.status
            && (status == Ok ==> outLen == len - c.tagLen - c.mkiSize && buf[..outLen] == o.packet
                                 && buf[len..] == old(buf[len..]))
    ensures LeavesBuffer(status) ==> buf[..] == old(buf[..])
  {
    hide KeyForPacket, AcceptingAead, ConfigOk, NotCombined, KeysFit, LeavesBuffer;
    outLen := 0;
    var hdr := ReadHeaders(buf, len);
    if !hdr.valid { return BadParam, 0; }
    HasKeys(c);
    var key := KeyForPacket(c, buf[..len], 0);
    if key.None? { return BadMki, 0; }
    FoundFits(c, buf[..len], 0);
    status, outLen := AcceptAead(c, key.value, NonceOf(buf[..len], index), buf, len, capacity, hdr);
  }
}
