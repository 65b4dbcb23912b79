/** srtp_unprotect after stream lookup, for counter mode, on one buffer. */
module SrtpUnprotect {
  import opened Bytes
  import opened SrtpPacket
  import opened SrtpCryptex
  import opened SrtpTransform
  import opened SrtpInPlace
  import opened SrtpBuffers
  import opened SrtpProtect

  /** Decrypting the packet that a longer buffer begins with, `n` octets of which are RTP. */
  function OpenedIn(c: Config, key: Keys, nonce: Nonce, all: Octets, n: nat, hdr: Headers, received: bool): (r: Octets)
    requires FIXED_HEADER <= hdr.h && hdr.h + hdr.e <= |all| && (received ==> XTN_HEADER <= hdr.e)
    requires (if received then ROTATED_START else hdr.h + hdr.e) <= n <= |all|
  {
    var ks, k, h := key.stream(nonce), TextKeystreamAt(c, key), hdr.h;
    if received then
      SetProfile(if c.conf then InPlace(all, h, n, ks, k) else all, h, PlainProfile(U16(all[h], all[h + 1])))
    else if c.conf then XorRange(all, h + hdr.e, n, ks, k)
    else all
  }

  lemma OpenedInIs(c: Config, key: Keys, nonce: Nonce, pkt: Octets, after: Octets, n: nat)
    requires ValidRtp(pkt) && OpenStart(c, pkt) <= n <= |pkt|
    ensures var hdr, received := HeadersOf(pkt), CryptexReceived(c, pkt);
            FIXED_HEADER <= hdr.h && hdr.h + hdr.e <= |pkt| && (received ==> XTN_HEADER <= hdr.e)
            && (if received then ROTATED_START else hdr.h + hdr.e) <= n
            && OpenedIn(c, key, nonce, pkt + after, n, hdr, received) == CtrOpened(c, key, nonce, pkt, n) + after
  {
    hide ValidRtp, HeadersOf, HdrLen, HasXtn, XtnLen, PayloadStart, CryptexReceived, InPlace, SetProfile, XorRange;
    var hdr := HeadersOf(pkt);
    HeadersAre(pkt);
    if CryptexReceived(c, pkt) {
      ReceivedHasXtn(c, pkt);
      CryptexOpenedIs(c, key, nonce, pkt, after, n, hdr);
    } else {
      XorRangeAppend(pkt, after, hdr.h + hdr.e, n, key.stream(nonce), TextKeystreamAt(c, key));
    }
  }

  lemma ReceivedHasXtn(c: Config, pkt: Octets)
    requires ValidRtp(pkt) && CryptexReceived(c, pkt)
    ensures HasXtn(pkt)
  {
  }

  lemma SameHeaders(c: Config, a: Octets, b: Octets)
    requires ValidRtp(a) && SameLayout(a, b) && |a| == |b|
    ensures ValidRtp(b) && HeadersOf(b) == HeadersOf(a) && CryptexReceived(c, b) == CryptexReceived(c, a)
    ensures OpenStart(c, b) == OpenStart(c, a)
  {
    LayoutKept(a, b);
  }

  lemma HeadersAre(pkt: Octets)
    requires ValidRtp(pkt)
    ensures var hdr := HeadersOf(pkt);
            FIXED_HEADER <= hdr.h == HdrLen(pkt) && hdr.x == HasXtn(pkt) && hdr.h + hdr.e == PayloadStart(pkt) <= |pkt|
            && (hdr.x ==> XTN_HEADER <= hdr.e)
  {
  }

  lemma CryptexOpenedIs(c: Config, key: Keys, nonce: Nonce, pkt: Octets, after: Octets, n: nat, hdr: Headers)
    requires FIXED_HEADER <= hdr.h && XTN_HEADER <= hdr.e && hdr.h + hdr.e <= |pkt| && ROTATED_START <= n <= |pkt|
    ensures var ks, k, h := key.stream(nonce), TextKeystreamAt(c, key), hdr.h;
            OpenedIn(c, key, nonce, pkt + after, n, hdr, true)
            == SetProfile(if c.conf then InPlace(pkt, h, n, ks, k) else pkt, h, PlainProfile(U16(pkt[h], pkt[h + 1]))) + after
  {
    hide InPlace, SetProfile, PlainProfile, TextKeystreamAt;
    var ks, k, h := key.stream(nonce), TextKeystreamAt(c, key), hdr.h;
    var clear := if c.conf then InPlace(pkt, h, n, ks, k) else pkt;
    InPlaceAppend(pkt, after, h, n, ks, k);
    SetProfileAppend(clear, after, h, PlainProfile(U16(pkt[h], pkt[h + 1])));
  }

  /** Cryptex or the plain cipher, or no cipher at all; with Cryptex the profile comes back in any case. */
  method DecryptInPlace(c: Config, key: Keys, nonce: Nonce, buf: array<Byte>, n: nat, hdr: Headers, received: bool)
    requires FIXED_HEADER <= hdr.h && hdr.h + hdr.e <= buf.Length && (received ==> XTN_HEADER <= hdr.e)
    requires (if received then ROTATED_START else hdr.h + hdr.e) <= n <= buf.Length
    modifies buf
    ensures buf[..] == OpenedIn(c, key, nonce, old(buf[..]), n, hdr, received)
  {
    var ks, k, h := key.stream(nonce), TextKeystreamAt(c, key), hdr.h;
    ghost var all := buf[..];
    if received {
      var profile := U16(buf[h], buf[h + 1]);
      if c.conf {
        CryptexInPlace(buf, h, n, ks, k);
      } else {
        MoveXtnBeforeCsrc(buf, h);
        MoveCsrcBeforeXtn(buf, h);
        UnrotateRotated(all, h);
      }
      hide InPlace, SetProfile, XorRange, TextKeystreamAt;
      WriteProfile(buf, h, PlainProfile(profile));
    } else if c.conf {
      XorInPlace(buf, h + hdr.e, n, ks, k);
    }
  }

  lemma OpeningIs(c: Config, key: Keys, nonce: Nonce, pkt: Octets, after: Octets, n: nat)
    requires ValidRtp(pkt) && OpenStart(c, pkt) <= n <= |pkt|
    ensures var x, hdr, received := XtnStep(c, key, nonce, pkt), HeadersOf(pkt), CryptexReceived(c, pkt);
            FIXED_HEADER <= hdr.h && hdr.h + hdr.e <= |pkt| && (received ==> XTN_HEADER <= hdr.e)
            && (if received then ROTATED_START else hdr.h + hdr.e) <= n
            && (!x.ok ==> Opening(c, key, nonce, pkt, n) == Failed(ParseErr))
            && (x.ok ==> var all := OpenedIn(c, key, nonce, x.body + after, n, hdr, received);
                         |all| >= n && Opening(c, key, nonce, pkt, n) == Outcome(Ok, all[..n])
                         && all[|pkt|..] == after)
  {
    hide XtnStep, OpenedIn, CtrOpened, ValidRtp, HeadersOf, CryptexReceived;
    var x := XtnStep(c, key, nonce, pkt);
    SameHeaders(c, pkt, x.body);
    OpenedInIs(c, key, nonce, x.body, after, n);
  }

  /** What follows authentication, in place. */
  method OpenInPlace(c: Config, key: Keys, nonce: Nonce, buf: array<Byte>, len: nat, n: nat, hdr: Headers, received: bool)
      returns (ok: bool)
    requires len <= buf.Length && ValidRtp(buf[..len]) && hdr == HeadersOf(buf[..len])
    requires received == CryptexReceived(c, buf[..len]) && OpenStart(c, buf[..len]) <= n <= len
    modifies buf
    ensures var o := Opening(c, key, nonce, old(buf[..len]), n);
            o.status == (if ok then Ok else ParseErr) && (ok ==> buf[..n] == o.packet && buf[len..] == old(buf[len..]))
  {
    hide XtnStep, OpenedIn, Opening, HeadersOf, ValidRtp, CryptexReceived, OpenStart;
    ghost var pkt, after := buf[..len], buf[len..];
    ghost var x := XtnStep(c, key, nonce, pkt);
    OpeningIs(c, key, nonce, pkt, after, n);
    ok := XtnStepInPlace(c, key, nonce, buf, len, hdr);
    if ok {
      Rejoin(buf[..], len, x.body, after);
      DecryptInPlace(c, key, nonce, buf, n, hdr, received);
    }
  }

  lemma Rejoin(all: Octets, len: nat, front: Octets, after: Octets)
    requires len <= |all| && all[..len] == front && all[len..] == after
    ensures all == front + after
  {
  }

  lemma UnprotectChecks(c: Config, index: nat, srtp: Octets, capacity: nat)
    requires ConfigOk(c)
    ensures var hdr, key, o := HeadersOf(srtp), KeyForPacket(c, srtp, c.tagLen), UnprotectCtr(c, index, srtp, capacity);
            hdr.valid == ValidRtp(srtp)
            && if !hdr.valid then o == Failed(BadParam)
               else if key.None? then o == Failed(BadMki)
               else if |srtp| < c.tagLen + c.mkiSize then o == Failed(BufferSmall)
               else
                 |srtp| >= FIXED_HEADER
                 && o == Accepting(c, key.value, NonceOf(srtp, index), srtp, |srtp| - c.tagLen - c.mkiSize, capacity)
  {
    hide Accepting, KeyForPacket;
  }

  /** Whether the extension says Cryptex. */
  method SeesCryptex(c: Config, buf: array<Byte>, len: nat, hdr: Headers) returns (received: bool, start: nat)
    requires len <= buf.Length && ValidRtp(buf[..len]) && hdr == HeadersOf(buf[..len])
    ensures received == CryptexReceived(c, buf[..len]) && start == OpenStart(c, buf[..len])
  {
    ghost var pkt := buf[..len];
    received := c.useCryptex && hdr.x && IsCryptexProfile(U16(buf[hdr.h], buf[hdr.h + 1]));
    start := if received then ROTATED_START else hdr.h + hdr.e;
  }

  /** Authentication, then the rest. */
  method AcceptInPlace(c: Config, key: Keys, nonce: Nonce, buf: array<Byte>, len: nat, n: nat, capacity: nat, hdr: Headers)
      returns (status: Status)
    requires len <= buf.Length && ValidRtp(buf[..len]) && hdr == HeadersOf(buf[..len]) && n + c.tagLen <= len
    modifies buf
    ensures var o := Accepting(c, key, nonce, old(buf[..len]), n, capacity);
            status == o.status && (status == Ok ==> buf[..n] == o.packet && buf[len..] == old(buf[len..]))
    ensures LeavesBuffer(status) || status == AuthFail ==> buf[..] == old(buf[..])
  {
    hide HeadersOf, Opening, Tag, ValidRtp, CryptexReceived, OpenStart;
    ghost var srtp := buf[..len];
    var received, start := SeesCryptex(c, buf, len, hdr);
    if start > n { return ParseErr; }
    if capacity < n { return BufferSmall; }
    if c.auth {
      var tmpTag := Tag(key, nonce, buf[..n]);
      assert buf[..n] == srtp[..n] && buf[len - c.tagLen..len] == srtp[len - c.tagLen..];
      if tmpTag != buf[len - c.tagLen..len] { return AuthFail; }
    }
    var ok := OpenInPlace(c, key, nonce, buf, len, n, hdr, received);
    return if ok then Ok else ParseErr;
  }

  /** srtp_unprotect in place: the outcome is UnprotectCtr's, and a packet that fails authentication is left
      as it was. */
  method UnprotectInPlace(c: Config, index: nat, buf: array<Byte>, len: nat, capacity: nat)
      returns (status: Status, outLen: nat)
    requires ConfigOk(c) && len <= buf.Length
    modifies buf
    ensures var o := UnprotectCtr(c, index, old(buf[..len]), capacity);
            status == o.status
            && (status == Ok ==> outLen == len - c.tagLen - c.mkiSize && buf[..outLen] == o.packet
                                 && buf[len..] == old(buf[len..]))
    ensures LeavesBuffer(status) || status == AuthFail ==> buf[..] == old(buf[..])
  {
    hide HeadersOf, KeyForPacket, UnprotectCtr, Accepting, ConfigOk, ValidRtp;
    UnprotectChecks(c, index, buf[..len], capacity);
    var hdr := ReadHeaders(buf, len);
    if !hdr.valid { return BadParam, 0; }
    HasKeys(c);
    var key := KeyForPacket(c, buf[..len], c.tagLen);
    if key.None? { return BadMki, 0; }
    if len < c.tagLen + c.mkiSize { return BufferSmall, 0; }
    outLen := len - c.tagLen - c.mkiSize;
    status := AcceptInPlace(c, key.value, NonceOf(buf[..len], index), buf, len, outLen, capacity, hdr);
  }
}
