/** srtp_protect and srtp_unprotect after stream lookup, for counter mode, on one buffer. */
module SrtpProtect {
  import opened Bytes
  import opened SrtpPacket
  import opened SrtpTransform
  import opened SrtpBuffers

  /** memcpy to where the second of three parts begins. */
  method Overwrite(buf: array<Byte>, ghost front: Octets, ghost was: Octets, ghost rest: Octets, at: nat, part: Octets)
    requires buf[..] == front + was + rest && |front| == at && |part| == |was|
    modifies buf
    ensures buf[..] == front + part + rest
  {
    SpliceMiddle(front, was, rest, part);
    WriteAt(buf, at, part);
  }

  lemma SpliceMiddle(front: Octets, was: Octets, rest: Octets, part: Octets)
    requires |part| == |was|
    ensures Splice(front + was + rest, |front|, part) == front + part + rest
  {
  }

  /** Three parts of a buffer. */
  lemma ThreeParts(all: Octets, i: nat, j: nat)
    requires i <= j <= |all|
    ensures all == all[..i] + all[i..j] + all[j..]
  {
  }

  /** srtp_inject_mki */
  method InjectMki(c: Config, key: Keys, buf: array<Byte>, len: nat)
    requires len + c.mkiSize <= buf.Length && |key.mkiId| == c.mkiSize
    modifies buf
    ensures buf[..] == old(buf[..len]) + key.mkiId + old(buf[len + c.mkiSize..])
  {
    ThreeParts(buf[..], len, len + c.mkiSize);
    Overwrite(buf, buf[..len], buf[len..len + c.mkiSize], buf[len + c.mkiSize..], len, key.mkiId);
  }

  /** The keystream prefix goes where the tag will be. */
  method WritePrefix(key: Keys, nonce: Nonce, buf: array<Byte>, at: nat)
    requires at + key.prefixLen <= buf.Length
    modifies buf
    ensures buf[..] == old(buf[..at]) + Prefix(key, nonce) + old(buf[at + key.prefixLen..])
  {
    ThreeParts(buf[..], at, at + key.prefixLen);
    Overwrite(buf, buf[..at], buf[at..at + key.prefixLen], buf[at + key.prefixLen..], at, Prefix(key, nonce));
  }

  /** The authentication function over the packet and the rollover counter. */
  method WriteTag(key: Keys, nonce: Nonce, buf: array<Byte>, len: nat, at: nat, tagLen: nat)
    requires len <= at && at + tagLen <= buf.Length && key.prefixLen <= tagLen
    requires buf[at..at + key.prefixLen] == Prefix(key, nonce)
    requires |Tag(key, nonce, buf[..len])| == tagLen
    modifies buf
    ensures buf[..] == old(buf[..at]) + Tag(key, nonce, old(buf[..len])) + old(buf[at + tagLen..])
  {
    var tag := key.mac(buf[at..at + key.prefixLen], buf[..len], Roc(nonce.index));
    ThreeParts(buf[..], at, at + tagLen);
    Overwrite(buf, buf[..at], buf[at..at + tagLen], buf[at + tagLen..], at, tag);
  }

  /** The body in place when it is followed by the MKI and, with authentication, the prefix; then the tag. */
  method FinishPacket(c: Config, key: Keys, nonce: Nonce, buf: array<Byte>, len: nat, hdr: Headers, ghost rest: Octets)
      returns (ok: bool)
    requires len + c.mkiSize + c.tagLen <= buf.Length && KeysFit(c, key)
    requires ValidRtp(buf[..len]) && hdr == HeadersOf(buf[..len])
    requires buf[len..] == key.mkiId + rest && (c.auth ==> rest[..key.prefixLen] == Prefix(key, nonce))
    modifies buf
    ensures var body := CtrBody(c, key, nonce, old(buf[..len]));
            ok == body.Some?
            && (ok ==> buf[..] == body.value
                                  + (key.mkiId + if c.auth then Tag(key, nonce, body.value) + rest[c.tagLen..] else rest))
  {
    hide *;
    ghost var body := CtrBody(c, key, nonce, buf[..len]);
    ok := BodyInPlace(c, key, nonce, buf, len, hdr);
    if ok && c.auth {
      TagLength(c, key, nonce, body.value);
      TagAfterMki(c, key, nonce, buf, len, body.value, rest);
    }
  }

  method TagAfterMki(c: Config, key: Keys, nonce: Nonce, buf: array<Byte>, len: nat, ghost body: Octets, ghost rest: Octets)
    requires buf[..] == body + (key.mkiId + rest) && len == |body| && |key.mkiId| == c.mkiSize
    requires key.prefixLen <= c.tagLen <= |rest| && rest[..key.prefixLen] == Prefix(key, nonce)
    requires |Tag(key, nonce, body)| == c.tagLen
    modifies buf
    ensures buf[..] == body + (key.mkiId + (Tag(key, nonce, body) + rest[c.tagLen..]))
  {
    hide *;
    BeforeTag(body, key.mkiId, rest, key.prefixLen, c.tagLen, buf[..]);
    WriteTag(key, nonce, buf, len, len + c.mkiSize, c.tagLen);
    Regroup(body, key.mkiId, Tag(key, nonce, body), rest[c.tagLen..]);
  }

  lemma Regroup(a: Octets, b: Octets, c: Octets, d: Octets)
    ensures a + b + c + d == a + (b + (c + d))
  {
    Group(a, b, c + d);
    Group(a + b, c, d);
  }

  lemma TagLength(c: Config, key: Keys, nonce: Nonce, body: Octets)
    requires KeysFit(c, key)
    ensures |Tag(key, nonce, body)| == c.tagLen && key.prefixLen <= c.tagLen && |key.mkiId| == c.mkiSize
  {
  }

  lemma BeforeTag(body: Octets, mki: Octets, rest: Octets, prefixLen: nat, tagLen: nat, all: Octets)
    requires all == body + (mki + rest) && prefixLen <= tagLen <= |rest|
    ensures var at := |body| + |mki|;
            all[..|body|] == body && all[at..at + prefixLen] == rest[..prefixLen]
            && all[..at] == body + mki && all[at + tagLen..] == rest[tagLen..]
  {
  }

  /** MKI and prefix into the trailer, which holds `after`. */
  method PrepareTrailer(c: Config, key: Keys, nonce: Nonce, buf: array<Byte>, len: nat, ghost pkt: Octets, ghost after: Octets)
      returns (ghost rest: Octets)
    requires buf[..] == pkt + after && len == |pkt|
    requires c.mkiSize + c.tagLen <= |after| && |key.mkiId| == c.mkiSize && key.prefixLen <= c.tagLen
    modifies buf
    ensures buf[..] == pkt + (key.mkiId + rest) && |rest| == |after| - c.mkiSize
    ensures c.auth ==> rest[..key.prefixLen] == Prefix(key, nonce) && rest[c.tagLen..] == after[c.mkiSize + c.tagLen..]
    ensures !c.auth ==> rest == after[c.mkiSize..]
  {
    hide Prefix;
    FrontOfAfter(pkt, after, c.mkiSize);
    InjectMki(c, key, buf, len);
    rest := after[c.mkiSize..];
    if c.auth {
      PutPrefix(key, nonce, buf, len + c.mkiSize, pkt + key.mkiId, rest, c.tagLen);
      rest := Prefix(key, nonce) + rest[key.prefixLen..];
      PrefixLength(key, nonce);
    }
    Group(pkt, key.mkiId, rest);
  }

  lemma Group(a: Octets, b: Octets, c: Octets)
    ensures a + b + c == a + (b + c)
  {
  }

  method PutPrefix(key: Keys, nonce: Nonce, buf: array<Byte>, at: nat, ghost front: Octets, ghost rest: Octets, ghost n: nat)
    requires buf[..] == front + rest && at == |front| && key.prefixLen <= n <= |rest|
    modifies buf
    ensures var shifted := Prefix(key, nonce) + rest[key.prefixLen..];
            buf[..] == front + shifted && shifted[..key.prefixLen] == Prefix(key, nonce) && shifted[n..] == rest[n..]
  {
    hide Prefix;
    FrontOfAfter(front, rest, key.prefixLen);
    WritePrefix(key, nonce, buf, at);
    PrefixLength(key, nonce);
    ShiftedTail(rest, Prefix(key, nonce), n);
    Group(front, Prefix(key, nonce), rest[key.prefixLen..]);
  }

  lemma FrontOfAfter(front: Octets, after: Octets, n: nat)
    requires n <= |after|
    ensures (front + after)[..|front|] == front && (front + after)[|front| + n..] == after[n..]
  {
  }

  lemma PrefixLength(key: Keys, nonce: Nonce)
    ensures |Prefix(key, nonce)| == key.prefixLen
  {
  }

  lemma ShiftedTail(tail: Octets, prefix: Octets, n: nat)
    requires |prefix| <= n <= |tail|
    ensures (prefix + tail[|prefix|..])[n..] == tail[n..] && (prefix + tail[|prefix|..])[..|prefix|] == prefix
  {
  }

  /** What a buffer holds after a successful protect. */
  lemma Assembled(body: Octets, mki: Octets, tag: Octets, after: Octets, all: Octets)
    requires all == body + (mki + (tag + after))
    ensures var n := |body| + |mki| + |tag|; n <= |all| && all[..n] == body + mki + tag && all[n..] == after
  {
  }

  /** Everything after the checks. */
  method SendPacket(c: Config, key: Keys, nonce: Nonce, buf: array<Byte>, len: nat, hdr: Headers) returns (ok: bool)
    requires len + c.mkiSize + c.tagLen <= buf.Length && KeysFit(c, key)
    requires ValidRtp(buf[..len]) && hdr == HeadersOf(buf[..len])
    modifies buf
    ensures var end := len + c.mkiSize + c.tagLen;
            var o := Closing(c, key, nonce, old(buf[..len]), old(buf[len..]));
            o.status == (if ok then Ok else ParseErr)
            && (ok ==> buf[..end] == o.packet && buf[end..] == old(buf[len..])[end - len..])
  {
    ghost var pkt, after := buf[..len], buf[len..];
    ghost var body := CtrBody(c, key, nonce, pkt);
    hide ValidRtp, CtrBody, Tag, KeysFit, HeadersOf, Prefix, Closing;
    TagLength(c, key, nonce, pkt);
    FrontAndRest(buf[..], pkt, after);
    ghost var rest := PrepareTrailer(c, key, nonce, buf, len, pkt, after);
    FrontAndRest(buf[..], pkt, key.mkiId + rest);
    ok := FinishPacket(c, key, nonce, buf, len, hdr, rest);
    Sent(c, key, nonce, pkt, after, rest, buf[..]);
  }

  lemma Sent(c: Config, key: Keys, nonce: Nonce, pkt: Octets, after: Octets, rest: Octets, all: Octets)
    requires ValidRtp(pkt) && KeysFit(c, key) && c.mkiSize + c.tagLen <= |after| && |rest| == |after| - c.mkiSize
    requires c.auth ==> rest[c.tagLen..] == after[c.mkiSize + c.tagLen..]
    requires !c.auth ==> rest == after[c.mkiSize..]
    ensures var body, o := CtrBody(c, key, nonce, pkt), Closing(c, key, nonce, pkt, after);
            o.status == (if body.Some? then Ok else ParseErr)
            && (body.Some?
                && all == body.value + (key.mkiId + if c.auth then Tag(key, nonce, body.value) + rest[c.tagLen..] else rest)
                ==> var n := c.mkiSize + c.tagLen;
                    |pkt| + n <= |all| && all[..|pkt| + n] == o.packet && all[|pkt| + n..] == after[n..])
  {
    var body := CtrBody(c, key, nonce, pkt);
    hide CtrBody, Tag, KeysFit;
    if body.Some? && all == body.value + (key.mkiId + if c.auth then Tag(key, nonce, body.value) + rest[c.tagLen..] else rest) {
      TagLength(c, key, nonce, body.value);
      var tail := after[c.mkiSize..c.mkiSize + c.tagLen];
      assert !c.auth ==> rest == tail + after[c.mkiSize + c.tagLen..];
      Assembled(body.value, key.mkiId, if c.auth then Tag(key, nonce, body.value) else tail, after[c.mkiSize + c.tagLen..], all);
    }
  }

  lemma ProtectChecks(c: Config, mkiIndex: nat, index: nat, pkt: Octets, capacity: nat, after: Octets)
    requires ConfigOk(c) && capacity <= |pkt| + |after|
    ensures var hdr, key, o := HeadersOf(pkt), KeyForIndex(c, mkiIndex), ProtectCtr(c, mkiIndex, index, pkt, capacity, after);
            hdr.valid == ValidRtp(pkt)
            && if !hdr.valid then o == Failed(BadParam)
               else if key.None? then o == Failed(BadMki)
               else if capacity < |pkt| + c.mkiSize + c.tagLen then o == Failed(BufferSmall)
               else if c.useCryptex && c.conf && hdr.h > FIXED_HEADER && !hdr.x then o == Failed(CryptexErr)
               else
                 KeysFit(c, key.value) && |pkt| >= FIXED_HEADER
                 && o == Closing(c, key.value, NonceOf(pkt, index), pkt, after)
  {
    hide Closing, KeysFit;
  }

  predicate LeavesBuffer(s: Status) { s == BadParam || s == BadMki || s == BufferSmall || s == CryptexErr }

  /** srtp_protect in place: the packet of `len` octets becomes the protected one, as ProtectCtr says; a
      refused packet is left as it was. */
  method ProtectInPlace(c: Config, mkiIndex: nat, index: nat, buf: array<Byte>, len: nat, capacity: nat)
      returns (status: Status, outLen: nat)
    requires ConfigOk(c) && len <= buf.Length && capacity <= buf.Length
    modifies buf
    ensures var o := ProtectCtr(c, mkiIndex, index, old(buf[..len]), capacity, old(buf[len..]));
            status == o.status
            && (status == Ok ==> outLen == len + c.mkiSize + c.tagLen <= buf.Length && buf[..outLen] == o.packet
                                 && buf[outLen..] == old(buf[len..])[outLen - len..])
    ensures LeavesBuffer(status) ==> buf[..] == old(buf[..])
  {
    hide HeadersOf, KeyForIndex, Closing, ProtectCtr, ConfigOk, KeysFit, ValidRtp, NonceOf;
    outLen := 0;
    ProtectChecks(c, mkiIndex, index, buf[..len], capacity, buf[len..]);
    var hdr := ReadHeaders(buf, len);
    if !hdr.valid { return BadParam, 0; }
    HasKeys(c);
    var key := KeyForIndex(c, mkiIndex);
    if key.None? { return BadMki, 0; }
    outLen := len + c.mkiSize + c.tagLen;
    if capacity < outLen { return BufferSmall, 0; }
    if c.useCryptex && c.conf && hdr.h > FIXED_HEADER && !hdr.x { return CryptexErr, 0; }
    var ok := SendPacket(c, key.value, NonceOf(buf[..len], index), buf, len, hdr);
    status := if ok then Ok else ParseErr;
  }
}
