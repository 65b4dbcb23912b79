/** Protecting and unprotecting one RTP packet in place, with the packet index given (srtp_protect,
    srtp_unprotect and their AEAD variants in srtp.c). */
module SrtpTransform {
  import opened Bytes
  import opened SrtpPacket
  import opened SrtpHeaderExt
  import opened SrtpCryptex

  /** The status returned and the packet left in the buffer. */
  datatype Outcome = Outcome(status: Status, packet: Octets)

  function Failed(status: Status): Outcome { Outcome(status, []) }

  // ----- Header extensions inside a packet -----

  function Splice(pkt: Octets, at: nat, part: Octets): (r: Octets)
    requires at + |part| <= |pkt|
    ensures |r| == |pkt|
  {
    pkt[..at] + part + pkt[at + |part|..]
  }

  function XtnBody(pkt: Octets): (b: Octets)
    requires ValidRtp(pkt) && HasXtn(pkt)
    ensures |b| == XtnLen(pkt) - XTN_HEADER
  {
    pkt[HdrLen(pkt) + XTN_HEADER..HdrLen(pkt) + XtnLen(pkt)]
  }

  /** The packet with its extension body walked. */
  function ProcessXtn(pkt: Octets, ids: seq<Byte>, ks: Keystream): (r: Walked)
    requires ValidRtp(pkt) && HasXtn(pkt)
    ensures |r.body| == |pkt| && SameLayout(pkt, r.body) && ValidRtp(r.body)
  {
    match FormOf(Profile(pkt))
    case None => Walked(false, pkt)
    case Some(form) =>
      var w := Walk(XtnBody(pkt), form, ids, ks, 0);
      var spliced := Splice(pkt, HdrLen(pkt) + XTN_HEADER, w.body);
      LayoutKept(pkt, spliced);
      Walked(w.ok, spliced)
  }

  function XtnStep(c: Config, key: Keys, nonce: Nonce, pkt: Octets): (r: Walked)
    requires ValidRtp(pkt)
    ensures |r.body| == |pkt| && SameLayout(pkt, r.body) && ValidRtp(r.body)
  {
    if HasXtn(pkt) && key.xtnStream.Some? then ProcessXtn(pkt, c.encryptedIds, key.xtnStream.value(nonce))
    else Walked(true, pkt)
  }

  // ----- Counter mode and a message authentication code -----

  predicate CryptexRefused(c: Config, pkt: Octets)
    requires pkt != []
  {
    c.useCryptex && c.conf && CsrcCount(pkt) > 0 && !HasXtn(pkt)
  }

  /** Cryptex as the sender decides it, and as the receiver does. */
  predicate CryptexSent(c: Config, pkt: Octets)
    requires pkt != []
  {
    c.useCryptex && c.conf && HasXtn(pkt)
  }

  predicate CryptexReceived(c: Config, pkt: Octets)
    requires ValidRtp(pkt)
  {
    c.useCryptex && LooksEncrypted(pkt)
  }

  function TextKeystreamAt(c: Config, key: Keys): nat { if c.auth then key.prefixLen else 0 }

  function Prefix(key: Keys, nonce: Nonce): Octets
  {
    seq(key.prefixLen, i requires 0 <= i => key.stream(nonce)(i))
  }

  function Tag(key: Keys, nonce: Nonce, body: Octets): Octets
  {
    key.mac(Prefix(key, nonce), body, Roc(nonce.index))
  }

  /** Encryption once the header extension is done; None when Cryptex cannot name the profile. */
  function Encrypted(c: Config, key: Keys, nonce: Nonce, pkt: Octets): (r: Option<Octets>)
    requires ValidRtp(pkt)
    ensures r.Some? ==> |r.value| == |pkt|
  {
    var ks, k, h := key.stream(nonce), TextKeystreamAt(c, key), HdrLen(pkt);
    if CryptexSent(c, pkt) then
      match CryptexProfile(Profile(pkt))
      case None => None
      case Some(p) => Some(InPlace(SetProfile(pkt, h, p), h, |pkt|, ks, k))
    else if c.conf then Some(XorRange(pkt, PayloadStart(pkt), |pkt|, ks, k))
    else Some(pkt)
  }

  function CtrBody(c: Config, key: Keys, nonce: Nonce, pkt: Octets): (r: Option<Octets>)
    requires ValidRtp(pkt)
    ensures r.Some? ==> |r.value| == |pkt|
  {
    var x := XtnStep(c, key, nonce, pkt);
    LayoutKept(pkt, x.body);
    if !x.ok then None else Encrypted(c, key, nonce, x.body)
  }

  /** `after` is what the buffer holds after the packet: without authentication the octets where the tag
      would go stay. */
  function ProtectCtr(c: Config, mkiIndex: nat, index: nat, pkt: Octets, capacity: nat, after: Octets): Outcome
    requires c.keys != [] && capacity <= |pkt| + |after|
  {
    if !ValidRtp(pkt) then Failed(BadParam)
    else if KeyForIndex(c, mkiIndex).None? then Failed(BadMki)
    else if capacity < |pkt| + c.mkiSize + c.tagLen then Failed(BufferSmall)
    else if CryptexRefused(c, pkt) then Failed(CryptexErr)
    else
      Closing(c, KeyForIndex(c, mkiIndex).value, NonceOf(pkt, index), pkt, after)
  }

  /** What follows the checks. */
  function Closing(c: Config, key: Keys, nonce: Nonce, pkt: Octets, after: Octets): Outcome
    requires ValidRtp(pkt) && c.mkiSize + c.tagLen <= |after|
  {
    match CtrBody(c, key, nonce, pkt)
    case None => Failed(ParseErr)
    case Some(body) => Outcome(Ok, body + key.mkiId + if c.auth then Tag(key, nonce, body) else after[c.mkiSize..c.mkiSize + c.tagLen])
  }

  /** Where the receiver starts to decrypt: with Cryptex, after the rotated extension header. */
  function OpenStart(c: Config, srtp: Octets): nat
    requires ValidRtp(srtp)
  {
    if CryptexReceived(c, srtp) then ROTATED_START else PayloadStart(srtp)
  }

  /** What the receiver makes of a packet that holds `n` octets of RTP. */
  function CtrOpened(c: Config, key: Keys, nonce: Nonce, srtp: Octets, n: nat): (r: Octets)
    requires ValidRtp(srtp) && OpenStart(c, srtp) <= n <= |srtp|
    ensures |r| == |srtp|
  {
    var ks, k, h := key.stream(nonce), TextKeystreamAt(c, key), HdrLen(srtp);
    if CryptexReceived(c, srtp) then
      SetProfile(if c.conf then InPlace(srtp, h, n, ks, k) else srtp, h, PlainProfile(Profile(srtp)))
    else if c.conf then XorRange(srtp, PayloadStart(srtp), n, ks, k)
    else srtp
  }

  function UnprotectCtr(c: Config, index: nat, srtp: Octets, capacity: nat): Outcome
    requires c.keys != []
  {
    if !ValidRtp(srtp) then Failed(BadParam)
    else if KeyForPacket(c, srtp, c.tagLen).None? then Failed(BadMki)
    else if |srtp| < c.tagLen + c.mkiSize then Failed(BufferSmall)
    else
      Accepting(c, KeyForPacket(c, srtp, c.tagLen).value, NonceOf(srtp, index), srtp, |srtp| - c.tagLen - c.mkiSize, capacity)
  }

  /** What follows the choice of the key. */
  function Accepting(c: Config, key: Keys, nonce: Nonce, srtp: Octets, n: nat, capacity: nat): Outcome
    requires ValidRtp(srtp) && n + c.tagLen <= |srtp|
  {
    if OpenStart(c, srtp) > n then Failed(ParseErr)
    else if capacity < n then Failed(BufferSmall)
    else if c.auth && Tag(key, nonce, srtp[..n]) != srtp[|srtp| - c.tagLen..] then Failed(AuthFail)
    else Opening(c, key, nonce, srtp, n)
  }

  /** What follows authentication. */
  function Opening(c: Config, key: Keys, nonce: Nonce, srtp: Octets, n: nat): Outcome
    requires ValidRtp(srtp) && OpenStart(c, srtp) <= n <= |srtp|
  {
    var x := XtnStep(c, key, nonce, srtp);
    LayoutKept(srtp, x.body);
    if !x.ok then Failed(ParseErr) else Outcome(Ok, CtrOpened(c, key, nonce, x.body, n)[..n])
  }
}
