/** RTP packet layout and key material as srtp.c sees them. */
module SrtpPacket {
  import opened Bytes

  type Octets = seq<Byte>

  /** An endless keystream; position n is the n-th octet the cipher gives after its IV is set. */
  type Keystream = nat -> Byte

  datatype Status =
    | Ok | BadParam | BufferSmall | ParseErr | CipherFail | AuthFail | BadMki | CryptexErr
    | NoCtx | AllocFail | ReplayFail | ReplayOld | PktIdxOld

  const FIXED_HEADER := 12
  const XTN_HEADER := 4
  const ONE_BYTE: Word16 := 0xBEDE
  const TWO_BYTE: Word16 := 0x1000
  const CRYPTEX_ONE_BYTE: Word16 := 0xC0DE
  const CRYPTEX_TWO_BYTE: Word16 := 0xC2DE

  // ----- Layout (section 5.1 of RFC 3550) -----

  function CsrcCount(pkt: Octets): (cc: nat)
    requires pkt != []
    ensures cc < 16
  {
    pkt[0] % 16
  }

  predicate HasXtn(pkt: Octets)
    requires pkt != []
  {
    pkt[0] / 16 % 2 == 1
  }

  /** The fixed header and the CSRC list. */
  function HdrLen(pkt: Octets): (h: nat)
    requires pkt != []
    ensures FIXED_HEADER <= h
  {
    FIXED_HEADER + 4 * CsrcCount(pkt)
  }

  /** The header extension with its own four-byte header. */
  function XtnLen(pkt: Octets): (e: nat)
    requires pkt != [] && HdrLen(pkt) + XTN_HEADER <= |pkt|
    ensures e >= XTN_HEADER
  {
    4 * (U16(pkt[HdrLen(pkt) + 2], pkt[HdrLen(pkt) + 3]) + 1)
  }

  function Profile(pkt: Octets): Word16
    requires pkt != [] && HdrLen(pkt) + XTN_HEADER <= |pkt|
  {
    U16(pkt[HdrLen(pkt)], pkt[HdrLen(pkt) + 1])
  }

  predicate ValidRtp(pkt: Octets)
  {
    |pkt| >= FIXED_HEADER
    && |pkt| >= HdrLen(pkt)
    && (HasXtn(pkt) ==> |pkt| >= HdrLen(pkt) + XTN_HEADER && |pkt| >= HdrLen(pkt) + XtnLen(pkt))
  }

  lemma HasHeader(pkt: Octets)
    requires ValidRtp(pkt)
    ensures |pkt| >= FIXED_HEADER
  {
  }

  /** Where the payload starts. */
  function PayloadStart(pkt: Octets): (p: nat)
    requires ValidRtp(pkt)
    ensures HdrLen(pkt) <= p <= |pkt|
  {
    HdrLen(pkt) + if HasXtn(pkt) then XtnLen(pkt) else 0
  }

  /** How far the octets that fix the layout go: the headers with the extension's own header. */
  function LayoutEnd(pkt: Octets): nat
    requires ValidRtp(pkt)
  {
    HdrLen(pkt) + if HasXtn(pkt) then XTN_HEADER else 0
  }

  /** `b` starts with the layout octets of `a`. */
  predicate SameLayout(a: Octets, b: Octets)
    requires ValidRtp(a)
  {
    |a| <= |b| && forall i :: 0 <= i < LayoutEnd(a) ==> b[i] == a[i]
  }

  lemma LayoutKept(a: Octets, b: Octets)
    requires ValidRtp(a) && SameLayout(a, b)
    ensures ValidRtp(b) && HasXtn(b) == HasXtn(a) && HdrLen(b) == HdrLen(a) && PayloadStart(b) == PayloadStart(a)
    ensures HasXtn(a) ==> XtnLen(b) == XtnLen(a) && Profile(b) == Profile(a)
    ensures CsrcCount(b) == CsrcCount(a) && b[8..FIXED_HEADER] == a[8..FIXED_HEADER]
  {
    assert b[0] == a[0];
  }

  // ----- Regions -----

  /** The octets from `from` up to `to` with the keystream from position `k` on added to them. */
  function XorRange(pkt: Octets, from: nat, to: nat, ks: Keystream, k: nat): (r: Octets)
    requires from <= to <= |pkt|
    ensures |r| == |pkt|
    ensures forall i :: 0 <= i < |pkt| ==> r[i] == if from <= i < to then Xor(pkt[i], ks(k + i - from)) else pkt[i]
  {
    seq(|pkt|, i requires 0 <= i < |pkt| => if from <= i < to then Xor(pkt[i], ks(k + i - from)) else pkt[i])
  }

  lemma XorRangeCancels(pkt: Octets, from: nat, to: nat, ks: Keystream, k: nat)
    requires from <= to <= |pkt|
    ensures XorRange(XorRange(pkt, from, to, ks, k), from, to, ks, k) == pkt
  {
    var r := XorRange(XorRange(pkt, from, to, ks, k), from, to, ks, k);
    forall i | 0 <= i < |pkt| ensures r[i] == pkt[i] {
      if from <= i < to { XorCancels(pkt[i], ks(k + i - from)); }
    }
  }

  // ----- Keys -----

  /** What the IV is made of: the SSRC octets of the header and the 48-bit packet index. */
  datatype Nonce = Nonce(ssrc: Octets, index: nat)

  /** Session keys as the packet code uses them.  `seal` and `open` are the AEAD cipher with the nonce,
      the associated data and the text; `mac` takes the keystream prefix, the octets authenticated and
      the rollover counter. */
  datatype Keys = Keys(
    mkiId: Octets,
    stream: Nonce -> Keystream,
    xtnStream: Option<Nonce -> Keystream>,
    prefixLen: nat,
    mac: (Octets, Octets, nat) -> Octets,
    seal: (Nonce, Octets, Octets) -> Octets,
    open: (Nonce, Octets, Octets) -> Option<Octets>)

  /** A stream's settings.  One tag length serves all its keys: they are made from one policy. */
  datatype Config = Config(
    useCryptex: bool, conf: bool, auth: bool,
    useMki: bool, mkiSize: nat, tagLen: nat,
    encryptedIds: seq<Byte>, keys: seq<Keys>)

  /** What srtp_valid_policy and stream initialisation establish, with master keys told apart by their
      MKIs. */
  ghost predicate ConfigOk(c: Config)
  {
    c.keys != [] && (c.useMki <==> c.mkiSize > 0)
    && (forall i :: 0 <= i < |c.keys| ==> KeysFit(c, c.keys[i]))
    && (c.useMki ==> forall i, j :: 0 <= i < j < |c.keys| ==> c.keys[i].mkiId != c.keys[j].mkiId)
  }

  lemma HasKeys(c: Config)
    requires ConfigOk(c)
    ensures c.keys != []
  {
  }

  /** The lengths of what a key produces. */
  ghost predicate KeysFit(c: Config, k: Keys)
  {
    |k.mkiId| == c.mkiSize && k.prefixLen <= c.tagLen
    && (forall p, m, roc :: |k.mac(p, m, roc)| == c.tagLen)
    && (forall n, aad, text :: |k.seal(n, aad, text)| == |text| + c.tagLen)
    && (forall n, aad, sealed :: k.open(n, aad, sealed).Some? ==> |k.open(n, aad, sealed).value| + c.tagLen == |sealed|)
  }

  /** The law of an AEAD cipher: opening what was sealed under the same nonce and associated data gives
      the text back. */
  ghost predicate AeadLaw(k: Keys)
  {
    forall n, aad, text :: k.open(n, aad, k.seal(n, aad, text)) == Some(text)
  }

  function Ssrc(pkt: Octets): Octets
    requires |pkt| >= FIXED_HEADER
  {
    pkt[8..FIXED_HEADER]
  }

  function NonceOf(pkt: Octets, index: nat): Nonce
    requires |pkt| >= FIXED_HEADER
  {
    Nonce(Ssrc(pkt), index)
  }

  /** The rollover counter of an index. */
  function Roc(index: nat): nat { index / 0x1_0000 }

  // ----- Key selection -----

  function KeyForIndex(c: Config, mkiIndex: nat): Option<Keys>
    requires c.keys != []
  {
    if !c.useMki then Some(c.keys[0])
    else if mkiIndex >= |c.keys| then None
    else Some(c.keys[mkiIndex])
  }

  /** The first key from i on whose MKI is `id`. */
  function KeyWithMki(keys: seq<Keys>, id: Octets, i: nat): (k: Option<Keys>)
    requires i <= |keys|
    ensures k.Some? ==> k.value in keys && k.value.mkiId == id
    ensures k.None? ==> forall j :: i <= j < |keys| ==> keys[j].mkiId != id
    decreases |keys| - i
  {
    if i == |keys| then None
    else if keys[i].mkiId == id then Some(keys[i])
    else KeyWithMki(keys, id, i + 1)
  }

  /** The key for a received packet: its MKI stands before the last `tagLen` octets. */
  function KeyForPacket(c: Config, srtp: Octets, tagLen: nat): Option<Keys>
    requires c.keys != []
  {
    if !c.useMki then Some(c.keys[0])
    else if tagLen > |srtp| || c.mkiSize > |srtp| - tagLen then None
    else KeyWithMki(c.keys, srtp[|srtp| - tagLen - c.mkiSize..|srtp| - tagLen], 0)
  }

  lemma {:induction false} KeyFoundFrom(c: Config, n: nat, i: nat)
    requires ConfigOk(c) && c.useMki && i <= n < |c.keys|
    ensures KeyWithMki(c.keys, c.keys[n].mkiId, i) == Some(c.keys[n])
    decreases n - i
  {
    if i < n { KeyFoundFrom(c, n, i + 1); }
  }

  /** The receiver picks the key whose MKI the sender put into the packet. */
  lemma KeyAgreed(c: Config, mkiIndex: nat, srtp: Octets, tagLen: nat)
    requires ConfigOk(c) && KeyForIndex(c, mkiIndex).Some?
    requires tagLen + c.mkiSize <= |srtp|
    requires srtp[|srtp| - tagLen - c.mkiSize..|srtp| - tagLen] == KeyForIndex(c, mkiIndex).value.mkiId
    ensures KeyForPacket(c, srtp, tagLen) == KeyForIndex(c, mkiIndex)
  {
    if c.useMki { KeyFoundFrom(c, mkiIndex, 0); }
  }
}
