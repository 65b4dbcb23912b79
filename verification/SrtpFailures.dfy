/** Packets that do not survive protect and unprotect with equal keys, one for each way the round trip fails. */
module SrtpFailures {
  import opened Bytes
  import opened SrtpPacket
  import opened SrtpHeaderExt
  import opened SrtpCryptex
  import opened SrtpTransform
  import opened SrtpRoundTrip
  import opened SrtpAead

  const TAG_LEN := 10

  /** A key whose ciphers and tags are as plain as can be: keystreams of zeros, tags of zeros. */
  function PlainKeys(withXtn: bool): Keys
  {
    Keys([], n => i => 0, if withXtn then Some(n => i => 0) else None, 0,
         (prefix, message, roc) => Zeros(),
         (n, aad, text) => text + Zeros(),
         (n, aad, sealed) => if |sealed| >= TAG_LEN then Some(sealed[..|sealed| - TAG_LEN]) else None)
  }

  function Zeros(): (z: Octets)
    ensures |z| == TAG_LEN
  {
    seq(TAG_LEN, _ => 0)
  }

  /** A stream set up for Cryptex. */
  function CryptexConfig(conf: bool, withXtn: bool): Config
  {
    Config(true, conf, true, false, 0, TAG_LEN, [1], [PlainKeys(withXtn)])
  }

  /** Three octets of payload behind an empty header extension. */
  function WithProfile(profile: Word16): Octets
  {
    [0x90, 96, 0, 1, 0, 0, 0, 0, 0, 0, 0, 7, Hi(profile), Lo(profile), 0, 0, 1, 2, 3]
  }

  lemma ConfigsOk(conf: bool, withXtn: bool)
    ensures ConfigOk(CryptexConfig(conf, withXtn))
    ensures !withXtn ==> NotCombined(CryptexConfig(conf, withXtn)) && AeadLaw(PlainKeys(withXtn))
  {
    var k := PlainKeys(withXtn);
    forall n, aad, text ensures k.open(n, aad, k.seal(n, aad, text)) == Some(text) {
      assert (text + Zeros())[..|text|] == text;
    }
  }

  lemma PacketsValid(profile: Word16)
    ensures var pkt := WithProfile(profile);
            ValidRtp(pkt) && HasXtn(pkt) && Profile(pkt) == profile && XtnBody(pkt) == []
  {
    U16HiLo(profile);
    U16HiLo(0);
  }

  /** Both encryptions of the extension: protect succeeds, and unprotect does not give the packet back. */
  lemma BothEncryptionsFail()
    ensures var (c, pkt) := (CryptexConfig(true, true), WithProfile(ONE_BYTE));
            var srtp := ProtectCtr(c, 0, 1, pkt, 29, Zeros());
            srtp.status == Ok && UnprotectCtr(c, 1, srtp.packet, 29) != Outcome(Ok, pkt)
  {
    var (c, pkt) := (CryptexConfig(true, true), WithProfile(ONE_BYTE));
    ConfigsOk(true, true);
    PacketsValid(ONE_BYTE);
    EmptyWalk(PlainKeys(true), pkt);
    hide XtnStep, ConfigOk, ValidRtp, InPlace, SetProfile, XtnLen;
    LayoutKept(pkt, XtnStep(c, PlainKeys(true), NonceOf(pkt, 1), pkt).body);
    CtrRoundTrip(c, 0, 1, pkt, 29, Zeros(), 29);
  }

  lemma EmptyWalk(key: Keys, pkt: Octets)
    requires ValidRtp(pkt) && HasXtn(pkt) && Profile(pkt) == ONE_BYTE && XtnBody(pkt) == []
    ensures XtnStep(CryptexConfig(true, true), key, NonceOf(pkt, 1), pkt).ok
  {
  }

  /** A clear stream and a packet with a Cryptex profile of its own. */
  lemma LookalikeFails()
    ensures var (c, pkt) := (CryptexConfig(false, false), WithProfile(CRYPTEX_ONE_BYTE));
            var srtp := ProtectCtr(c, 0, 1, pkt, 29, Zeros());
            srtp.status == Ok && UnprotectCtr(c, 1, srtp.packet, 29) != Outcome(Ok, pkt)
  {
    var (c, pkt) := (CryptexConfig(false, false), WithProfile(CRYPTEX_ONE_BYTE));
    ConfigsOk(false, false);
    PacketsValid(CRYPTEX_ONE_BYTE);
    hide ConfigOk, ValidRtp, XtnLen;
    CtrRoundTrip(c, 0, 1, pkt, 29, Zeros(), 29);
  }

  /** The same with an AEAD cipher. */
  lemma AeadLookalikeFails()
    ensures var (c, pkt) := (CryptexConfig(false, false), WithProfile(CRYPTEX_ONE_BYTE));
            && ConfigOk(c) && NotCombined(c)
            && var srtp := ProtectAead(c, 0, 1, pkt, 29);
               srtp.status == Ok && UnprotectAead(c, 1, srtp.packet, 29) != Outcome(Ok, pkt)
  {
    var (c, pkt) := (CryptexConfig(false, false), WithProfile(CRYPTEX_ONE_BYTE));
    ConfigsOk(false, false);
    PacketsValid(CRYPTEX_ONE_BYTE);
    hide ConfigOk, ValidRtp, XtnLen, AeadLaw, NotCombined;
    AeadRoundTrip(c, 0, 1, pkt, 29, 29);
  }
}
