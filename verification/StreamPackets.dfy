/** One packet through one stream: the checks before the index, the replay database, the transform
    (srtp_protect and srtp_unprotect once the stream is known). */
module StreamPackets {
  import opened Bytes
  import opened ReplayWindow
  import opened SrtpStream
  import opened SrtpPacket
  import opened SrtpTransform
  import opened SrtpProtect
  import opened SrtpUnprotect
  import opened SrtpAead
  import opened SrtpAeadInPlace

  /** What key objects and settings come to: the keys as the packet code uses them, and whether the cipher
      is an AEAD. */
  datatype Crypto = Crypto(config: (seq<KeySet>, Settings) -> Config, aead: (seq<KeySet>, Settings) -> bool)

  ghost predicate CryptoOk(w: Crypto)
  {
    forall keys, settings :: ConfigOk(w.config(keys, settings)) && (w.aead(keys, settings) ==> NotCombined(w.config(keys, settings)))
  }

  function ConfigOf(w: Crypto, s: Stream): Config { w.config(s.keys, s.settings) }

  function IsAead(w: Crypto, s: Stream): bool { w.aead(s.keys, s.settings) }

  lemma StreamConfig(w: Crypto, s: Stream)
    requires CryptoOk(w)
    ensures ConfigOk(ConfigOf(w, s)) && ConfigOf(w, s).keys != [] && (IsAead(w, s) ==> NotCombined(ConfigOf(w, s)))
  {
  }

  function RtpSsrc(pkt: Octets): Ssrc
    requires |pkt| >= FIXED_HEADER
  {
    U32(pkt[8..FIXED_HEADER])
  }

  function RtpSeq(pkt: Octets): Word16
    requires |pkt| >= FIXED_HEADER
  {
    U16(pkt[2], pkt[3])
  }

  // ----- Protect -----

  /** The outcome, and the stream with its replay state. */
  datatype Sent = Sent(outcome: Outcome, stream: Stream)

  /** What is checked before the index is taken. */
  function Refusal(c: Config, mkiIndex: nat, pkt: Octets, capacity: nat): Option<Status>
    requires c.keys != [] && pkt != []
  {
    if KeyForIndex(c, mkiIndex).None? then Some(BadMki)
    else if capacity < |pkt| + c.mkiSize + c.tagLen then Some(BufferSmall)
    else if CryptexRefused(c, pkt) then Some(CryptexErr)
    else None
  }

  /** `after` is what the buffer holds after the packet. */
  function Transformed(w: Crypto, s: Stream, mkiIndex: nat, index: nat, pkt: Octets, capacity: nat, after: Octets): Outcome
    requires CryptoOk(w) && capacity <= |pkt| + |after|
  {
    StreamConfig(w, s);
    if IsAead(w, s) then ProtectAead(ConfigOf(w, s), mkiIndex, index, pkt, capacity)
    else ProtectCtr(ConfigOf(w, s), mkiIndex, index, pkt, capacity, after)
  }

  /** A refusal leaves the replay state; once an index is taken it stays taken, whatever becomes of the
      packet. */
  function ProtectOn(w: Crypto, s: Stream, mkiIndex: nat, pkt: Octets, capacity: nat, after: Octets): Sent
    requires CryptoOk(w) && ValidRtp(pkt) && capacity <= |pkt| + |after|
  {
    StreamConfig(w, s);
    var refusal := Refusal(ConfigOf(w, s), mkiIndex, pkt, capacity);
    if refusal.Some? then Sent(Failed(refusal.value), s)
    else
      match TakeIndex(s.rdbx, s.pendingRoc, RtpSeq(pkt), s.settings.allowRepeatTx)
      case Old => Sent(Failed(PktIdxOld), s)
      case Stale => Sent(Failed(ReplayOld), s)
      case Again => Sent(Failed(ReplayFail), s)
      case Taken(index, window, pendingRoc) =>
        Sent(Transformed(w, s, mkiIndex, index, pkt, capacity, after), s.(rdbx := window, pendingRoc := pendingRoc))
  }

  /** The buffer is written only by the transform. */
  predicate Writes(status: Status) { status == Ok || status == ParseErr }

  method ProtectOnStream(w: Crypto, s: Stream, mkiIndex: nat, buf: array<Byte>, len: nat, capacity: nat)
      returns (status: Status, outLen: nat, t: Stream)
    requires CryptoOk(w) && len <= buf.Length && capacity <= buf.Length && ValidRtp(buf[..len])
    modifies buf
    ensures var r := ProtectOn(w, s, mkiIndex, old(buf[..len]), capacity, old(buf[len..]));
            status == r.outcome.status && t == r.stream
            && (status == Ok ==> outLen <= buf.Length && buf[..outLen] == r.outcome.packet
                                 && outLen == len + ConfigOf(w, s).mkiSize + ConfigOf(w, s).tagLen
                                 && buf[outLen..] == old(buf[len..])[outLen - len..])
    ensures !Writes(status) ==> buf[..] == old(buf[..])
  {
    hide ConfigOk, NotCombined, KeyForIndex, CryptexRefused, TakeIndex, ProtectAead, ProtectCtr, ValidRtp, CryptoOk;
    StreamConfig(w, s);
    HasHeader(buf[..len]);
    var c := ConfigOf(w, s);
    var refusal := Refusal(c, mkiIndex, buf[..len], capacity);
    if refusal.Some? {
      RefusalLeaves(c, mkiIndex, buf[..len], capacity);
      return refusal.value, 0, s;
    }
    match TakeIndex(s.rdbx, s.pendingRoc, U16(buf[2], buf[3]), s.settings.allowRepeatTx) {
      case Old => return PktIdxOld, 0, s;
      case Stale => return ReplayOld, 0, s;
      case Again => return ReplayFail, 0, s;
      case Taken(index, window, pendingRoc) =>
        t := s.(rdbx := window, pendingRoc := pendingRoc);
        if IsAead(w, s) {
          AeadStatuses(c, mkiIndex, index, buf[..len], capacity);
          status, outLen := ProtectAeadInPlace(c, mkiIndex, index, buf, len, capacity);
        } else {
          CtrStatuses(c, mkiIndex, index, buf[..len], capacity, buf[len..]);
          status, outLen := ProtectInPlace(c, mkiIndex, index, buf, len, capacity);
        }
    }
  }

  lemma RefusalLeaves(c: Config, mkiIndex: nat, pkt: Octets, capacity: nat)
    requires c.keys != [] && pkt != []
    ensures var r := Refusal(c, mkiIndex, pkt, capacity); r.Some? ==> !Writes(r.value)
  {
  }

  lemma AeadStatuses(c: Config, mkiIndex: nat, index: nat, pkt: Octets, capacity: nat)
    requires ConfigOk(c) && ValidRtp(pkt) && c.keys != [] && Refusal(c, mkiIndex, pkt, capacity).None?
    ensures Writes(ProtectAead(c, mkiIndex, index, pkt, capacity).status)
  {
    hide AeadBody, ConfigOk, ValidRtp;
  }

  lemma CtrStatuses(c: Config, mkiIndex: nat, index: nat, pkt: Octets, capacity: nat, after: Octets)
    requires ValidRtp(pkt) && c.keys != [] && capacity <= |pkt| + |after| && Refusal(c, mkiIndex, pkt, capacity).None?
    ensures Writes(ProtectCtr(c, mkiIndex, index, pkt, capacity, after).status)
  {
    hide CtrBody, ValidRtp;
  }

  /** Only the replay state of the stream can change. */
  lemma SentSame(w: Crypto, s: Stream, mkiIndex: nat, pkt: Octets, capacity: nat, after: Octets)
    requires CryptoOk(w) && ValidRtp(pkt) && capacity <= |pkt| + |after|
    ensures var t := ProtectOn(w, s, mkiIndex, pkt, capacity, after).stream;
            t == s.(rdbx := t.rdbx, pendingRoc := t.pendingRoc) && |t.rdbx.bits| == |s.rdbx.bits|
  {
    hide ConfigOk, NotCombined, KeyForIndex, CryptexRefused, ProtectAead, ProtectCtr, ValidRtp, CryptoOk;
    HasHeader(pkt);
    TakenLength(s.rdbx, s.pendingRoc, RtpSeq(pkt), s.settings.allowRepeatTx);
    hide TakeIndex;
  }

  lemma TakenLength(win: Window, pendingRoc: nat, s: Word16, repeat: bool)
    ensures var r := TakeIndex(win, pendingRoc, s, repeat); r.Taken? ==> |r.window.bits| == |win.bits|
  {
    hide Estimate;
  }

  // ----- Unprotect -----

  /** `ix` is what the sequence number comes to. */
  function UnprotectOn(w: Crypto, s: Stream, ix: Indexed, pkt: Octets, capacity: nat): Outcome
    requires CryptoOk(w)
  {
    StreamConfig(w, s);
    match ix
    case Old => Failed(PktIdxOld)
    case Stale => Failed(ReplayOld)
    case Again => Failed(ReplayFail)
    case Taken(index, _, _) =>
      if IsAead(w, s) then UnprotectAead(ConfigOf(w, s), index, pkt, capacity)
      else UnprotectCtr(ConfigOf(w, s), index, pkt, capacity)
  }

  method UnprotectOnStream(w: Crypto, s: Stream, ix: Indexed, buf: array<Byte>, len: nat, capacity: nat)
      returns (status: Status, outLen: nat)
    requires CryptoOk(w) && len <= buf.Length
    modifies buf
    ensures var r := UnprotectOn(w, s, ix, old(buf[..len]), capacity);
            status == r.status
            && (status == Ok ==> ix.Taken? && outLen <= len && buf[..outLen] == r.packet && buf[len..] == old(buf[len..]))
    ensures LeavesBuffer(status) || ix.Old? || ix.Stale? || ix.Again? ==> buf[..] == old(buf[..])
    ensures status == AuthFail && !IsAead(w, s) ==> buf[..] == old(buf[..])
  {
    hide ConfigOk, NotCombined, UnprotectAead, UnprotectCtr, CryptoOk;
    StreamConfig(w, s);
    match ix {
      case Old => return PktIdxOld, 0;
      case Stale => return ReplayOld, 0;
      case Again => return ReplayFail, 0;
      case Taken(index, _, _) =>
        if IsAead(w, s) {
          status, outLen := UnprotectAeadInPlace(ConfigOf(w, s), index, buf, len, capacity);
        } else {
          status, outLen := UnprotectInPlace(ConfigOf(w, s), index, buf, len, capacity);
        }
    }
  }

  // ----- Replays -----

  /** An index is not given to two packets of a stream that may not repeat: the second is refused whatever
      the first one came to. */
  lemma NoIndexReused(w: Crypto, s: Stream, mkiIndex: nat, pkt: Octets, capacity: nat, after: Octets,
                      mkiIndex2: nat, pkt2: Octets, capacity2: nat, after2: Octets)
    requires CryptoOk(w) && ValidRtp(pkt) && capacity <= |pkt| + |after|
    requires ValidRtp(pkt2) && capacity2 <= |pkt2| + |after2| && RtpSeq(pkt2) == RtpSeq(pkt)
    requires !s.settings.allowRepeatTx && Writes(ProtectOn(w, s, mkiIndex, pkt, capacity, after).outcome.status)
    ensures var t := ProtectOn(w, s, mkiIndex, pkt, capacity, after).stream;
            var again := ProtectOn(w, t, mkiIndex2, pkt2, capacity2, after2);
            !Writes(again.outcome.status) && again.stream == t
  {
    hide ConfigOk, NotCombined, KeyForIndex, CryptexRefused, ProtectAead, ProtectCtr, ValidRtp, CryptoOk, TakeIndex;
    StreamConfig(w, s);
    HasHeader(pkt);
    HasHeader(pkt2);
    RefusalLeaves(ConfigOf(w, s), mkiIndex, pkt, capacity);
    var r := TakeIndex(s.rdbx, s.pendingRoc, RtpSeq(pkt), false);
    assert r.Taken?;
    NotTwice(s.rdbx, s.pendingRoc, RtpSeq(pkt), false);
    RefusalLeaves(ConfigOf(w, s), mkiIndex2, pkt2, capacity2);
  }
}
