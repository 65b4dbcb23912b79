/** Sender and receiver together: each takes the packet index from its own replay state, and the packet comes back. */
module StreamRoundTrip {
  import opened Bytes
  import opened ReplayWindow
  import opened SrtpStream
  import opened SrtpPacket
  import opened SrtpTransform
  import opened SrtpRoundTrip
  import opened SrtpAead
  import opened SrtpWire
  import opened SrtpAeadWire
  import opened StreamPackets

  // ----- Numbers in the header -----

  function SeqNumber(pkt: Octets): nat
    requires |pkt| >= 12
  {
    Wide(pkt[2], pkt[3])
  }

  function SsrcNumber(pkt: Octets): nat
    requires |pkt| >= 12
  {
    0x1_0000 * Wide(pkt[8], pkt[9]) + Wide(pkt[10], pkt[11])
  }

  /** Most significant octet first. */
  lemma HeaderNumbers(pkt: Octets)
    requires |pkt| >= 12
    ensures RtpSeq(pkt) == SeqNumber(pkt) && RtpSsrc(pkt) == SsrcNumber(pkt)
  {
    U16Value(pkt[2], pkt[3]);
    U16Value(pkt[8], pkt[9]);
    U16Value(pkt[10], pkt[11]);
    hide U16;
  }

  // ----- Indices -----

  /** Where the index is taken from the sequence number alone it is the one meant, exactly if that is near. */
  lemma IndexMeant(win: Window, i: nat, repeat: bool)
    requires i < SEQ_MAX * ROC_MAX && win.index + SEQ_MAX < SEQ_MAX * ROC_MAX && Near(win.index, i)
    ensures var r := TakeIndex(win, 0, i % 0x1_0000, repeat);
            && (r.Taken? ==> r.index == i)
            && (Check(win, i - win.index) == Fine ==> r.Taken?)
  {
    EstimateExact(win.index, i);
    hide Estimate, Near, Check, Noted;
  }

  // ----- The header arrives as it was -----

  /** The fixed header is neither encrypted nor moved. */
  predicate SameFixed(srtp: Octets, pkt: Octets)
  {
    |srtp| >= 12 && |pkt| >= 12 && forall i :: 0 <= i < 12 ==> srtp[i] == pkt[i]
  }

  lemma CtrHeader(c: Config, mkiIndex: nat, index: nat, pkt: Octets, capacity: nat, after: Octets)
    requires ConfigOk(c) && capacity <= |pkt| + |after|
    requires c.keys != [] && ProtectCtr(c, mkiIndex, index, pkt, capacity, after).status == Ok
    ensures SameFixed(ProtectCtr(c, mkiIndex, index, pkt, capacity, after).packet, pkt)
  {
    hide *;
    var y := CtrOnWire(c, mkiIndex, index, pkt, capacity, after);
    var out := ProtectCtr(c, mkiIndex, index, pkt, capacity, after).packet;
    var key := KeyForIndex(c, mkiIndex).value;
    ExtendedFixed(c, key, index, pkt, y);
    forall i | 0 <= i < 12 ensures out[i] == pkt[i] {
      assert out[i] == out[..|pkt|][i];
      FixedClear(c, key, index, pkt, y, i);
    }
    SameFixedIs(out, pkt);
  }

  lemma SameFixedIs(a: Octets, b: Octets)
    requires |a| >= 12 && |b| >= 12 && forall i :: 0 <= i < 12 ==> a[i] == b[i]
    ensures SameFixed(a, b)
  {
  }

  lemma ExtendedFixed(c: Config, key: Keys, index: nat, pkt: Octets, y: Octets)
    requires ValidRtp(pkt) && Extended(c, key, index, pkt, y)
    ensures |pkt| >= 12 && |y| == |pkt| && forall i :: 0 <= i < 12 ==> y[i] == pkt[i]
  {
    Places(pkt);
    hide ValidRtp, AfterHeaders, XBit;
  }

  lemma FixedClear(c: Config, key: Keys, index: nat, pkt: Octets, y: Octets, i: nat)
    requires ValidRtp(pkt) && |y| == |pkt| && i < 12 <= |pkt|
    ensures CtrOctet(c, key, index, pkt, y, i) == y[i]
  {
    Places(pkt);
    PayloadBehind(pkt);
    hide ValidRtp, AfterHeaders, XBit;
  }

  lemma PayloadBehind(pkt: Octets)
    requires ValidRtp(pkt)
    ensures |pkt| >= 12 && (XBit(pkt) ==> AfterCsrcs(pkt) + 4 <= |pkt|) && AfterHeaders(pkt) >= 12
  {
    Places(pkt);
  }

  lemma AeadHeader(c: Config, mkiIndex: nat, index: nat, pkt: Octets, capacity: nat)
    requires ConfigOk(c) && ProtectAead(c, mkiIndex, index, pkt, capacity).status == Ok
    ensures SameFixed(ProtectAead(c, mkiIndex, index, pkt, capacity).packet, pkt)
  {
    hide *;
    HasKeys(c);
    var y := AeadOnWire(c, mkiIndex, index, pkt, capacity);
    var key := KeyForIndex(c, mkiIndex).value;
    ExtendedFixed(c, key, index, pkt, y);
    SealedFixed(c, key, index, pkt, y, key.mkiId);
    SameFixedIs(SealedPacket(c, key, index, pkt, y) + key.mkiId, pkt);
  }

  lemma SealedFixed(c: Config, key: Keys, index: nat, pkt: Octets, y: Octets, mki: Octets)
    requires ValidRtp(pkt) && |pkt| >= 12 && |y| == |pkt| && KeysFit(c, key)
    ensures var out := SealedPacket(c, key, index, pkt, y) + mki;
            |out| >= 12 && forall i :: 0 <= i < 12 ==> out[i] == y[i]
  {
    Places(pkt);
    PayloadBehind(pkt);
    hide ValidRtp, AfterHeaders, XBit;
  }

  lemma HeaderSent(w: Crypto, s: Stream, mkiIndex: nat, index: nat, pkt: Octets, capacity: nat, after: Octets)
    requires CryptoOk(w) && capacity <= |pkt| + |after|
    requires Transformed(w, s, mkiIndex, index, pkt, capacity, after).status == Ok
    ensures SameFixed(Transformed(w, s, mkiIndex, index, pkt, capacity, after).packet, pkt)
  {
    hide ConfigOk, NotCombined, ProtectAead, ProtectCtr, CryptoOk, SameFixed;
    StreamConfig(w, s);
    if IsAead(w, s) {
      AeadHeader(ConfigOf(w, s), mkiIndex, index, pkt, capacity);
    } else {
      CtrHeader(ConfigOf(w, s), mkiIndex, index, pkt, capacity, after);
    }
  }

  // ----- The round trip -----

  /** The packet is one the stream's settings can carry there and back. */
  predicate ComesBack(w: Crypto, s: Stream, key: Keys, pkt: Octets)
    requires ValidRtp(pkt)
  {
    if IsAead(w, s) then CryptexReceived(ConfigOf(w, s), pkt) ==> ConfigOf(w, s).conf
    else !CtrFails(ConfigOf(w, s), key, pkt)
  }

  /** What a stream makes of a packet with the sequence number that it carries. */
  function Given(w: Crypto, r: Stream, srtp: Octets, room: nat): Outcome
    requires CryptoOk(w) && |srtp| >= 12
  {
    UnprotectOn(w, r, TakeIndex(r.rdbx, r.pendingRoc, SeqNumber(srtp), false), srtp, room)
  }

  /** Two streams with the same keys and settings, each with a replay state of its own: a packet that the one sends
      with index i, the other gives back as it was, exactly if its settings can carry it - provided that i is near
      to both, and new to the receiver. */
  lemma StreamsAgree(w: Crypto, s: Stream, r: Stream, i: nat, mkiIndex: nat, pkt: Octets, capacity: nat, after: Octets, room: nat)
    requires CryptoOk(w) && ValidRtp(pkt) && |pkt| >= 12 && capacity <= |pkt| + |after| && |pkt| <= room
    requires ConfigOf(w, r) == ConfigOf(w, s) && IsAead(w, r) == IsAead(w, s) && s.pendingRoc == 0 == r.pendingRoc
    requires i < SEQ_MAX * ROC_MAX && i % 0x1_0000 == SeqNumber(pkt)
    requires s.rdbx.index + SEQ_MAX < SEQ_MAX * ROC_MAX && Near(s.rdbx.index, i)
    requires r.rdbx.index + SEQ_MAX < SEQ_MAX * ROC_MAX && Near(r.rdbx.index, i) && Check(r.rdbx, i - r.rdbx.index) == Fine
    requires ProtectOn(w, s, mkiIndex, pkt, capacity, after).outcome.status == Ok
    requires ConfigOf(w, s).keys != [] && KeyForIndex(ConfigOf(w, s), mkiIndex).Some?
    requires IsAead(w, s) ==> AeadLaw(KeyForIndex(ConfigOf(w, s), mkiIndex).value)
    ensures SameFixed(ProtectOn(w, s, mkiIndex, pkt, capacity, after).outcome.packet, pkt)
    ensures Given(w, r, ProtectOn(w, s, mkiIndex, pkt, capacity, after).outcome.packet, room) == Outcome(Ok, pkt)
       <==> ComesBack(w, s, KeyForIndex(ConfigOf(w, s), mkiIndex).value, pkt)
  {
    var o := ProtectOn(w, s, mkiIndex, pkt, capacity, after).outcome;
    HeaderNumbers(pkt);
    SentWith(w, s, mkiIndex, i, pkt, capacity, after);
    HeaderSent(w, s, mkiIndex, i, pkt, capacity, after);
    IndexMeant(r.rdbx, i, false);
    SameNumber(o.packet, pkt);
    assert Given(w, r, o.packet, room) == UnprotectOn(w, r, TakeIndex(r.rdbx, 0, SeqNumber(pkt), false), o.packet, room);
    hide *;
    ReceivedWith(w, s, r, i, mkiIndex, pkt, capacity, after, room, TakeIndex(r.rdbx, 0, SeqNumber(pkt), false));
  }

  lemma SameNumber(srtp: Octets, pkt: Octets)
    requires SameFixed(srtp, pkt)
    ensures SeqNumber(srtp) == SeqNumber(pkt)
  {
  }

  /** The sender's transform runs with the index meant. */
  lemma SentWith(w: Crypto, s: Stream, mkiIndex: nat, i: nat, pkt: Octets, capacity: nat, after: Octets)
    requires CryptoOk(w) && ValidRtp(pkt) && |pkt| >= 12 && capacity <= |pkt| + |after| && s.pendingRoc == 0
    requires i < SEQ_MAX * ROC_MAX && s.rdbx.index + SEQ_MAX < SEQ_MAX * ROC_MAX && Near(s.rdbx.index, i)
    requires RtpSeq(pkt) == i % 0x1_0000 && ProtectOn(w, s, mkiIndex, pkt, capacity, after).outcome.status == Ok
    ensures ProtectOn(w, s, mkiIndex, pkt, capacity, after).outcome == Transformed(w, s, mkiIndex, i, pkt, capacity, after)
  {
    IndexMeant(s.rdbx, i, s.settings.allowRepeatTx);
    StreamConfig(w, s);
    hide ConfigOk, NotCombined, ProtectAead, ProtectCtr, CryptoOk, TakeIndex, Near, ValidRtp, Check, Transformed, Refusal;
    RefusalNotOk(ConfigOf(w, s), mkiIndex, pkt, capacity);
  }

  lemma RefusalNotOk(c: Config, mkiIndex: nat, pkt: Octets, capacity: nat)
    requires c.keys != [] && pkt != []
    ensures Refusal(c, mkiIndex, pkt, capacity).Some? ==> Refusal(c, mkiIndex, pkt, capacity).value != Ok
  {
  }

  lemma ReceivedWith(w: Crypto, s: Stream, r: Stream, i: nat, mkiIndex: nat, pkt: Octets, capacity: nat, after: Octets, room: nat, ix: Indexed)
    requires CryptoOk(w) && ValidRtp(pkt) && capacity <= |pkt| + |after| && |pkt| <= room
    requires ConfigOf(w, r) == ConfigOf(w, s) && IsAead(w, r) == IsAead(w, s) && ix.Taken? && ix.index == i
    requires Transformed(w, s, mkiIndex, i, pkt, capacity, after).status == Ok
    requires ConfigOf(w, s).keys != [] && KeyForIndex(ConfigOf(w, s), mkiIndex).Some?
    requires IsAead(w, s) ==> AeadLaw(KeyForIndex(ConfigOf(w, s), mkiIndex).value)
    ensures UnprotectOn(w, r, ix, Transformed(w, s, mkiIndex, i, pkt, capacity, after).packet, room) == Outcome(Ok, pkt)
       <==> ComesBack(w, s, KeyForIndex(ConfigOf(w, s), mkiIndex).value, pkt)
  {
    StreamConfig(w, s);
    var c := ConfigOf(w, s);
    hide ConfigOk, NotCombined, ProtectAead, ProtectCtr, CryptoOk, ValidRtp, UnprotectAead, UnprotectCtr, AeadLaw, CtrFails,
      CryptexReceived, KeyForIndex;
    if IsAead(w, s) {
      AeadRoundTrip(c, mkiIndex, i, pkt, capacity, room);
    } else {
      CtrRoundTrip(c, mkiIndex, i, pkt, capacity, after, room);
    }
  }
}
