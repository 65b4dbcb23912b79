/** Two sessions: a packet that one protects, the other gives back, through a stream or through the template. */
module SessionRoundTrip {
  import opened Bytes
  import opened ReplayWindow
  import opened SrtpStream
  import opened StreamMemory
  import opened StreamList
  import opened SrtpPacket
  import opened SrtpTransform
  import opened SrtpAead
  import opened StreamPackets
  import opened SrtpSession
  import opened StreamRoundTrip

  /** The stream that sends: found by the packet's SSRC, or the clone that protect made. */
  function SendingStream(xs: seq<Stream>, ys: seq<Stream>, pkt: Octets): Stream
    requires |pkt| >= 12 && ys != []
  {
    match FirstFrom(xs, SsrcNumber(pkt), 0)
    case Some(n) => xs[n]
    case None => Unused(Last(ys))
  }

  /** How a session takes packets of an SSRC: with which keys and settings. */
  ghost predicate Listens(w: Crypto, s: Stream, r: Stream) { ConfigOf(w, r) == ConfigOf(w, s) && IsAead(w, r) == IsAead(w, s) }

  /** The index is new to the stream and near; or the template will bring a stream, and the rollover counter is still
      zero. */
  ghost predicate Expects(w: Crypto, s: Stream, xs: seq<Stream>, t: Option<Stream>, room: bool, ssrc: Ssrc, i: nat)
  {
    match FirstFrom(xs, ssrc, 0)
    case Some(n) =>
      && Listens(w, s, xs[n]) && xs[n].pendingRoc == 0 && xs[n].rdbx.index + SEQ_MAX < SEQ_MAX * ROC_MAX
      && Near(xs[n].rdbx.index, i) && Check(xs[n].rdbx, i - xs[n].rdbx.index) == Fine
    case None => t.Some? && room && Listens(w, s, t.value) && i < 0x1_0000
  }

  /** The sender takes the packet for number i. */
  predicate Means(s: Stream, i: nat)
  {
    s.pendingRoc == 0 && i < SEQ_MAX * ROC_MAX && s.rdbx.index + SEQ_MAX < SEQ_MAX * ROC_MAX && Near(s.rdbx.index, i)
  }

  /** What one session protects as the packet of index i, the other gives back exactly, if and only if the settings of
      the stream can carry it. */
  lemma SessionsAgree(w: Crypto, o: Outgoing, room: bool, xs: seq<Stream>, t: Option<Stream>, sent: Outcome, ys: seq<Stream>,
                      capacity: nat, room2: bool, xs2: seq<Stream>, t2: Option<Stream>, back: Outcome, ys2: seq<Stream>,
                      u2: Option<Stream>, i: nat)
    requires Protected(w, o, room, xs, t, sent, ys) && sent.status == Ok && |o.packet| >= 12 && ys != []
    requires Unprotected(w, sent.packet, capacity, room2, xs2, t2, back, ys2, u2) && capacity >= |o.packet|
    requires Means(SendingStream(xs, ys, o.packet), i) && i % 0x1_0000 == SeqNumber(o.packet)
    requires Expects(w, SendingStream(xs, ys, o.packet), xs2, t2, room2, SsrcNumber(o.packet), i)
    requires var c := ConfigOf(w, SendingStream(xs, ys, o.packet)); c.keys != [] && KeyForIndex(c, o.mkiIndex).Some?
    requires IsAead(w, SendingStream(xs, ys, o.packet)) ==>
               AeadLaw(KeyForIndex(ConfigOf(w, SendingStream(xs, ys, o.packet)), o.mkiIndex).value)
    ensures ValidRtp(o.packet)
    ensures var s := SendingStream(xs, ys, o.packet);
            back == Outcome(Ok, o.packet) <==> ComesBack(w, s, KeyForIndex(ConfigOf(w, s), o.mkiIndex).value, o.packet)
  {
    var s := SendingStream(xs, ys, o.packet);
    HeaderNumbers(o.packet);
    SentBy(w, o, room, xs, t, sent, ys);
    SentWith(w, s, o.mkiIndex, i, o.packet, o.capacity, o.after);
    HeaderSent(w, s, o.mkiIndex, i, o.packet, o.capacity, o.after);
    HeaderNumbers(sent.packet);
    SameNumbers(sent.packet, o.packet);
    var r, ix := Receiving(w, s, sent.packet, capacity, room2, xs2, t2, back, ys2, u2, i);
    hide *;
    ReceivedWith(w, s, r, i, o.mkiIndex, o.packet, o.capacity, o.after, capacity, ix);
  }

  lemma SameNumbers(srtp: Octets, pkt: Octets)
    requires SameFixed(srtp, pkt)
    ensures SeqNumber(srtp) == SeqNumber(pkt) && SsrcNumber(srtp) == SsrcNumber(pkt)
  {
  }

  /** The direction is no part of what a stream sends. */
  lemma SentBy(w: Crypto, o: Outgoing, room: bool, xs: seq<Stream>, t: Option<Stream>, sent: Outcome, ys: seq<Stream>)
    requires Protected(w, o, room, xs, t, sent, ys) && sent.status == Ok && |o.packet| >= 12 && ys != []
    requires RtpSsrc(o.packet) == SsrcNumber(o.packet)
    ensures ValidRtp(o.packet) && CryptoOk(w) && o.capacity <= |o.packet| + |o.after|
    ensures sent == ProtectOn(w, SendingStream(xs, ys, o.packet), o.mkiIndex, o.packet, o.capacity, o.after).outcome
  {
    hide CryptoOk, ValidRtp, TakeIndex, Refusal, Transformed, NewClone;
    match FirstFrom(xs, RtpSsrc(o.packet), 0) {
      case Some(n) => DirectionFree(w, xs[n], o);
      case None =>
    }
  }

  lemma DirectionFree(w: Crypto, s: Stream, o: Outgoing)
    requires CryptoOk(w) && ValidRtp(o.packet) && o.capacity <= |o.packet| + |o.after|
    ensures ProtectFor(w, Marked(s, Sender), o).outcome == ProtectOn(w, s, o.mkiIndex, o.packet, o.capacity, o.after).outcome
  {
    hide CryptoOk, ValidRtp, TakeIndex, Refusal;
    assert ConfigOf(w, Marked(s, Sender)) == ConfigOf(w, s) && IsAead(w, Marked(s, Sender)) == IsAead(w, s);
  }

  lemma Receiving(w: Crypto, s: Stream, srtp: Octets, capacity: nat, room: bool, xs: seq<Stream>, t: Option<Stream>,
                  back: Outcome, ys: seq<Stream>, u: Option<Stream>, i: nat) returns (r: Stream, ix: Indexed)
    requires Unprotected(w, srtp, capacity, room, xs, t, back, ys, u) && |srtp| >= 12
    requires Expects(w, s, xs, t, room, RtpSsrc(srtp), i) && i < SEQ_MAX * ROC_MAX && RtpSeq(srtp) == i % 0x1_0000
    ensures CryptoOk(w) && Listens(w, s, r) && ix.Taken? && ix.index == i
    ensures back == UnprotectOn(w, r, ix, srtp, capacity)
  {
    hide CryptoOk, ValidRtp, TakeIndex, UnprotectOn, NewClone, Near, Check;
    match FirstFrom(xs, RtpSsrc(srtp), 0) {
      case Some(n) =>
        r, ix := xs[n], TakeIndex(xs[n].rdbx, 0, RtpSeq(srtp), false);
        IndexMeant(r.rdbx, i, false);
      case None =>
        r, ix := t.value, FirstIndex(|t.value.rdbx.bits|, RtpSeq(srtp));
    }
    InvalidRefused(w, r, ix, srtp, capacity);
  }

  lemma InvalidRefused(w: Crypto, r: Stream, ix: Indexed, srtp: Octets, capacity: nat)
    requires CryptoOk(w) && ix.Taken?
    ensures !ValidRtp(srtp) ==> UnprotectOn(w, r, ix, srtp, capacity) == Failed(BadParam)
  {
    hide ValidRtp;
  }
}
