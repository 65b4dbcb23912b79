/** The packetizer of the phone (RtpSender.kt): what it puts on the wire is the packet sequence of one
    unit, so the round trip of `RtpRoundTrip` applies to it. */
module RtpSender {
  import opened Bytes
  import opened AnnexB
  import opened RtpDepacketizer
  import opened RtpRoundTrip
  import opened RtpStreams
  import opened RtpBuffer

  const MAX_PAYLOAD := 1200

  function StripStartCode(nal: seq<Byte>): Nal
  {
    if |nal| >= 4 && nal[..4] == START_CODE then nal[4..]
    else if |nal| >= 3 && nal[..3] == [0, 0, 1] then nal[3..]
    else nal
  }

  /** A start code of four octets or of three is taken off, and nothing else. */
  lemma StartCodesStripped(nal: seq<Byte>)
    ensures StripStartCode([0, 0, 0, 1] + nal) == nal == StripStartCode([0, 0, 1] + nal)
    ensures !([0, 0, 0, 1] <= nal) && !([0, 0, 1] <= nal) ==> StripStartCode(nal) == nal
  {
    assert ([0, 0, 0, 1] + nal)[..4] == [0, 0, 0, 1] && ([0, 0, 0, 1] + nal)[4..] == nal;
    assert ([0, 0, 1] + nal)[..3] == [0, 0, 1] && ([0, 0, 1] + nal)[3..] == nal;
    if |nal| > 0 { assert ([0, 0, 1] + nal)[..4][2] == 1; }
  }

  /** The body of a long NAL unit in pieces of `size` bytes, the last one possibly shorter. */
  function Pieces(body: seq<Byte>, size: nat): (pieces: seq<seq<Byte>>)
    requires size > 0
    ensures pieces == [] <==> body == []
  {
    if body == [] then []
    else if |body| <= size then [body]
    else [body[..size]] + Pieces(body[size..], size)
  }

  /** How a NAL unit is sent. */
  function SentUnit(nal: Nal): Unit
    requires nal != []
  {
    if |nal| <= MAX_PAYLOAD then Single(nal) else Fragments(nal[0], Pieces(nal[1..], MAX_PAYLOAD - 2))
  }

  lemma FlattenCons(piece: seq<Byte>, pieces: seq<seq<Byte>>)
    ensures Flatten([piece] + pieces) == piece + Flatten(pieces)
  {
    if pieces == [] {
      assert [piece] + [] == [piece] && [piece][..0] == [];
      assert Flatten([piece]) == [] + piece;
    } else {
      var k := |pieces| - 1;
      FlattenCons(piece, pieces[..k]);
      assert ([piece] + pieces)[..k + 1] == [piece] + pieces[..k];
    }
  }

  lemma {:induction false} FlattenPieces(body: seq<Byte>, size: nat)
    requires size > 0
    ensures Flatten(Pieces(body, size)) == body
  {
    if body == [] {
    } else if |body| <= size {
      FlattenCons(body, []);
      assert [body] + [] == [body];
    } else {
      FlattenPieces(body[size..], size);
      FlattenCons(body[..size], Pieces(body[size..], size));
      assert body[..size] + body[size..] == body;
    }
  }

  /** However it is sent, the unit carries the NAL unit itself; and it meets the demands of the round
      trip when the NAL unit has an RFC 6184 single-unit type and a clear F bit. */
  lemma SentUnitCarriesNal(nal: Nal)
    requires nal != []
    ensures UnitNals(SentUnit(nal)) == [nal]
    ensures 1 <= NalType(nal) <= 23 && nal[0] < 128 ==> UnitOk(SentUnit(nal))
  {
    FlattenPieces(nal[1..], MAX_PAYLOAD - 2);
    assert [nal[0]] + nal[1..] == nal;
  }

  // ----- The sender -----

  function Wrap(n: nat): Word32 { n % 0x1_0000_0000 }

  /** The counter wraps at 2^32, which its low 16 bits do not notice. */
  lemma WrapLowBits(n: nat)
    ensures Wrap(n) % 0x1_0000 == n % 0x1_0000 && Wrap(Wrap(n) + 1) == Wrap(n + 1)
  {
  }

  class RtpSender {
    /** A 32-bit counter; only its 16 low bits reach the wire. */
    var sequenceNumber: Word32
    const ssrc: Word32
    /** What the socket was given, in order. */
    var sent: seq<seq<Byte>>

    constructor (ssrc: Word32)
      ensures this.ssrc == ssrc && sequenceNumber == 0 && sent == []
    {
      this.ssrc := ssrc;
      sequenceNumber := 0;
      sent := [];
    }

    /** Sends one packet and moves on to the next sequence number. */
    method SendPacket(payload: seq<Byte>, timestamp: Word32, marker: bool)
      modifies this
      ensures sequenceNumber == Wrap(old(sequenceNumber) + 1)
      ensures sent == old(sent) + [Datagram(Rtp(marker, old(sequenceNumber) % 0x1_0000, ssrc, payload), timestamp)]
    {
      var m: Byte := if marker then 128 else 0;
      var packet := [128, m + PAYLOAD_TYPE, Hi(sequenceNumber % 0x1_0000), Lo(sequenceNumber % 0x1_0000)];
      packet := packet + ToBE32(timestamp);
      packet := packet + ToBE32(ssrc);
      packet := packet + payload;
      sent := sent + [packet];
      sequenceNumber := Wrap(sequenceNumber + 1);
    }

    /** Only slices (types 1 to 5) that end the frame carry the marker; an empty NAL unit is not sent. */
    method SendNal(nal: seq<Byte>, timestamp: Word32, isLastNalOfFrame: bool)
      modifies this
      ensures var ps := CallPackets(Call(nal, timestamp, isLastNalOfFrame), old(sequenceNumber), ssrc);
              && sent == old(sent) + Datagrams(ps, timestamp)
              && sequenceNumber == Wrap(old(sequenceNumber) + |ps|)
    {
      ghost var c := Call(nal, timestamp, isLastNalOfFrame);
      CallIs(c, sequenceNumber, ssrc);
      hide CallPackets, Wrap, Datagrams, StripStartCode, SentUnit, UnitPackets;
      if nal == [] { return; }
      var clean := StripStartCode(nal);
      if clean == [] { return; }
      var nalType := clean[0] % 32;
      var marker := 1 <= nalType <= 5 && isLastNalOfFrame;
      if |clean| <= MAX_PAYLOAD {
        SingleSent(clean, sequenceNumber, ssrc, marker, timestamp);
        SendPacket(clean, timestamp, marker);
      } else {
        SendFragmented(clean, timestamp, marker);
      }
    }

    /** The encoder's units, one call each. */
    method SendAll(calls: seq<Call>)
      modifies this
      ensures sent == old(sent) + SentDatagrams(calls, old(sequenceNumber), ssrc).0
      ensures sequenceNumber == Wrap(old(sequenceNumber) + SentDatagrams(calls, old(sequenceNumber), ssrc).1)
    {
      ghost var first, before := sequenceNumber, sent;
      NoneSent(calls, first, ssrc, before);
      hide *;
      for i := 0 to |calls|
        invariant SoFar(calls, i, first, ssrc, before, sent, sequenceNumber)
      {
        OneSent(calls, i, first, ssrc, before, sent, sequenceNumber);
        SendNal(calls[i].nal, calls[i].timestamp, calls[i].isLastNalOfFrame);
      }
      AllSent(calls, first, ssrc, before, sent, sequenceNumber);
    }

    method SendFragmented(nal: Nal, timestamp: Word32, nalMarker: bool)
      requires |nal| > MAX_PAYLOAD
      modifies this
      ensures var ps := UnitPackets(SentUnit(nal), old(sequenceNumber), ssrc, nalMarker);
              && sent == old(sent) + Datagrams(ps, timestamp)
              && sequenceNumber == Wrap(old(sequenceNumber) + |ps|)
    {
      hide Wrap, Progress, SentSoFar, Datagrams, Datagram, UnitPackets, SentUnit, Pieces, StripStartCode;
      ghost var job := Job(nal, sequenceNumber, ssrc, nalMarker, timestamp);
      var offset := 1;
      ghost var i := 0;
      JobStarts(job);
      WrapNone(sequenceNumber);
      while offset < |nal|
        invariant offset <= |nal| && Progress(job, offset, i)
        invariant sent == old(sent) + SentSoFar(job, i)
        invariant sequenceNumber == Wrap(old(sequenceNumber) + i)
      {
        var remaining := |nal| - offset;
        var chunkSize := if MAX_PAYLOAD - 2 < remaining then MAX_PAYLOAD - 2 else remaining;
        JobGoesOn(job, offset, i, chunkSize);
        SendFragment(job, nal, timestamp, nalMarker, offset, chunkSize, i);
        offset := offset + chunkSize;
        i := i + 1;
      }
      JobEnds(job, offset, i);
    }

    method SendFragment(ghost job: Job, nal: Nal, timestamp: Word32, nalMarker: bool, offset: nat, chunkSize: nat, ghost i: nat)
      requires job == Job(nal, job.seqNo, ssrc, nalMarker, timestamp) && |nal| > MAX_PAYLOAD
      requires Progress(job, offset, i) && offset + chunkSize <= |nal| && i < |job.Parts()|
      requires job.Parts()[i] == nal[offset..offset + chunkSize]
      requires offset + chunkSize == |nal| <==> i == |job.Parts()| - 1
      requires sequenceNumber == Wrap(job.seqNo + i)
      modifies this
      ensures sequenceNumber == Wrap(job.seqNo + i + 1)
      ensures sent == old(sent) + [Datagram(job.Packet(i), timestamp)]
    {
      WrapLowBits(job.seqNo + i);
      JobPacket(job, offset, i, chunkSize);
      hide *;
      var isLastFragment := offset + chunkSize >= |nal|;
      var start: Byte := if offset == 1 then 128 else 0;
      var end: Byte := if isLastFragment then 64 else 0;
      var payload := [nal[0] / 32 % 4 * 32 + 28, start + end + nal[0] % 32] + nal[offset..offset + chunkSize];
      SendPacket(payload, timestamp, isLastFragment && nalMarker);
    }
  }

  // ----- A run of calls -----

  datatype Call = Call(nal: seq<Byte>, timestamp: Word32, isLastNalOfFrame: bool)

  /** The NAL unit has a type of a single unit and a clear F bit, or nothing is sent. */
  predicate CallOk(c: Call)
  {
    var clean := StripStartCode(c.nal);
    clean == [] || (1 <= NalType(clean) <= 23 && clean[0] < 128)
  }

  predicate CallsOk(calls: seq<Call>) { forall i :: 0 <= i < |calls| ==> CallOk(calls[i]) }

  /** The unit a call sends, if any. */
  function SentBy(c: Call): (ms: seq<Marked>)
    ensures CallOk(c) ==> AllOk(ms)
  {
    var clean := StripStartCode(c.nal);
    if clean == [] then []
    else
      SentUnitCarriesNal(clean);
      [Marked(SentUnit(clean), 1 <= NalType(clean) <= 5 && c.isLastNalOfFrame)]
  }

  function SentByAll(calls: seq<Call>): (ms: seq<Marked>)
    ensures CallsOk(calls) ==> AllOk(ms)
  {
    if calls == [] then [] else SentByAll(calls[..|calls| - 1]) + SentBy(calls[|calls| - 1])
  }

  function CallPackets(c: Call, seqNo: nat, ssrc: Word32): seq<Rtp>
  {
    var ms := SentBy(c);
    if ms == [] then [] else UnitPackets(ms[0].unit, seqNo, ssrc, ms[0].marker)
  }

  /** What the socket is given, when the first packet has the number `seqNo`, and how many packets. */
  function SentDatagrams(calls: seq<Call>, seqNo: nat, ssrc: Word32): (r: (seq<seq<Byte>>, nat))
  {
    if calls == [] then ([], 0)
    else
      var (front, n) := SentDatagrams(calls[..|calls| - 1], seqNo, ssrc);
      var c := calls[|calls| - 1];
      var ps := CallPackets(c, seqNo + n, ssrc);
      (front + Datagrams(ps, c.timestamp), n + |ps|)
  }

  /** The packets of one call. */
  lemma CallIs(c: Call, seqNo: Word32, ssrc: Word32)
    ensures var (clean, ps) := (StripStartCode(c.nal), CallPackets(c, seqNo, ssrc));
            && (c.nal == [] ==> clean == [])
            && (clean == [] ==> ps == [] && Datagrams(ps, c.timestamp) == [] && Wrap(seqNo) == seqNo)
            && (clean != [] ==> ps == UnitPackets(SentUnit(clean), seqNo, ssrc, 1 <= NalType(clean) <= 5 && c.isLastNalOfFrame))
  {
  }

  lemma SingleSent(nal: Nal, seqNo: Word32, ssrc: Word32, marker: bool, timestamp: Word32)
    requires nal != [] && |nal| <= MAX_PAYLOAD
    ensures var ps := UnitPackets(SentUnit(nal), seqNo, ssrc, marker);
            |ps| == 1 && Datagrams(ps, timestamp) == [Datagram(Rtp(marker, seqNo % 0x1_0000, ssrc, nal), timestamp)]
  {
    hide Datagram;
    var p := Rtp(marker, seqNo % 0x1_0000, ssrc, nal);
    DatagramsSnoc([], p, timestamp);
    assert [] + [p] == [p];
  }

  lemma {:induction false} PacketsConcat(os: Platform, a: seq<seq<Byte>>, b: seq<seq<Byte>>)
    ensures Packets(os, a + b) == Packets(os, a) + Packets(os, b)
  {
    if b == [] {
      assert a + b == a;
    } else {
      var k := |b| - 1;
      assert (a + b)[..|a + b| - 1] == a + b[..k] && (a + b)[|a + b| - 1] == b[k];
      PacketsConcat(os, a, b[..k]);
    }
  }

  lemma {:induction false} PieceSizes(body: seq<Byte>, size: nat, i: nat)
    requires size > 0 && i < |Pieces(body, size)|
    ensures |Pieces(body, size)[i]| <= size
  {
    if |body| > size && i > 0 { PieceSizes(body[size..], size, i - 1); }
  }

  /** Everything the sender sends fits the receive buffer. */
  lemma CallFits(c: Call, seqNo: nat, ssrc: Word32)
    ensures AllFit(CallPackets(c, seqNo, ssrc))
  {
    var clean, ps := StripStartCode(c.nal), CallPackets(c, seqNo, ssrc);
    if clean != [] && SentUnit(clean).Fragments? {
      forall i | 0 <= i < |ps|
        ensures PacketFits(ps[i])
      {
        PieceSizes(clean[1..], MAX_PAYLOAD - 2, i);
      }
    }
  }

  lemma PacketsOfSnoc(ms: seq<Marked>, c: Call, seqNo: nat, ssrc: Word32)
    requires AllOk(ms) && CallOk(c)
    ensures AllOk(ms + SentBy(c))
    ensures var front := PacketsOf(ms, seqNo, ssrc);
            PacketsOf(ms + SentBy(c), seqNo, ssrc) == front + CallPackets(c, seqNo + |front|, ssrc)
  {
    hide PacketsOf, UnitPackets, SentBy, MarkedOk, CallOk, AllOk;
    SentIsOne(c);
    var more := SentBy(c);
    if more == [] {
      assert ms + more == ms;
    } else {
      assert more == [more[0]];
      PacketsSnoc(ms, more[0], seqNo, ssrc);
    }
  }

  lemma SentIsOne(c: Call)
    ensures |SentBy(c)| <= 1 && (CallOk(c) && SentBy(c) != [] ==> MarkedOk(SentBy(c)[0]))
  {
  }

  /** What the receiver gets out of the datagrams of a run of calls. */
  lemma {:induction false} SentPackets(os: Platform, calls: seq<Call>, seqNo: nat, ssrc: Word32)
    requires CallsOk(calls)
    ensures var ps := PacketsOf(SentByAll(calls), seqNo, ssrc);
            Packets(os, SentDatagrams(calls, seqNo, ssrc).0) == ps && SentDatagrams(calls, seqNo, ssrc).1 == |ps|
  {
    hide SentBy, SentByAll, SentDatagrams, PacketsOf, Packets, CallPackets, CallOk, CallsOk, Datagrams, AllFit, AllOk;
    if calls == [] {
      NonePackets(os, seqNo, ssrc);
    } else {
      var front, c := calls[..|calls| - 1], calls[|calls| - 1];
      assert calls == front + [c];
      SentSnoc(front, c, seqNo, ssrc);
      SentPackets(os, front, seqNo, ssrc);
      var n := SentDatagrams(front, seqNo, ssrc).1;
      PacketsOfSnoc(SentByAll(front), c, seqNo, ssrc);
      var ps := CallPackets(c, seqNo + n, ssrc);
      PacketsConcat(os, SentDatagrams(front, seqNo, ssrc).0, Datagrams(ps, c.timestamp));
      CallFits(c, seqNo + n, ssrc);
      PacketsOfDatagrams(os, ps, c.timestamp);
    }
  }

  lemma NonePackets(os: Platform, seqNo: nat, ssrc: Word32)
    ensures Packets(os, SentDatagrams([], seqNo, ssrc).0) == [] == PacketsOf(SentByAll([]), seqNo, ssrc)
    ensures SentDatagrams([], seqNo, ssrc).1 == 0
  {
  }

  /** End to end: whatever the encoder hands over, when no datagram is lost the receiver puts out the
      NAL units in order, a frame ending with each slice that was marked last, and where a unit that
      needed fragments met a frame under way. */
  lemma SentStreamDelivered(os: Platform, s: State, pend: seq<Nal>, calls: seq<Call>, seqNo: nat, ssrc: Word32)
    requires CallsOk(calls) && Ready(s, Rendering([], pend), ssrc)
    ensures CameOut(os, s, SentDatagrams(calls, seqNo, ssrc).0, Assemble(Waiting(pend), SentByAll(calls)), ssrc)
  {
    hide *;
    var ds, ms := SentDatagrams(calls, seqNo, ssrc).0, SentByAll(calls);
    SentPackets(os, calls, seqNo, ssrc);
    RunDatagramsIsRun(os, s, ds);
    WaitingOnly(pend);
    StreamDelivered(s, Rendering([], pend), ms, seqNo, ssrc);
    CameOutIs(os, s, ds, Assemble(Waiting(pend), ms), ssrc);
  }

  lemma PacketsWrap(c: Call, n: nat, ssrc: Word32)
    ensures CallPackets(c, Wrap(n), ssrc) == CallPackets(c, n, ssrc)
  {
    if SentBy(c) != [] {
      hide Wrap, SentBy;
      UnitWraps(SentBy(c)[0].unit, n, ssrc, SentBy(c)[0].marker);
    }
  }

  lemma UnitWraps(u: Unit, n: nat, ssrc: Word32, marker: bool)
    requires u.Aggregate? ==> UnitOk(u)
    ensures UnitPackets(u, Wrap(n), ssrc, marker) == UnitPackets(u, n, ssrc, marker)
  {
    hide Wrap, FragmentPayload, StapBody, UnitOk;
    var (ps, qs) := (UnitPackets(u, Wrap(n), ssrc, marker), UnitPackets(u, n, ssrc, marker));
    forall i | 0 <= i < |ps|
      ensures ps[i] == qs[i]
    {
      WrapPlus(n, 0);
      WrapPlus(n, i);
    }
  }

  lemma WrapPlus(n: nat, i: nat)
    ensures (Wrap(n) + i) % 0x1_0000 == (n + i) % 0x1_0000
    ensures Wrap(Wrap(n) + i) == Wrap(n + i)
  {
    var q := n / 0x1_0000_0000;
    assert n == Wrap(n) + 0x1_0000_0000 * q;
    hide Wrap;
    LowBits(Wrap(n) + i, 0x1_0000 * q);
    WrapAgain(Wrap(n) + i, q);
  }

  lemma LowBits(x: nat, z: nat)
    ensures (x + 0x1_0000 * z) % 0x1_0000 == x % 0x1_0000
  {
  }

  lemma WrapAgain(x: nat, z: nat)
    ensures Wrap(x + 0x1_0000_0000 * z) == Wrap(x)
  {
  }

  /** After the first i calls. */
  ghost predicate SoFar(calls: seq<Call>, i: nat, first: nat, ssrc: Word32, before: seq<seq<Byte>>,
                        sent: seq<seq<Byte>>, now: Word32)
    requires i <= |calls|
  {
    && sent == before + SentDatagrams(calls[..i], first, ssrc).0
    && now == Wrap(first + SentDatagrams(calls[..i], first, ssrc).1)
  }

  lemma NoneSent(calls: seq<Call>, first: Word32, ssrc: Word32, before: seq<seq<Byte>>)
    ensures SoFar(calls, 0, first, ssrc, before, before, first)
  {
  }

  lemma AllSent(calls: seq<Call>, first: nat, ssrc: Word32, before: seq<seq<Byte>>, sent: seq<seq<Byte>>, now: Word32)
    requires SoFar(calls, |calls|, first, ssrc, before, sent, now)
    ensures sent == before + SentDatagrams(calls, first, ssrc).0
    ensures now == Wrap(first + SentDatagrams(calls, first, ssrc).1)
  {
    hide SentDatagrams, Wrap;
    assert calls[..|calls|] == calls;
  }

  lemma OneSent(calls: seq<Call>, i: nat, first: nat, ssrc: Word32, before: seq<seq<Byte>>, sent: seq<seq<Byte>>, now: Word32)
    requires i < |calls| && SoFar(calls, i, first, ssrc, before, sent, now)
    ensures var c := calls[i];
            var ps := CallPackets(Call(c.nal, c.timestamp, c.isLastNalOfFrame), now, ssrc);
            SoFar(calls, i + 1, first, ssrc, before, sent + Datagrams(ps, c.timestamp), Wrap(now + |ps|))
  {
    hide CallPackets, Datagrams, Wrap, SentDatagrams;
    var n := SentDatagrams(calls[..i], first, ssrc).1;
    assert calls[..i + 1] == calls[..i] + [calls[i]];
    SentSnoc(calls[..i], calls[i], first, ssrc);
    PacketsWrap(calls[i], first + n, ssrc);
    WrapPlus(first + n, |CallPackets(calls[i], first + n, ssrc)|);
  }

  lemma SentSnoc(front: seq<Call>, c: Call, seqNo: nat, ssrc: Word32)
    ensures var (ds, n) := SentDatagrams(front, seqNo, ssrc);
            var ps := CallPackets(c, seqNo + n, ssrc);
            SentDatagrams(front + [c], seqNo, ssrc) == (ds + Datagrams(ps, c.timestamp), n + |ps|)
    ensures SentByAll(front + [c]) == SentByAll(front) + SentBy(c)
    ensures CallsOk(front + [c]) ==> CallsOk(front) && CallOk(c)
  {
    hide CallPackets, Datagrams, CallOk, SentBy;
    var calls := front + [c];
    assert calls[..|calls| - 1] == front && calls[|calls| - 1] == c;
    assert CallsOk(calls) ==> forall i :: 0 <= i < |front| ==> calls[i] == front[i];
  }

  /** One call of `SendFragmented`, and how far it has come. */
  datatype Job = Job(nal: Nal, seqNo: nat, ssrc: Word32, marker: bool, timestamp: Word32) {
    ghost function Parts(): seq<seq<Byte>>
      requires nal != []
    {
      Pieces(nal[1..], MAX_PAYLOAD - 2)
    }

    ghost function Packet(i: nat): Rtp
      requires |nal| > MAX_PAYLOAD && i < |Parts()|
    {
      Rtp(marker && i == |Parts()| - 1, (seqNo + i) % 0x1_0000, ssrc, FragmentPayload(nal[0], Parts(), i))
    }

    ghost function Packets(): (ps: seq<Rtp>)
      requires |nal| > MAX_PAYLOAD
      ensures |ps| == |Parts()| && forall i :: 0 <= i < |ps| ==> ps[i] == Packet(i)
    {
      UnitPackets(SentUnit(nal), seqNo, ssrc, marker)
    }
  }

  ghost predicate Progress(job: Job, offset: nat, i: nat)
  {
    && |job.nal| > MAX_PAYLOAD && 1 <= offset <= |job.nal| && i <= |job.Parts()| && (offset == 1 <==> i == 0)
    && job.Parts()[i..] == Pieces(job.nal[offset..], MAX_PAYLOAD - 2)
  }

  ghost function SentSoFar(job: Job, i: nat): seq<seq<Byte>>
  {
    if |job.nal| > MAX_PAYLOAD && i <= |job.Parts()| then Datagrams(job.Packets()[..i], job.timestamp) else []
  }

  lemma WrapNone(n: Word32)
    ensures Wrap(n + 0) == n
  {
  }

  lemma JobStarts(job: Job)
    requires |job.nal| > MAX_PAYLOAD
    ensures Progress(job, 1, 0) && SentSoFar(job, 0) == []
  {
  }

  lemma JobGoesOn(job: Job, offset: nat, i: nat, chunkSize: nat)
    requires Progress(job, offset, i) && offset < |job.nal|
    requires chunkSize == if MAX_PAYLOAD - 2 < |job.nal| - offset then MAX_PAYLOAD - 2 else |job.nal| - offset
    ensures i < |job.Parts()| && job.Parts()[i] == job.nal[offset..offset + chunkSize]
    ensures offset + chunkSize == |job.nal| <==> i == |job.Parts()| - 1
    ensures Progress(job, offset + chunkSize, i + 1)
    ensures SentSoFar(job, i + 1) == SentSoFar(job, i) + [Datagram(job.Packet(i), job.timestamp)]
  {
    NextPiece(job.Parts(), i, job.nal, offset, chunkSize);
    var ps := job.Packets();
    assert ps[..i] + [ps[i]] == ps[..i + 1];
    DatagramsSnoc(ps[..i], ps[i], job.timestamp);
  }

  lemma JobPacket(job: Job, offset: nat, i: nat, chunkSize: nat)
    requires Progress(job, offset, i) && offset + chunkSize <= |job.nal| && i < |job.Parts()|
    requires job.Parts()[i] == job.nal[offset..offset + chunkSize]
    requires offset + chunkSize == |job.nal| <==> i == |job.Parts()| - 1
    ensures var start: Byte := if offset == 1 then 128 else 0;
            var end: Byte := if offset + chunkSize >= |job.nal| then 64 else 0;
            var payload := [job.nal[0] / 32 % 4 * 32 + 28, start + end + job.nal[0] % 32] + job.nal[offset..offset + chunkSize];
            job.Packet(i) == Rtp(offset + chunkSize >= |job.nal| && job.marker, (job.seqNo + i) % 0x1_0000, job.ssrc, payload)
  {
  }

  lemma JobEnds(job: Job, offset: nat, i: nat)
    requires Progress(job, offset, i) && offset == |job.nal|
    ensures |job.nal| > MAX_PAYLOAD && job.Packets() == UnitPackets(SentUnit(job.nal), job.seqNo, job.ssrc, job.marker)
    ensures i == |job.Packets()| && SentSoFar(job, i) == Datagrams(job.Packets(), job.timestamp)
  {
    assert job.nal[offset..] == [] && |job.Parts()[i..]| == 0;
    assert job.Packets()[..i] == job.Packets();
  }

  lemma NextPiece(pieces: seq<seq<Byte>>, i: nat, nal: Nal, offset: nat, chunkSize: nat)
    requires i <= |pieces| && offset < |nal| && pieces[i..] == Pieces(nal[offset..], MAX_PAYLOAD - 2)
    requires chunkSize == if MAX_PAYLOAD - 2 < |nal| - offset then MAX_PAYLOAD - 2 else |nal| - offset
    ensures i < |pieces| && pieces[i] == nal[offset..offset + chunkSize]
    ensures pieces[i + 1..] == Pieces(nal[offset + chunkSize..], MAX_PAYLOAD - 2)
    ensures i == |pieces| - 1 <==> offset + chunkSize == |nal|
  {
    var body := nal[offset..];
    assert body[..chunkSize] == nal[offset..offset + chunkSize];
    assert body[chunkSize..] == nal[offset + chunkSize..];
    assert pieces[i] == pieces[i..][0] && pieces[i + 1..] == pieces[i..][1..];
  }
}
