/** RTP datagrams in octets (section 5.1 of RFC 3550), Annex-B start codes, and the encoder's access units from the
    calls that send them to the frames that come out. */
module RtpWire {
  import opened Bytes
  import opened AnnexB
  import opened RtpDepacketizer
  import opened RtpRoundTrip
  import opened RtpStreams
  import opened RtpBuffer
  import opened RtpSender

  function Big16(d: seq<Byte>, at: nat): nat
    requires at + 2 <= |d|
  {
    var (hi: nat, lo: nat) := (d[at], d[at + 1]);
    0x100 * hi + lo
  }

  function Big32(d: seq<Byte>, at: nat): nat
    requires at + 4 <= |d|
  {
    0x1_0000 * Big16(d, at) + Big16(d, at + 2)
  }

  /** Version 2, no padding, extension or CSRC; the marker and payload type 96; sequence number, timestamp and SSRC,
      most significant octet first; the payload. */
  lemma RtpOnWire(p: Rtp, timestamp: Word32)
    ensures var d := Datagram(p, timestamp);
            && |d| == 12 + |p.payload| && d[0] == 0x80 && d[1] == (if p.marker then 0x80 + 96 else 96)
            && Big16(d, 2) == p.seqNo && Big32(d, 4) == timestamp && Big32(d, 8) == p.ssrc && d[12..] == p.payload
  {
    var (t, s) := (ToBE32(timestamp), ToBE32(p.ssrc));
    U16HiLo(p.seqNo);
    U16Value(Hi(p.seqNo), Lo(p.seqNo));
    Words(t);
    Words(s);
    hide ToBE32, U32, U16, Hi, Lo;
    var d := Datagram(p, timestamp);
    assert d[4] == t[0] && d[5] == t[1] && d[6] == t[2] && d[7] == t[3];
    assert d[8] == s[0] && d[9] == s[1] && d[10] == s[2] && d[11] == s[3];
  }

  lemma Words(b: seq<Byte>)
    requires |b| == 4
    ensures U32(b) == Big32(b, 0)
  {
    U16Value(b[0], b[1]);
    U16Value(b[2], b[3]);
  }

  /** What the receiver reads of a datagram: nothing of one that is short or of another version. */
  lemma RtpOffWire(d: seq<Byte>)
    ensures |d| < 12 || d[0] / 64 != 2 ==> Parse(d) == None
    ensures |d| >= 12 && d[0] / 64 == 2 ==> Parse(d) == Some(Rtp(d[1] / 128 == 1, Big16(d, 2), Big32(d, 8), d[12..]))
  {
    if |d| >= 12 {
      Words(d[8..12]);
      U16Value(d[2], d[3]);
      hide U32, U16;
    }
  }

  /** A frame is its NAL units, each behind the octets 0, 0, 0, 1. */
  lemma FrameOctets(nals: seq<Nal>)
    ensures nals == [] ==> Join(nals) == []
    ensures nals != [] ==> Join(nals) == Join(nals[..|nals| - 1]) + [0, 0, 0, 1] + nals[|nals| - 1]
  {
  }

  // ----- Fragments and aggregates -----

  /** Section 5.8 of RFC 6184: an indicator of type 28 with the F bit clear and the unit's NRI, a header with the
      start bit on the first fragment, the end bit on the last and the unit's type, and the piece. */
  lemma FragmentOctets(header: Byte, pieces: seq<seq<Byte>>, i: nat)
    requires i < |pieces| && header < 128
    ensures var (d, nri, nalType) := (FragmentPayload(header, pieces, i), header / 32, header % 32);
            && |d| >= 2 && d[0] == 32 * nri + 28 && d[2..] == pieces[i]
            && d[1] == (if i == 0 then 128 else 0) + (if i == |pieces| - 1 then 64 else 0) + nalType
  {
  }

  /** Section 5.7.1: each unit behind its length in two octets. */
  lemma AggregateOctets(nals: seq<Nal>)
    requires nals != [] && forall n :: n in nals ==> |n| < 0x1_0000
    ensures var (d, n) := (StapBody(nals), |nals[0]|);
            && |d| >= 2 + n && Big16(d, 0) == n && d[2..2 + n] == nals[0] && d[2 + n..] == StapBody(nals[1..])
  {
    U16HiLo(|nals[0]|);
    U16Value(Hi(|nals[0]|), Lo(|nals[0]|));
  }

  // ----- Access units of the encoder -----

  /** NAL units of single-unit types with the F bit clear, the last of them a slice. */
  predicate EncodedOk(au: seq<Nal>)
  {
    && au != [] && (forall i :: 0 <= i < |au| ==> au[i] != [] && 1 <= au[i][0] % 32 <= 23 && au[i][0] < 128)
    && au[|au| - 1][0] % 32 <= 5
  }

  predicate AllEncodedOk(aus: seq<seq<Nal>>) { forall i :: 0 <= i < |aus| ==> EncodedOk(aus[i]) }

  /** One call for each NAL unit, with its start code; the last is said to be the last. */
  function CallsFor(au: seq<Nal>, timestamp: Word32): (calls: seq<Call>)
    ensures |calls| == |au|
  {
    seq(|au|, i requires 0 <= i < |au| => Call([0, 0, 0, 1] + au[i], timestamp, i == |au| - 1))
  }

  function AllCalls(aus: seq<seq<Nal>>, timestamps: seq<Word32>): seq<Call>
    requires |timestamps| == |aus|
  {
    if aus == [] then []
    else
      var k := |aus| - 1;
      AllCalls(aus[..k], timestamps[..k]) + CallsFor(aus[k], timestamps[k])
  }

  /** Up to 1200 octets go in one packet, longer units in fragments of up to 1198. */
  function UnitsOf(au: seq<Nal>): (units: seq<Unit>)
    requires EncodedOk(au)
    ensures |units| == |au|
  {
    seq(|au|, i requires 0 <= i < |au| =>
      if |au[i]| <= 1200 then Single(au[i]) else Fragments(au[i][0], Pieces(au[i][1..], 1198)))
  }

  function UnitsOfAll(aus: seq<seq<Nal>>): (units: seq<seq<Unit>>)
    requires AllEncodedOk(aus)
    ensures |units| == |aus| && forall i :: 0 <= i < |aus| ==> units[i] == UnitsOf(aus[i])
  {
    seq(|aus|, i requires 0 <= i < |aus| => UnitsOf(aus[i]))
  }

  lemma CallSends(nal: Nal, timestamp: Word32, last: bool)
    requires nal != [] && 1 <= nal[0] % 32 <= 23 && nal[0] < 128
    ensures var c := Call([0, 0, 0, 1] + nal, timestamp, last);
            && CallOk(c) && SentBy(c) == [Marked(SentUnit(nal), last && nal[0] % 32 <= 5)]
    ensures UnitOk(SentUnit(nal)) && UnitNals(SentUnit(nal)) == [nal]
    ensures SentUnit(nal) == if |nal| <= 1200 then Single(nal) else Fragments(nal[0], Pieces(nal[1..], 1198))
  {
    assert ([0, 0, 0, 1] + nal)[..4] == START_CODE && ([0, 0, 0, 1] + nal)[4..] == nal;
    SentUnitCarriesNal(nal);
    hide UnitNals, UnitOk, Pieces;
  }

  lemma SentByAllSnoc(calls: seq<Call>, c: Call)
    ensures SentByAll(calls + [c]) == SentByAll(calls) + SentBy(c)
  {
    assert (calls + [c])[..|calls|] == calls;
  }

  lemma {:induction false} SentByAllConcat(a: seq<Call>, b: seq<Call>)
    ensures SentByAll(a + b) == SentByAll(a) + SentByAll(b)
  {
    if b == [] {
      assert a + b == a;
    } else {
      hide SentBy;
      var k := |b| - 1;
      assert (a + b)[..|a + b| - 1] == a + b[..k] && (a + b)[|a + b| - 1] == b[k];
      SentByAllConcat(a, b[..k]);
    }
  }

  /** The unit that call i sends. */
  lemma UnitSent(au: seq<Nal>, timestamp: Word32, i: nat)
    requires EncodedOk(au) && i < |au|
    ensures var (c, last) := (CallsFor(au, timestamp)[i], i == |au| - 1);
            && CallOk(c) && UnitOk(UnitsOf(au)[i]) && !(last && IsParamUnit(UnitsOf(au)[i]))
            && SentBy(c) == [Marked(UnitsOf(au)[i], last)]
  {
    hide SentBy, SentUnit, Pieces, CallOk, UnitOk, UnitNals;
    CallSends(au[i], timestamp, i == |au| - 1);
  }

  lemma {:induction false} UnmarkedSent(au: seq<Nal>, timestamp: Word32, k: nat)
    requires EncodedOk(au) && k < |au|
    ensures SentByAll(CallsFor(au, timestamp)[..k]) == Unmarked(UnitsOf(au), k)
  {
    hide *;
    if k == 0 {
      NothingSent(UnitsOf(au), CallsFor(au, timestamp));
    } else {
      UnmarkedSent(au, timestamp, k - 1);
      UnitSent(au, timestamp, k - 1);
      OneMoreSent(CallsFor(au, timestamp), UnitsOf(au), k);
    }
  }

  lemma NothingSent(units: seq<Unit>, calls: seq<Call>)
    ensures SentByAll(calls[..0]) == [] == Unmarked(units, 0)
  {
  }

  lemma OneMoreSent(calls: seq<Call>, units: seq<Unit>, k: nat)
    requires 0 < k <= |calls| == |units| && SentByAll(calls[..k - 1]) == Unmarked(units, k - 1)
    requires SentBy(calls[k - 1]) == [Marked(units[k - 1], false)]
    ensures SentByAll(calls[..k]) == Unmarked(units, k)
  {
    hide SentBy, Unmarked, SentByAll;
    assert calls[..k] == calls[..k - 1] + [calls[k - 1]];
    SentByAllSnoc(calls[..k - 1], calls[k - 1]);
    UnmarkedNext(units, k);
  }

  lemma UnmarkedNext(units: seq<Unit>, k: nat)
    requires 0 < k <= |units|
    ensures Unmarked(units, k) == Unmarked(units, k - 1) + [Marked(units[k - 1], false)]
  {
  }

  /** The calls for an access unit send its units in order, and the marker with the last. */
  lemma AccessUnitSent(au: seq<Nal>, timestamp: Word32)
    requires EncodedOk(au)
    ensures AccessUnitOk(UnitsOf(au)) && CallsOk(CallsFor(au, timestamp))
    ensures SentByAll(CallsFor(au, timestamp)) == Mark(UnitsOf(au))
  {
    hide *;
    var calls, units, k := CallsFor(au, timestamp), UnitsOf(au), |au| - 1;
    NotEmpty(au);
    UnmarkedSent(au, timestamp, k);
    forall i | 0 <= i < |au| ensures CallOk(calls[i]) && UnitOk(units[i]) {
      UnitSent(au, timestamp, i);
    }
    UnitSent(au, timestamp, k);
    LastSent(calls, units);
  }

  lemma NotEmpty(au: seq<Nal>)
    requires EncodedOk(au)
    ensures au != []
  {
  }

  lemma LastSent(calls: seq<Call>, units: seq<Unit>)
    requires |calls| == |units| > 0 && forall i :: 0 <= i < |calls| ==> CallOk(calls[i]) && UnitOk(units[i])
    requires !IsParamUnit(units[|units| - 1]) && SentBy(calls[|calls| - 1]) == [Marked(units[|units| - 1], true)]
    requires SentByAll(calls[..|calls| - 1]) == Unmarked(units, |units| - 1)
    ensures AccessUnitOk(units) && CallsOk(calls) && SentByAll(calls) == Mark(units)
  {
    hide SentBy, Unmarked, SentByAll, CallOk, UnitOk, IsParamUnit;
    var k := |calls| - 1;
    assert calls == calls[..k] + [calls[k]];
    SentByAllSnoc(calls[..k], calls[k]);
  }

  lemma {:induction false} StreamSent(aus: seq<seq<Nal>>, timestamps: seq<Word32>)
    requires |timestamps| == |aus| && AllEncodedOk(aus)
    ensures StreamOk(UnitsOfAll(aus)) && CallsOk(AllCalls(aus, timestamps))
    ensures SentByAll(AllCalls(aus, timestamps)) == MarkAll(UnitsOfAll(aus))
  {
    hide EncodedOk, UnitsOf, CallsFor, CallOk, AccessUnitOk, Mark, SentBy;
    if aus != [] {
      var k := |aus| - 1;
      StreamSent(aus[..k], timestamps[..k]);
      AccessUnitSent(aus[k], timestamps[k]);
      SentByAllConcat(AllCalls(aus[..k], timestamps[..k]), CallsFor(aus[k], timestamps[k]));
      assert UnitsOfAll(aus)[..k] == UnitsOfAll(aus[..k]);
      forall i | 0 <= i < |aus| ensures AccessUnitOk(UnitsOfAll(aus)[i]) {
        if i < k { assert UnitsOfAll(aus[..k])[i] == UnitsOfAll(aus)[i]; }
      }
    }
  }

  /** From the encoder to the frames: when the access units are handed to the sender unit by unit and no datagram is
      lost, what comes out is, for each access unit, its frames - one, unless a long unit follows another slice. */
  lemma EncodedDelivered(os: Platform, s: State, pend: seq<Nal>, aus: seq<seq<Nal>>, timestamps: seq<Word32>, seqNo: nat, ssrc: Word32)
    requires |timestamps| == |aus| && AllEncodedOk(aus) && Ready(s, Rendering([], pend), ssrc)
    ensures StreamOk(UnitsOfAll(aus))
    ensures var frames := StreamFrames(pend, UnitsOfAll(aus)).0;
            && RunDatagrams(os, s, SentDatagrams(AllCalls(aus, timestamps), seqNo, ssrc).0).1 == JoinEach(frames)
            && (|frames| == |aus| <==> forall i :: 0 <= i < |aus| ==> FragmentsFirst(UnitsOfAll(aus)[i]))
  {
    hide *;
    StreamSent(aus, timestamps);
    var calls, units := AllCalls(aus, timestamps), UnitsOfAll(aus);
    SentStreamDelivered(os, s, pend, calls, seqNo, ssrc);
    AccessUnitsApart(pend, units);
    CameOutIs(os, s, SentDatagrams(calls, seqNo, ssrc).0, Assemble(Waiting(pend), SentByAll(calls)), ssrc);
    OneFrameEach(pend, units);
  }
}
