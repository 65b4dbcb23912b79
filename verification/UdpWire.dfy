/** UDP datagrams in octets: what the sender puts into them, and which of them the receiver takes. */
module UdpWire {
  import opened Bytes
  import opened UdpReassembly
  import opened UdpDelivery

  /** A 32-bit number, least significant octet first. */
  function Little(d: seq<Byte>, at: nat): nat
    requires at + 4 <= |d|
  {
    Octet(d, at) + 0x100 * Octet(d, at + 1) + 0x1_0000 * Octet(d, at + 2) + 0x100_0000 * Octet(d, at + 3)
  }

  function Octet(d: seq<Byte>, at: nat): nat
    requires at < |d|
  {
    d[at]
  }

  lemma LittleIs(d: seq<Byte>, at: nat)
    requires at + 4 <= |d|
    ensures LE32(d[at..at + 4]) == Little(d, at)
  {
    var b := d[at..at + 4];
    U16Value(b[3], b[2]);
    U16Value(b[1], b[0]);
  }

  lemma ParsedHeader(d: seq<Byte>)
    ensures |d| < 16 ==> Parse(d) == None
    ensures |d| >= 16 ==> Parse(d) == Some(Packet(Little(d, 0), Little(d, 4), Little(d, 8), Little(d, 12), d[16..]))
  {
    if |d| >= 16 {
      HeaderWords(d);
      LittleIs(d, 0);
      LittleIs(d, 4);
      LittleIs(d, 8);
      LittleIs(d, 12);
      hide LE32, Little;
    }
  }

  /** A datagram of a frame that its slot does not hold takes over the slot exactly when it has a whole header, with
      1 to 10000 chunks, an index below that and a stride of 1 to 65000 octets; the slot is the number of the frame
      modulo 8. No other slot changes. */
  lemma SlotTaken(os: Platform, slots: seq<FrameSlot>, d: seq<Byte>)
    requires SlotsValid(slots) && 4 <= |d| <= 1500 && slots[Little(d, 0) % 8].sequence != Little(d, 0)
    ensures |slots| == 8 && |Step(os, slots, d).0| == 8
    ensures Step(os, slots, d).0[Little(d, 0) % 8].sequence == Little(d, 0)
       <==> |d| >= 16 && 1 <= Little(d, 4) <= 10000 && Little(d, 8) < Little(d, 4) && 1 <= Little(d, 12) <= 65000
    ensures forall n :: 0 <= n < 8 && n != Little(d, 0) % 8 ==> Step(os, slots, d).0[n] == slots[n]
  {
    hide Little, SlotStep, SlotValid;
    ParsedHeader(d);
  }

  /** Header and content of datagram i of n: the frame's number, n, i, and 1400; then the 1400 octets of the frame
      from 1400 * i on, or as many as there are. */
  predicate Carries(d: seq<Byte>, jpegData: seq<Byte>, sequenceNumber: Word32, n: nat, i: nat)
  {
    var end := if 1400 * i + 1400 < |jpegData| then 1400 * i + 1400 else |jpegData|;
    && |d| >= 16 && Little(d, 0) == sequenceNumber && Little(d, 4) == n && Little(d, 8) == i && Little(d, 12) == 1400
    && 1400 * i < end && d[16..] == jpegData[1400 * i..end]
  }

  /** What the sender sends: just as many datagrams as the frame needs, each with its piece. */
  lemma SentOctets(jpegData: seq<Byte>, sequenceNumber: Word32, i: nat)
    requires Sendable(jpegData) && i < SentFrame(jpegData, sequenceNumber).total
    ensures var f := SentFrame(jpegData, sequenceNumber);
            && 1400 * (f.total - 1) < |jpegData| <= 1400 * f.total
            && Carries(Datagrams(f, f.total)[i], jpegData, sequenceNumber, f.total, i)
  {
    var f := SentFrame(jpegData, sequenceNumber);
    var p := SentPacket(f, i);
    DatagramAt(f, f.total, i);
    ParseSerialize(p);
    ParsedHeader(Serialize(p));
    hide Little, Serialize, Parse, ChunkCount;
  }

  lemma {:induction false} DatagramAt(f: Frame, k: nat, i: nat)
    requires Sendable(f.bytes) && i < k <= f.total && f == SentFrame(f.bytes, f.sequence)
    ensures Datagrams(f, k)[i] == Serialize(SentPacket(f, i)) && |Datagrams(f, k)[i]| >= 16
  {
    hide SentPacket, ChunkCount;
    if i < k - 1 { DatagramAt(f, k - 1, i); }
  }

  /** A datagram for a frame that its slot holds, but with another count of chunks, changes nothing. */
  lemma OtherCountIgnored(os: Platform, slots: seq<FrameSlot>, d: seq<Byte>)
    requires SlotsValid(slots) && 16 <= |d| <= 1500 && |slots| == 8
    requires slots[Little(d, 0) % 8].sequence == Little(d, 0) && slots[Little(d, 0) % 8].totalExpected != Little(d, 4)
    ensures Step(os, slots, d) == (slots, None)
  {
    ParsedHeader(d);
    var i := Little(d, 0) % 8;
    hide Little, SlotValid;
    assert slots[i := slots[i]] == slots;
  }
}
