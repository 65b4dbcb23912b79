/** Slot-based reassembly of frames from UDP datagrams (udp-receiver.cpp), with the chunking its
    sender performs (UdpSender.kt). */
module UdpReassembly {
  import opened Bytes

  const SLOT_COUNT := 8
  const HEADER_SIZE := 16
  /** The receive buffer. */
  const BUFFER_SIZE := 1500
  const MAX_PACKETS := 10000
  const MAX_CHUNK := 65000
  const IMPOSSIBLE_SEQUENCE: Word32 := 0xFFFF_FFFF

  datatype FrameSlot = FrameSlot(
    sequence: Word32,
    packetsReceived: Word32,
    totalExpected: Word32,
    maxChunkSize: Word32,
    actualSize: nat,
    packetMap: seq<bool>,
    data: seq<Byte>,
    isComplete: bool)

  datatype Packet = Packet(sequence: Word32, total: Word32, index: Word32, stride: Word32, payload: seq<Byte>)

  // ----- Wire format -----

  /** The first n words. */
  function Words(d: seq<Byte>, n: nat): (w: seq<Word32>)
    requires 4 * n <= |d|
    ensures |w| == n
    decreases |d|
  {
    if n == 0 then [] else [LE32(d[..4])] + Words(d[4..], n - 1)
  }

  function Parse(d: seq<Byte>): Option<Packet>
  {
    if |d| < HEADER_SIZE then None
    else
      var w := Words(d, 4);
      Some(Packet(w[0], w[1], w[2], w[3], d[HEADER_SIZE..]))
  }

  lemma HeaderWords(d: seq<Byte>)
    requires |d| >= HEADER_SIZE
    ensures Words(d, 4) == [LE32(d[0..4]), LE32(d[4..8]), LE32(d[8..12]), LE32(d[12..16])]
  {
    hide LE32;
    var (d1, d2, d3) := (d[4..], d[8..], d[12..]);
    assert d1[..4] == d[4..8] && d1[4..] == d2;
    assert d2[..4] == d[8..12] && d2[4..] == d3;
    assert d3[..4] == d[12..16];
    assert Words(d3[4..], 0) == [];
    assert Words(d3, 1) == [LE32(d[12..16])];
    assert Words(d2, 2) == [LE32(d[8..12]), LE32(d[12..16])];
    assert Words(d1, 3) == [LE32(d[4..8]), LE32(d[8..12]), LE32(d[12..16])];
  }

  function Serialize(p: Packet): seq<Byte>
  {
    ToLE32(p.sequence) + ToLE32(p.total) + ToLE32(p.index) + ToLE32(p.stride) + p.payload
  }

  lemma ParseSerialize(p: Packet)
    ensures Parse(Serialize(p)) == Some(p)
  {
    var d := Serialize(p);
    assert d[0..4] == ToLE32(p.sequence) && d[4..8] == ToLE32(p.total);
    assert d[8..12] == ToLE32(p.index) && d[12..16] == ToLE32(p.stride) && d[16..] == p.payload;
    HeaderWords(d);
  }

  predicate HeaderOk(p: Packet)
  {
    0 < p.total <= MAX_PACKETS && p.index < p.total && 0 < p.stride <= MAX_CHUNK
  }

  // ----- What one datagram does to its slot -----

  function Count(map_: seq<bool>): (n: nat)
    ensures n <= |map_|
  {
    if map_ == [] then 0 else Count(map_[..|map_| - 1]) + (if map_[|map_| - 1] then 1 else 0)
  }

  predicate SlotValid(s: FrameSlot)
  {
    && |s.packetMap| == s.totalExpected <= MAX_PACKETS
    && s.packetsReceived == Count(s.packetMap)
    && s.actualSize <= |s.data|
  }

  function EmptySlot(): FrameSlot
  {
    FrameSlot(IMPOSSIBLE_SEQUENCE, 0, 0, 0, 0, [], [], false)
  }

  function Grown(data: seq<Byte>, size: nat): (r: seq<Byte>)
    ensures |r| >= size && |r| >= |data|
  {
    if |data| < size then data + seq(size - |data|, _ => 0) else data
  }

  function Enter(s: FrameSlot, p: Packet): (r: FrameSlot)
    requires SlotValid(s) && HeaderOk(p)
    ensures SlotValid(r) && r.sequence == p.sequence
  {
    if s.sequence == p.sequence then s
    else
      CountNone(seq(p.total, _ => false));
      FrameSlot(p.sequence, 0, p.total, p.stride, 0, seq(p.total, _ => false),
                   Grown(s.data, p.stride * p.total), false)
  }

  function Overwrite(data: seq<Byte>, offset: nat, payload: seq<Byte>): (r: seq<Byte>)
    requires offset + |payload| <= |data|
    ensures |r| == |data|
  {
    data[..offset] + payload + data[offset + |payload|..]
  }

  function Placed(s: FrameSlot, p: Packet, offset: nat): (r: FrameSlot)
    requires SlotValid(s) && p.index < |s.packetMap| && !s.packetMap[p.index]
    requires offset + |p.payload| <= |s.data|
    ensures SlotValid(r)
  {
    CountSet(s.packetMap, p.index);
    s.(data := Overwrite(s.data, offset, p.payload),
       packetMap := s.packetMap[p.index := true],
       packetsReceived := s.packetsReceived + 1,
       actualSize := if offset + |p.payload| > s.actualSize then offset + |p.payload| else s.actualSize)
  }

  function SlotStep(slot: FrameSlot, p: Packet): (r: (FrameSlot, Option<seq<Byte>>))
    requires SlotValid(slot) && HeaderOk(p)
    ensures SlotValid(r.0) && r.0.sequence == p.sequence
  {
    var s := Enter(slot, p);
    var offset := p.index * p.stride;
    if s.totalExpected != p.total || offset + |p.payload| > |s.data| then (s, None)
    else
      var t := if s.packetMap[p.index] then s else Placed(s, p, offset);
      if t.packetsReceived == t.totalExpected && !t.isComplete
      then (t.(isComplete := true), Some(t.data[..t.actualSize]))
      else (t, None)
  }

  /** Entering the slot first makes no difference. */
  lemma EnterStep(s: FrameSlot, p: Packet)
    requires SlotValid(s) && HeaderOk(p)
    ensures SlotStep(Enter(s, p), p) == SlotStep(s, p)
    ensures s.sequence == p.sequence ==> Enter(s, p) == s
  {
  }

  lemma {:induction false} CountNone(m: seq<bool>)
    requires forall i :: 0 <= i < |m| ==> !m[i]
    ensures Count(m) == 0
  {
    if m != [] { CountNone(m[..|m| - 1]); }
  }

  lemma {:induction false} CountSet(m: seq<bool>, i: nat)
    requires i < |m| && !m[i]
    ensures Count(m[i := true]) == Count(m) + 1
  {
    var k := |m| - 1;
    if i < k {
      assert m[i := true][..k] == m[..k][i := true];
      CountSet(m[..k], i);
    } else {
      assert m[i := true][..k] == m[..k];
    }
  }

  lemma {:induction false} CountAll(m: seq<bool>)
    ensures Count(m) == |m| <==> forall i :: 0 <= i < |m| ==> m[i]
  {
    if m != [] {
      var k := |m| - 1;
      CountAll(m[..k]);
      assert forall i :: 0 <= i < k ==> m[i] == m[..k][i];
    }
  }

  // ----- The receiver -----

  function SlotIndex(p: Packet): nat { p.sequence % SLOT_COUNT }

  /** The whole effect of one datagram on the eight slots, and the frame it completes, if any. */
  function Step(os: Platform, slots: seq<FrameSlot>, d: seq<Byte>): (r: (seq<FrameSlot>, Option<seq<Byte>>))
    requires SlotsValid(slots)
    ensures SlotsValid(r.0)
  {
    var p := Parse(Received(os, d, BUFFER_SIZE));
    if p.None? || !HeaderOk(p.value) then (slots, None)
    else
      var i := SlotIndex(p.value);
      var (s, frame) := SlotStep(slots[i], p.value);
      (slots[i := s], frame)
  }

  predicate SlotsValid(slots: seq<FrameSlot>)
  {
    |slots| == SLOT_COUNT && forall i :: 0 <= i < SLOT_COUNT ==> SlotValid(slots[i])
  }

  function FreshSlots(): (r: seq<FrameSlot>)
    ensures SlotsValid(r)
  {
    seq(SLOT_COUNT, _ => EmptySlot())
  }

  class UdpReceiver {
    const slots: array<FrameSlot>

    ghost predicate Valid()
      reads slots
    {
      slots.Length == SLOT_COUNT && SlotsValid(slots[..])
    }

    constructor ()
      ensures Valid() && fresh(slots) && slots[..] == FreshSlots()
    {
      slots := new FrameSlot[SLOT_COUNT](_ => EmptySlot());
    }

    /** Restarting leaves nothing of an earlier stream behind. */
    method Start()
      requires slots.Length == SLOT_COUNT
      modifies slots
      ensures Valid() && slots[..] == FreshSlots()
    {
      for i := 0 to SLOT_COUNT
        invariant forall j :: 0 <= j < i ==> slots[j] == EmptySlot()
      {
        slots[i] := EmptySlot();
      }
    }

    /** One datagram, as far as it comes into the buffer; the outcome and all eight slots are those of
        `Step`. */
    method ReceiveFrame(os: Platform, datagram: seq<Byte>) returns (frame: Option<seq<Byte>>)
      requires Valid()
      modifies slots
      ensures Valid()
      ensures (slots[..], frame) == Step(os, old(slots[..]), datagram)
    {
      hide SlotStep, Enter, Received, LE32, SlotValid;
      frame := None;
      var d := Received(os, datagram, BUFFER_SIZE);
      if |d| < HEADER_SIZE { return; }
      HeaderWords(d);
      var p := Packet(LE32(d[0..4]), LE32(d[4..8]), LE32(d[8..12]), LE32(d[12..16]), d[HEADER_SIZE..]);
      if p.total == 0 || p.total > MAX_PACKETS { return; }
      if p.index >= p.total { return; }
      if p.stride == 0 || p.stride > MAX_CHUNK { return; }
      assert Parse(d) == Some(p) && HeaderOk(p);
      var i := p.sequence % SLOT_COUNT;
      ghost var before := slots[..];
      if slots[i].sequence != p.sequence {
        ResetSlot(i, p);
      }
      EnterStep(before[i], p);
      assert slots[..] == before[i := Enter(before[i], p)];
      frame := AcceptChunk(i, p);
      assert slots[..] == before[i := SlotStep(before[i], p).0];
    }

    method AcceptChunk(i: nat, p: Packet) returns (frame: Option<seq<Byte>>)
      requires Valid() && i < SLOT_COUNT && HeaderOk(p) && slots[i].sequence == p.sequence
      modifies slots
      ensures slots[..] == old(slots[..])[i := SlotStep(old(slots[i]), p).0]
      ensures frame == SlotStep(old(slots[i]), p).1
    {
      frame := None;
      var offset := p.index * p.stride;
      if slots[i].totalExpected != p.total || offset + |p.payload| > |slots[i].data| { return; }
      if !slots[i].packetMap[p.index] {
        PlaceChunk(i, p, offset);
      }
      if slots[i].packetsReceived == slots[i].totalExpected && !slots[i].isComplete {
        slots[i] := slots[i].(isComplete := true);
        frame := Some(slots[i].data[..slots[i].actualSize]);
      }
    }

    /** A new sequence takes the slot over; its buffer is kept and only ever grows. */
    method ResetSlot(i: nat, p: Packet)
      requires Valid() && i < SLOT_COUNT && HeaderOk(p) && slots[i].sequence != p.sequence
      modifies slots
      ensures slots[..] == old(slots[..])[i := Enter(old(slots[i]), p)]
    {
      slots[i] := slots[i].(sequence := p.sequence, packetsReceived := 0, totalExpected := p.total,
                            maxChunkSize := p.stride, isComplete := false, actualSize := 0);
      var worstCase := p.stride * p.total;
      if |slots[i].data| < worstCase {
        slots[i] := slots[i].(data := slots[i].data + seq(worstCase - |slots[i].data|, _ => 0));
      }
      slots[i] := slots[i].(packetMap := seq(p.total, _ => false));
    }

    method PlaceChunk(i: nat, p: Packet, offset: nat)
      requires Valid() && i < SLOT_COUNT && p.index < |slots[i].packetMap| && !slots[i].packetMap[p.index]
      requires offset + |p.payload| <= |slots[i].data|
      modifies slots
      ensures slots[..] == old(slots[..])[i := Placed(old(slots[i]), p, offset)]
    {
      CountSet(slots[i].packetMap, p.index);
      slots[i] := slots[i].(data := Overwrite(slots[i].data, offset, p.payload));
      slots[i] := slots[i].(packetMap := slots[i].packetMap[p.index := true]);
      slots[i] := slots[i].(packetsReceived := slots[i].packetsReceived + 1);
      var endByte := offset + |p.payload|;
      if endByte > slots[i].actualSize {
        slots[i] := slots[i].(actualSize := endByte);
      }
    }
  }
}
