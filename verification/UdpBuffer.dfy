/** Frames whose chunks do not fit the receive buffer: the receiver cuts the datagram off, or never gets
    it, and the frame cannot come back intact. */
module UdpBuffer {
  import opened Bytes
  import opened UdpReassembly
  import opened UdpDelivery

  /** The first octet of a chunk that does not come into the buffer. */
  const CUT_OFF := BUFFER_SIZE - HEADER_SIZE

  // ----- The hole -----

  /** What a slot holds at the position `CUT_OFF`: what an earlier frame left there, or zero once the
      buffer has grown that far. */
  function AtCut(data: seq<Byte>): Byte
  {
    if |data| > CUT_OFF then data[CUT_OFF] else 0
  }

  /** A chunk of more than `CUT_OFF` octets leaves the octet at that position as it was. */
  lemma HoleStep(s: FrameSlot, p: Packet)
    requires SlotValid(s) && HeaderOk(p) && |p.payload| <= CUT_OFF < p.stride
    ensures var (t, out) := SlotStep(s, p);
            && AtCut(t.data) == AtCut(s.data)
            && (out.Some? && |out.value| > CUT_OFF ==> out.value[CUT_OFF] == AtCut(s.data))
  {
    var offset := p.index * p.stride;
    if p.index > 0 {
      MulMonotone(1, p.index, p.stride);
    }
    var e := Enter(s, p);
    assert AtCut(e.data) == AtCut(s.data);
    if offset + |p.payload| <= |e.data| {
      OverwriteKeepsCut(e.data, offset, p.payload);
    }
  }

  lemma OverwriteKeepsCut(data: seq<Byte>, offset: nat, payload: seq<Byte>)
    requires offset + |payload| <= |data| && (offset > CUT_OFF || (offset == 0 && |payload| <= CUT_OFF))
    ensures AtCut(Overwrite(data, offset, payload)) == AtCut(data)
  {
  }

  lemma {:induction false} HoleStays(os: Platform, f: Frame, init: seq<FrameSlot>, run: seq<seq<Byte>>, k: nat)
    requires Cut(f) && !Fits(f) && SlotsValid(init) && Undisturbed(f, run) && k <= |run|
    ensures AtCut(After(os, init, run, k)[f.sequence % SLOT_COUNT].data) == AtCut(init[f.sequence % SLOT_COUNT].data)
  {
    if k > 0 {
      hide Step, SlotsValid, Belongs, Harmless, AtCut;
      HoleStays(os, f, init, run, k - 1);
      var slots := After(os, init, run, k - 1);
      if Belongs(f, run[k - 1]) {
        OversizeStep(os, f, slots, run[k - 1]);
      } else {
        HarmlessStep(os, f, slots, run[k - 1]);
      }
    }
  }

  lemma OversizeStep(os: Platform, f: Frame, slots: seq<FrameSlot>, d: seq<Byte>)
    requires Cut(f) && !Fits(f) && SlotsValid(slots) && Belongs(f, d)
    ensures var n := f.sequence % SLOT_COUNT;
            var (after, out) := Step(os, slots, d);
            && AtCut(after[n].data) == AtCut(slots[n].data)
            && (out.Some? && |out.value| > CUT_OFF ==> out.value[CUT_OFF] == AtCut(slots[n].data))
  {
    hide SlotStep, Parse, Received, AtCut, SlotValid;
    ReceivedHeader(os, d);
    var p := Parse(Received(os, d, BUFFER_SIZE));
    if p.Some? && HeaderOk(p.value) {
      HoleStep(slots[SlotIndex(p.value)], p.value);
    }
  }

  /** A frame with a chunk longer than the buffer never comes back intact, unless the octet the slot
      holds at the first position cut off happens to be the right one. */
  lemma OversizeNeverIntact(os: Platform, f: Frame, init: seq<FrameSlot>, run: seq<seq<Byte>>, k: nat)
    requires Cut(f) && !Fits(f) && SlotsValid(init) && Undisturbed(f, run) && k < |run| && Belongs(f, run[k])
    requires f.bytes[CUT_OFF] != AtCut(init[f.sequence % SLOT_COUNT].data)
    ensures Output(os, init, run, k) != Some(f.bytes)
  {
    hide Step, SlotsValid, Belongs, AtCut;
    HoleStays(os, f, init, run, k);
    OversizeStep(os, f, After(os, init, run, k), run[k]);
  }

  // ----- The exact condition -----

  /** `g` is cut like `f`; only its octets may differ. */
  predicate SameShape(f: Frame, g: Frame)
  {
    g == f.(bytes := g.bytes) && |g.bytes| == |f.bytes|
  }

  /** One of the datagrams makes the receiver return the frame. */
  ghost predicate Returned(os: Platform, f: Frame, init: seq<FrameSlot>, run: seq<seq<Byte>>)
    requires Cut(f) && SlotsValid(init)
  {
    exists k :: 0 <= k < |run| && Belongs(f, run[k]) && Output(os, init, run, k) == Some(f.bytes)
  }

  /** Every frame cut like `f` comes back once all its chunks have arrived. */
  ghost predicate Reliable(os: Platform, f: Frame, init: seq<FrameSlot>)
    requires Cut(f) && SlotsValid(init)
  {
    forall g, run :: SameShape(f, g) && Undisturbed(g, run) && AllArrived(g, run, |run|) ==> Returned(os, g, init, run)
  }

  /** Delivery can be relied on exactly when the longest datagram fits the buffer: on both platforms and
      whatever an earlier stream left in the slots. */
  lemma DeliveredIffFits(os: Platform, f: Frame, init: seq<FrameSlot>)
    requires Cut(f) && SlotsValid(init) && init[f.sequence % SLOT_COUNT].sequence != f.sequence
    ensures Reliable(os, f, init) <==> Fits(f)
  {
    if Fits(f) {
      forall g, run | SameShape(f, g) && Undisturbed(g, run) && AllArrived(g, run, |run|)
        ensures Returned(os, g, init, run)
      {
        var k := CompletesOnce(g, run, |run|);
        FrameDelivered(os, g, init, run, k);
      }
    } else {
      Unreliable(os, f, init);
    }
  }

  lemma Unreliable(os: Platform, f: Frame, init: seq<FrameSlot>)
    requires Cut(f) && SlotsValid(init) && !Fits(f)
    ensures !Reliable(os, f, init)
  {
    var other: Byte := if AtCut(init[f.sequence % SLOT_COUNT].data) == 0 then 1 else 0;
    var g := f.(bytes := f.bytes[CUT_OFF := other]);
    var run := ChunkDatagrams(g);
    DatagramsArrive(g);
    assert SameShape(f, g);
    if Returned(os, g, init, run) {
      var k :| 0 <= k < |run| && Belongs(g, run[k]) && Output(os, init, run, k) == Some(g.bytes);
      OversizeNeverIntact(os, g, init, run, k);
      assert false;
    }
  }

  /** The datagrams of a frame, in order. */
  function ChunkDatagrams(f: Frame): (run: seq<seq<Byte>>)
    requires Cut(f)
    ensures |run| == f.total
  {
    seq(f.total, i requires 0 <= i < f.total => Serialize(ChunkPacket(f, i)))
  }

  lemma DatagramsArrive(f: Frame)
    requires Cut(f)
    ensures Undisturbed(f, ChunkDatagrams(f)) && AllArrived(f, ChunkDatagrams(f), f.total)
  {
    forall i | 0 <= i < f.total
      ensures IsChunk(f, ChunkDatagrams(f)[i], i) && Belongs(f, ChunkDatagrams(f)[i])
      ensures Arrived(f, ChunkDatagrams(f), f.total, i)
    {
      ParseSerialize(ChunkPacket(f, i));
      assert IsChunk(f, ChunkDatagrams(f)[i], i);
    }
  }

  // ----- A frame that comes back damaged -----

  /** 4000 octets in two chunks of 2000. */
  function Oversize(): Frame
  {
    Frame(7, 2, 2000, seq(4000, _ => 1))
  }

  /** A fresh receiver gets both chunks of the frame in order. Where the datagram is cut off, the second
      step returns a frame of 3484 octets whose octets 1484 to 1999 are zero. Where the call fails,
      nothing is returned. */
  lemma OversizeDamaged()
    ensures Cut(Oversize()) && !Fits(Oversize())
    ensures Output(Posix, FreshSlots(), ChunkDatagrams(Oversize()), 1)
         == Some(seq(3484, i => if CUT_OFF <= i < 2000 then 0 else 1))
    ensures Output(Windows, FreshSlots(), ChunkDatagrams(Oversize()), 1) == None
  {
    hide After, Step, SlotStep, EmptySlot, Parse, Words, Received, ChunkDatagrams, Enter, Placed, HalfFilled;
    OversizeCut();
    var (f, slots) := (Oversize(), FreshSlots());
    var run := ChunkDatagrams(f);
    OversizeReceived(0);
    OversizeReceived(1);
    var ones: seq<Byte> := seq(CUT_OFF, _ => 1);
    var (p, q) := (Packet(7, 2, 0, 2000, ones), Packet(7, 2, 1, 2000, ones));
    var s := SlotStep(slots[7], p).0;
    FirstHalf(p, s);
    SecondHalf(s, q);
    StepOn(Posix, slots, run[0], p);
    StepOn(Posix, slots[7 := s], run[1], q);
    StepSkips(Windows, slots, run[0]);
    StepSkips(Windows, slots, run[1]);
    AfterOne(Posix, slots, run);
    AfterOne(Windows, slots, run);
  }

  lemma OversizeCut()
    ensures Cut(Oversize()) && !Fits(Oversize()) && Oversize().total == 2
    ensures FreshSlots()[7] == EmptySlot()
  {
  }

  lemma StepOn(os: Platform, slots: seq<FrameSlot>, d: seq<Byte>, p: Packet)
    requires SlotsValid(slots) && Parse(Received(os, d, BUFFER_SIZE)) == Some(p) && HeaderOk(p) && SlotIndex(p) == 7
    ensures Step(os, slots, d) == (slots[7 := SlotStep(slots[7], p).0], SlotStep(slots[7], p).1)
  {
    hide SlotStep, Parse, Received;
  }

  lemma StepSkips(os: Platform, slots: seq<FrameSlot>, d: seq<Byte>)
    requires SlotsValid(slots) && Parse(Received(os, d, BUFFER_SIZE)) == None
    ensures Step(os, slots, d) == (slots, None)
  {
    hide SlotStep, Parse, Received;
  }

  lemma AfterOne(os: Platform, init: seq<FrameSlot>, run: seq<seq<Byte>>)
    requires SlotsValid(init) && run != []
    ensures After(os, init, run, 1) == Step(os, init, run[0]).0
  {
    hide Step, SlotsValid;
    FirstSlots(os, init, run);
  }

  lemma OversizeReceived(i: nat)
    requires i < 2
    ensures var d := ChunkDatagrams(Oversize())[i];
            && Parse(Received(Posix, d, BUFFER_SIZE)) == Some(Packet(7, 2, i, 2000, seq(CUT_OFF, _ => 1)))
            && Parse(Received(Windows, d, BUFFER_SIZE)) == None
  {
    var f := Oversize();
    var d := ChunkDatagrams(f)[i];
    ParseSerialize(ChunkPacket(f, i));
    ReceivedHeader(Posix, d);
    assert |d| == 2016;
    var q := Parse(d[..BUFFER_SIZE]).value.payload;
    assert q == Chunk(f, i)[..CUT_OFF];
    assert Chunk(f, i)[..CUT_OFF] == seq(CUT_OFF, _ => 1);
  }

  predicate HalfFilled(s: FrameSlot)
  {
    && s.sequence == 7 && s.packetsReceived == 1 && s.totalExpected == 2 && !s.isComplete
    && s.packetMap == [true, false] && |s.data| == 4000 && s.actualSize == CUT_OFF
    && (forall i :: 0 <= i < CUT_OFF ==> s.data[i] == 1) && (forall i :: CUT_OFF <= i < 4000 ==> s.data[i] == 0)
  }

  lemma FirstHalf(p: Packet, s: FrameSlot)
    requires p == Packet(7, 2, 0, 2000, seq(CUT_OFF, _ => 1)) && s == SlotStep(EmptySlot(), p).0
    ensures HalfFilled(s) && SlotStep(EmptySlot(), p).1 == None
  {
    assert seq(2, _ => false)[0 := true] == [true, false];
  }

  lemma SecondHalf(s: FrameSlot, q: Packet)
    requires SlotValid(s) && HalfFilled(s) && q == Packet(7, 2, 1, 2000, seq(CUT_OFF, _ => 1))
    ensures SlotStep(s, q).1 == Some(seq(3484, i => if CUT_OFF <= i < 2000 then 0 else 1))
  {
    var t := Placed(s, q, 2000);
    assert t.data[..3484] == seq(3484, i => if CUT_OFF <= i < 2000 then 0 else 1);
  }
}
