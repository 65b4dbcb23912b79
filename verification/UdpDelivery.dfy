/** What the slots deliver over whole runs: a frame cut into chunks comes back exactly once, intact,
    under reordering, duplication and interleaving with other slots. */
module UdpDelivery {
  import opened Bytes
  import opened UdpReassembly

  // ----- A frame and its chunks -----

  datatype Frame = Frame(sequence: Word32, total: nat, stride: nat, bytes: seq<Byte>)

  /** All chunks but the last are exactly `stride` long; the last is at most that. */
  predicate Cut(f: Frame)
  {
    && 0 < f.total <= 10000 && 0 < f.stride <= 65000
    && (f.total - 1) * f.stride <= |f.bytes| <= f.total * f.stride
  }

  /** What a sender can check: the longest datagram, header included, fits the receive buffer. */
  predicate Fits(f: Frame)
  {
    16 + (if f.stride < |f.bytes| then f.stride else |f.bytes|) <= 1500
  }

  function Begin(f: Frame, i: nat): nat { i * f.stride }

  function End(f: Frame, i: nat): nat
  {
    if (i + 1) * f.stride < |f.bytes| then (i + 1) * f.stride else |f.bytes|
  }

  lemma ChunkBounds(f: Frame, i: nat)
    requires Cut(f) && i < f.total
    ensures Begin(f, i) <= End(f, i) <= |f.bytes| <= f.stride * f.total
    ensures i == f.total - 1 ==> End(f, i) == |f.bytes|
    ensures i < f.total - 1 ==> End(f, i) == Begin(f, i + 1) == Begin(f, i) + f.stride
  {
    assert f.stride * f.total == f.total * f.stride;
    if i < f.total - 1 {
      MulMonotone(i + 1, f.total - 1, f.stride);
    }
  }

  lemma MulMonotone(a: nat, b: nat, c: nat)
    requires a <= b
    ensures a * c <= b * c
  {
  }

  function Chunk(f: Frame, i: nat): seq<Byte>
    requires Cut(f) && i < f.total
  {
    ChunkBounds(f, i);
    f.bytes[Begin(f, i)..End(f, i)]
  }

  function ChunkPacket(f: Frame, i: nat): (p: Packet)
    requires Cut(f) && i < f.total
    ensures HeaderOk(p)
  {
    Packet(f.sequence, f.total, i, f.stride, Chunk(f, i))
  }

  /** Every position of the frame lies in some chunk. */
  lemma {:induction false} Locate(f: Frame, j: nat, upTo: nat) returns (i: nat)
    requires Cut(f) && upTo < f.total && j < End(f, upTo)
    ensures i <= upTo && Begin(f, i) <= j < End(f, i)
  {
    i := upTo;
    if j < Begin(f, upTo) {
      assert upTo > 0;
      ChunkBounds(f, upTo - 1);
      i := Locate(f, j, upTo - 1);
    }
  }

  // ----- Runs of datagrams -----

  /** Cutting a datagram off does not touch its header. */
  lemma ReceivedHeader(os: Platform, d: seq<Byte>)
    ensures var (p, q) := (Parse(d), Parse(Received(os, d, BUFFER_SIZE)));
            q.None? || (p.Some? && q.value == p.value.(payload := q.value.payload) && |q.value.payload| <= BUFFER_SIZE - HEADER_SIZE)
  {
    hide LE32, Words;
    var r := Received(os, d, BUFFER_SIZE);
    if |r| >= HEADER_SIZE {
      HeaderWords(d);
      HeaderWords(r);
      assert r == d[..|r|];
      assert r[0..4] == d[0..4] && r[4..8] == d[4..8] && r[8..12] == d[8..12] && r[12..16] == d[12..16];
    }
  }

  /** A chunk of a frame that fits is received whole. */
  lemma ChunkReceived(os: Platform, f: Frame, d: seq<Byte>, i: nat)
    requires Cut(f) && Fits(f) && IsChunk(f, d, i)
    ensures Received(os, d, BUFFER_SIZE) == d
  {
    ChunkBounds(f, i);
    assert Begin(f, i) + f.stride == (i + 1) * f.stride;
    assert |d| == HEADER_SIZE + |Chunk(f, i)|;
  }

  function After(os: Platform, init: seq<FrameSlot>, run: seq<seq<Byte>>, k: nat): (slots: seq<FrameSlot>)
    requires SlotsValid(init) && k <= |run|
    ensures SlotsValid(slots)
  {
    if k == 0 then init else Step(os, After(os, init, run, k - 1), run[k - 1]).0
  }

  /** What `ReceiveFrame` returns for the k-th datagram. */
  function Output(os: Platform, init: seq<FrameSlot>, run: seq<seq<Byte>>, k: nat): Option<seq<Byte>>
    requires SlotsValid(init) && k < |run|
  {
    Step(os, After(os, init, run, k), run[k]).1
  }

  ghost predicate IsChunk(f: Frame, d: seq<Byte>, i: nat)
    requires Cut(f)
  {
    i < f.total && Parse(d) == Some(ChunkPacket(f, i))
  }

  ghost predicate Belongs(f: Frame, d: seq<Byte>)
    requires Cut(f)
  {
    exists i :: IsChunk(f, d, i)
  }

  ghost predicate Arrived(f: Frame, run: seq<seq<Byte>>, k: nat, i: nat)
    requires Cut(f) && k <= |run|
  {
    exists j :: 0 <= j < k && IsChunk(f, run[j], i)
  }

  ghost predicate AllArrived(f: Frame, run: seq<seq<Byte>>, k: nat)
    requires Cut(f) && k <= |run|
  {
    forall i :: 0 <= i < f.total ==> Arrived(f, run, k, i)
  }

  /** The k-th datagram is the one with the last missing index. */
  ghost predicate Completes(f: Frame, run: seq<seq<Byte>>, k: nat)
    requires Cut(f) && k < |run|
  {
    Belongs(f, run[k]) && !AllArrived(f, run, k) && AllArrived(f, run, k + 1)
  }

  /** In this stretch no other sequence enters the slot of `f`: datagrams the receiver would accept
      for that slot are chunks of `f`. Anything may arrive for the other seven slots, and malformed
      datagrams may arrive for this one. */
  ghost predicate Undisturbed(f: Frame, run: seq<seq<Byte>>)
    requires Cut(f)
  {
    forall k :: 0 <= k < |run| ==> Belongs(f, run[k]) || Harmless(f, run[k])
  }

  ghost predicate Harmless(f: Frame, d: seq<Byte>)
  {
    var p := Parse(d);
    p.None? || !HeaderOk(p.value) || SlotIndex(p.value) != f.sequence % SLOT_COUNT
  }

  // ----- The invariant of the slot while its frame is arriving -----

  ghost predicate Filling(f: Frame, run: seq<seq<Byte>>, k: nat, s: FrameSlot)
    requires Cut(f) && k <= |run|
  {
    && SlotValid(s)
    && s.sequence == f.sequence && s.totalExpected == f.total
    && (s.isComplete <==> s.packetsReceived == f.total)
    && f.stride * f.total <= |s.data|
    && s.actualSize <= |f.bytes|
    && (forall i :: 0 <= i < f.total ==> (s.packetMap[i] <==> Arrived(f, run, k, i)))
    && (forall i :: 0 <= i < f.total && s.packetMap[i] ==> Stored(f, s, i))
  }

  ghost predicate Stored(f: Frame, s: FrameSlot, i: nat)
    requires Cut(f) && i < f.total && f.stride * f.total <= |s.data|
  {
    ChunkBounds(f, i);
    End(f, i) <= s.actualSize && s.data[Begin(f, i)..End(f, i)] == Chunk(f, i)
  }

  /** With every chunk stored, the first `actualSize` bytes are the frame: nothing stale shows. */
  lemma FullSlotHoldsFrame(f: Frame, s: FrameSlot)
    requires Cut(f) && SlotValid(s) && f.stride * f.total <= |s.data| && s.actualSize <= |f.bytes|
    requires forall i :: 0 <= i < f.total ==> Stored(f, s, i)
    ensures s.data[..s.actualSize] == f.bytes
  {
    assert Stored(f, s, f.total - 1);
    ChunkBounds(f, f.total - 1);
    forall j | 0 <= j < |f.bytes|
      ensures s.data[j] == f.bytes[j]
    {
      var i := Locate(f, j, f.total - 1);
      assert Stored(f, s, i);
      ChunkBounds(f, i);
      assert s.data[j] == s.data[Begin(f, i)..End(f, i)][j - Begin(f, i)] == Chunk(f, i)[j - Begin(f, i)];
    }
  }

  /** Writing one chunk keeps the others: chunks do not overlap. */
  lemma PlacedKeepsStored(f: Frame, s: FrameSlot, i: nat, other: nat)
    requires Cut(f) && i < f.total && other < f.total && SlotValid(s) && s.totalExpected == f.total
    requires f.stride * f.total <= |s.data| && !s.packetMap[i]
    requires i == other || Stored(f, s, other)
    ensures Begin(f, i) + |Chunk(f, i)| <= |s.data|
    ensures Stored(f, Placed(s, ChunkPacket(f, i), Begin(f, i)), other)
  {
    ChunkBounds(f, i);
    ChunkBounds(f, other);
    if other < i {
      MulMonotone(other + 1, i, f.stride);
    } else if i < other {
      MulMonotone(i + 1, other, f.stride);
    }
  }

  lemma Entering(f: Frame, run: seq<seq<Byte>>, k: nat, s: FrameSlot, p: Packet)
    requires Cut(f) && k <= |run| && SlotValid(s) && s.sequence != f.sequence
    requires forall j :: 0 <= j < k ==> !Belongs(f, run[j])
    requires HeaderOk(p) && p.sequence == f.sequence && p.total == f.total && p.stride == f.stride
    ensures Filling(f, run, k, Enter(s, p))
  {
    CountNone(seq(p.total, _ => false));
  }

  lemma ArrivedNext(f: Frame, run: seq<seq<Byte>>, k: nat, i: nat)
    requires Cut(f) && k < |run| && IsChunk(f, run[k], i)
    ensures forall n :: 0 <= n < f.total ==> (Arrived(f, run, k + 1, n) <==> Arrived(f, run, k, n) || n == i)
  {
    assert Arrived(f, run, k + 1, i);
    forall n | 0 <= n < f.total && Arrived(f, run, k, n)
      ensures Arrived(f, run, k + 1, n)
    {
      var j :| 0 <= j < k && IsChunk(f, run[j], n);
    }
    forall n | 0 <= n < f.total && Arrived(f, run, k + 1, n) && n != i
      ensures Arrived(f, run, k, n)
    {
      var j :| 0 <= j < k + 1 && IsChunk(f, run[j], n);
      assert j != k;
    }
  }

  /** The receiver's packet count tells whether every index has arrived. */
  lemma CountTellsArrival(f: Frame, run: seq<seq<Byte>>, k: nat, m: seq<bool>)
    requires Cut(f) && k <= |run| && |m| == f.total
    requires forall i :: 0 <= i < f.total ==> (m[i] <==> Arrived(f, run, k, i))
    ensures Count(m) == f.total <==> AllArrived(f, run, k)
  {
    hide Arrived;
    CountAll(m);
  }

  lemma DuplicateStep(f: Frame, run: seq<seq<Byte>>, k: nat, s: FrameSlot, i: nat)
    requires Cut(f) && k < |run| && IsChunk(f, run[k], i) && Filling(f, run, k, s) && s.packetMap[i]
    ensures SlotStep(s, ChunkPacket(f, i)) == (s, None)
    ensures Filling(f, run, k + 1, s) && !Completes(f, run, k)
  {
    assert i < f.total;
    hide IsChunk, Belongs, Arrived, AllArrived, Stored, Count;
    ChunkBounds(f, i);
    ArrivedNext(f, run, k, i);
    CountTellsArrival(f, run, k, s.packetMap);
    CountTellsArrival(f, run, k + 1, s.packetMap);
  }

  lemma NewChunkKeeps(f: Frame, run: seq<seq<Byte>>, k: nat, s: FrameSlot, i: nat, t: FrameSlot)
    requires Cut(f) && k < |run| && IsChunk(f, run[k], i) && Filling(f, run, k, s) && !s.packetMap[i]
    requires Begin(f, i) + |Chunk(f, i)| <= |s.data| && t == Placed(s, ChunkPacket(f, i), Begin(f, i))
    ensures Filling(f, run, k + 1, t.(isComplete := t.packetsReceived == f.total))
  {
    StoredAfter(f, s, i, t);
    var u := t.(isComplete := t.packetsReceived == f.total);
    forall n | 0 <= n < f.total && u.packetMap[n]
      ensures Stored(f, u, n)
    {
      assert Stored(f, t, n);
    }
    assert i < f.total && t.packetMap == s.packetMap[i := true];
    hide Placed, IsChunk, Arrived, Stored, Count;
    ArrivedNext(f, run, k, i);
  }

  lemma NewChunkCompletes(f: Frame, run: seq<seq<Byte>>, k: nat, s: FrameSlot, i: nat, t: FrameSlot)
    requires Cut(f) && k < |run| && IsChunk(f, run[k], i) && Filling(f, run, k, s) && !s.packetMap[i]
    requires Begin(f, i) + |Chunk(f, i)| <= |s.data| && t == Placed(s, ChunkPacket(f, i), Begin(f, i))
    ensures !s.isComplete && (t.packetsReceived == f.total <==> Completes(f, run, k))
    ensures t.packetsReceived == f.total ==> t.data[..t.actualSize] == f.bytes
  {
    StoredAfter(f, s, i, t);
    NewChunkKeeps(f, run, k, s, i, t);
    assert i < f.total && Belongs(f, run[k]);
    hide Placed, ChunkPacket, IsChunk, Belongs, Arrived, AllArrived, Stored, Count;
    CountTellsArrival(f, run, k, s.packetMap);
    CountTellsArrival(f, run, k + 1, t.packetMap);
    CountAll(s.packetMap);
    if t.packetsReceived == f.total {
      CountAll(t.packetMap);
      FullSlotHoldsFrame(f, t);
    }
  }

  lemma StoredAfter(f: Frame, s: FrameSlot, i: nat, t: FrameSlot)
    requires Cut(f) && i < f.total && SlotValid(s) && s.totalExpected == f.total
    requires f.stride * f.total <= |s.data| && !s.packetMap[i] && s.actualSize <= |f.bytes|
    requires forall n :: 0 <= n < f.total && s.packetMap[n] ==> Stored(f, s, n)
    requires Begin(f, i) + |Chunk(f, i)| <= |s.data| && t == Placed(s, ChunkPacket(f, i), Begin(f, i))
    ensures t.actualSize <= |f.bytes| && |t.data| == |s.data|
    ensures forall n :: 0 <= n < f.total && t.packetMap[n] ==> Stored(f, t, n)
  {
    ChunkBounds(f, i);
    forall n | 0 <= n < f.total && t.packetMap[n]
      ensures Stored(f, t, n)
    {
      PlacedKeepsStored(f, s, i, n);
    }
  }

  /** One more chunk: the invariant holds after it, and the frame comes out exactly when the chunk
      was the last one missing. */
  lemma ChunkStep(f: Frame, run: seq<seq<Byte>>, k: nat, s: FrameSlot, i: nat)
    requires Cut(f) && k < |run| && IsChunk(f, run[k], i) && Filling(f, run, k, s)
    ensures var (t, out) := SlotStep(s, ChunkPacket(f, i));
            && Filling(f, run, k + 1, t)
            && out == if Completes(f, run, k) then Some(f.bytes) else None
  {
    if s.packetMap[i] {
      DuplicateStep(f, run, k, s, i);
    } else {
      PlacedKeepsStored(f, s, i, i);
      var t := Placed(s, ChunkPacket(f, i), Begin(f, i));
      NewChunkKeeps(f, run, k, s, i, t);
      NewChunkCompletes(f, run, k, s, i, t);
    }
  }

  /** What the slot of `f` holds after `k` datagrams: the frame so far, or another sequence while no
      chunk of `f` has come. */
  ghost predicate Along(f: Frame, run: seq<seq<Byte>>, k: nat, s: FrameSlot)
    requires Cut(f) && k <= |run|
  {
    if exists j :: 0 <= j < k && Belongs(f, run[j]) then Filling(f, run, k, s)
    else SlotValid(s) && s.sequence != f.sequence
  }

  lemma {:induction false} SlotAlong(os: Platform, f: Frame, init: seq<FrameSlot>, run: seq<seq<Byte>>, k: nat)
    requires Cut(f) && Fits(f) && SlotsValid(init) && Undisturbed(f, run) && k <= |run|
    requires init[f.sequence % SLOT_COUNT].sequence != f.sequence
    ensures Along(f, run, k, After(os, init, run, k)[f.sequence % SLOT_COUNT])
  {
    if k > 0 {
      hide Along, Step, SlotsValid, SlotStep, Belongs, Harmless;
      SlotAlong(os, f, init, run, k - 1);
      if Belongs(f, run[k - 1]) {
        ArrivalStep(os, f, init, run, k - 1);
      } else {
        HarmlessStep(os, f, After(os, init, run, k - 1), run[k - 1]);
        AlongStays(f, run, k - 1, After(os, init, run, k - 1)[f.sequence % SLOT_COUNT]);
      }
    } else {
      hide Belongs, Filling, After;
      FirstSlots(os, init, run);
    }
  }

  lemma FirstSlots(os: Platform, init: seq<FrameSlot>, run: seq<seq<Byte>>)
    requires SlotsValid(init)
    ensures After(os, init, run, 0) == init
  {
  }

  lemma AlongStays(f: Frame, run: seq<seq<Byte>>, k: nat, s: FrameSlot)
    requires Cut(f) && k < |run| && Along(f, run, k, s) && !Belongs(f, run[k])
    ensures Along(f, run, k + 1, s)
  {
    if exists j :: 0 <= j < k && Belongs(f, run[j]) {
      FillingStays(f, run, k, s);
    }
  }

  lemma FillingStays(f: Frame, run: seq<seq<Byte>>, k: nat, s: FrameSlot)
    requires Cut(f) && k < |run| && Filling(f, run, k, s) && !Belongs(f, run[k])
    ensures Filling(f, run, k + 1, s)
  {
    hide Stored, SlotValid;
    forall i | 0 <= i < f.total
      ensures Arrived(f, run, k + 1, i) <==> Arrived(f, run, k, i)
    {
    }
  }

  lemma ArrivalStep(os: Platform, f: Frame, init: seq<FrameSlot>, run: seq<seq<Byte>>, k: nat)
    requires Cut(f) && Fits(f) && SlotsValid(init) && k < |run| && Belongs(f, run[k])
    requires Along(f, run, k, After(os, init, run, k)[f.sequence % SLOT_COUNT])
    ensures Along(f, run, k + 1, After(os, init, run, k + 1)[f.sequence % SLOT_COUNT])
    ensures Output(os, init, run, k) == if Completes(f, run, k) then Some(f.bytes) else None
  {
    hide Along, Step, SlotStep, Completes, Belongs;
    var i := IndexOf(f, run[k]);
    var slots := After(os, init, run, k);
    ChunkDatagramStep(os, f, slots, run[k], i);
    AlongChunk(f, run, k, slots[f.sequence % SLOT_COUNT], i);
  }

  /** The slot alone, when a chunk of its frame comes. */
  lemma AlongChunk(f: Frame, run: seq<seq<Byte>>, k: nat, s: FrameSlot, i: nat)
    requires Cut(f) && k < |run| && SlotValid(s) && IsChunk(f, run[k], i) && Along(f, run, k, s)
    ensures var (t, out) := SlotStep(s, ChunkPacket(f, i));
            && Along(f, run, k + 1, t)
            && out == if Completes(f, run, k) then Some(f.bytes) else None
  {
    assert i < f.total;
    hide SlotStep, Enter, Filling, Completes, SlotValid, IsChunk;
    var p := ChunkPacket(f, i);
    assert Belongs(f, run[k]);
    if exists j :: 0 <= j < k && Belongs(f, run[j]) {
      ChunkStep(f, run, k, s, i);
    } else {
      Entering(f, run, k, s, p);
      EnterStep(s, p);
      ChunkStep(f, run, k, Enter(s, p), i);
    }
  }

  lemma IndexOf(f: Frame, d: seq<Byte>) returns (i: nat)
    requires Cut(f) && Belongs(f, d)
    ensures IsChunk(f, d, i)
  {
    i :| IsChunk(f, d, i);
  }

  lemma HarmlessStep(os: Platform, f: Frame, slots: seq<FrameSlot>, d: seq<Byte>)
    requires SlotsValid(slots) && Harmless(f, d)
    ensures Step(os, slots, d).0[f.sequence % SLOT_COUNT] == slots[f.sequence % SLOT_COUNT]
  {
    hide SlotStep, Parse, Received;
    ReceivedHeader(os, d);
  }

  lemma ChunkDatagramStep(os: Platform, f: Frame, slots: seq<FrameSlot>, d: seq<Byte>, i: nat)
    requires Cut(f) && Fits(f) && SlotsValid(slots) && IsChunk(f, d, i)
    ensures var j := f.sequence % SLOT_COUNT;
            var (s, frame) := SlotStep(slots[j], ChunkPacket(f, i));
            Step(os, slots, d) == (slots[j := s], frame)
  {
    hide SlotStep, Parse, Received;
    ChunkReceived(os, f, d, i);
  }

  // ----- Main results -----

  /** Interleaved reassembly. Whatever the order, the duplicates and the traffic of other slots, the
      k-th datagram of the stretch, if it is a chunk of `f`, makes the receiver return `f` exactly
      when it is the one with the last missing index, and then it returns the original bytes. */
  lemma FrameDelivered(os: Platform, f: Frame, init: seq<FrameSlot>, run: seq<seq<Byte>>, k: nat)
    requires Cut(f) && Fits(f) && SlotsValid(init) && Undisturbed(f, run) && k < |run| && Belongs(f, run[k])
    requires init[f.sequence % SLOT_COUNT].sequence != f.sequence
    ensures Output(os, init, run, k) == if Completes(f, run, k) then Some(f.bytes) else None
  {
    SlotAlong(os, f, init, run, k);
    ArrivalStep(os, f, init, run, k);
  }

  lemma {:induction false} AllArrivedStays(f: Frame, run: seq<seq<Byte>>, k: nat, m: nat)
    requires Cut(f) && k <= m <= |run| && AllArrived(f, run, k)
    ensures AllArrived(f, run, m)
  {
    forall i | 0 <= i < f.total
      ensures Arrived(f, run, m, i)
    {
      assert Arrived(f, run, k, i);
    }
  }

  lemma CompletesAtMostOnce(f: Frame, run: seq<seq<Byte>>, k: nat, n: nat)
    requires Cut(f) && k < n < |run| && Completes(f, run, k)
    ensures !Completes(f, run, n)
  {
    AllArrivedStays(f, run, k + 1, n);
  }

  /** If every index arrives, exactly one step completes the frame. */
  lemma {:induction false} CompletesOnce(f: Frame, run: seq<seq<Byte>>, m: nat) returns (k: nat)
    requires Cut(f) && m <= |run| && AllArrived(f, run, m)
    ensures k < m && Completes(f, run, k)
    ensures forall n :: 0 <= n < |run| && Completes(f, run, n) ==> n == k
  {
    assert Arrived(f, run, m, 0);
    if AllArrived(f, run, m - 1) {
      k := CompletesOnce(f, run, m - 1);
    } else {
      k := m - 1;
      LastMissing(f, run, k);
      hide *;
      forall n | 0 <= n < |run| && Completes(f, run, n)
        ensures n == k
      {
        if n < k { CompletesAtMostOnce(f, run, n, k); }
        if n > k { CompletesAtMostOnce(f, run, k, n); }
      }
    }
  }

  lemma LastMissing(f: Frame, run: seq<seq<Byte>>, k: nat)
    requires Cut(f) && k < |run| && !AllArrived(f, run, k) && AllArrived(f, run, k + 1)
    ensures Completes(f, run, k)
  {
    var i :| 0 <= i < f.total && !Arrived(f, run, k, i);
    assert Arrived(f, run, k + 1, i);
    assert IsChunk(f, run[k], i);
  }

  /** The sentinel of `Start` is a real sequence number: a frame that carries it is dropped whole by
      a fresh receiver. For every other sequence number `FrameDelivered` applies from the start. */
  lemma {:induction false} SentinelFrameLost(os: Platform, f: Frame, run: seq<seq<Byte>>, k: nat)
    requires Cut(f) && Undisturbed(f, run) && k < |run| && Belongs(f, run[k])
    ensures f.sequence == 0xFFFF_FFFF ==> Output(os, FreshSlots(), run, k) == None
    ensures f.sequence != 0xFFFF_FFFF && Fits(f) ==>
              Output(os, FreshSlots(), run, k) == if Completes(f, run, k) then Some(f.bytes) else None
  {
    if f.sequence == 0xFFFF_FFFF {
      SentinelSlotStays(os, f, run, k);
      SentinelStep(os, f, After(os, FreshSlots(), run, k), run[k]);
    } else if Fits(f) {
      FrameDelivered(os, f, FreshSlots(), run, k);
    }
  }

  lemma {:induction false} SentinelSlotStays(os: Platform, f: Frame, run: seq<seq<Byte>>, k: nat)
    requires Cut(f) && Undisturbed(f, run) && k <= |run| && f.sequence == 0xFFFF_FFFF
    ensures After(os, FreshSlots(), run, k)[f.sequence % SLOT_COUNT] == EmptySlot()
  {
    hide Step;
    if k > 0 {
      SentinelSlotStays(os, f, run, k - 1);
      if Belongs(f, run[k - 1]) {
        SentinelStep(os, f, After(os, FreshSlots(), run, k - 1), run[k - 1]);
      } else {
        HarmlessStep(os, f, After(os, FreshSlots(), run, k - 1), run[k - 1]);
      }
    }
  }

  lemma SentinelStep(os: Platform, f: Frame, slots: seq<FrameSlot>, d: seq<Byte>)
    requires Cut(f) && f.sequence == 0xFFFF_FFFF && SlotsValid(slots) && Belongs(f, d)
    requires slots[f.sequence % SLOT_COUNT] == EmptySlot()
    ensures Step(os, slots, d).0[f.sequence % SLOT_COUNT] == EmptySlot() && Step(os, slots, d).1 == None
  {
    hide Received, Parse;
    ReceivedHeader(os, d);
  }

  // ----- The sender -----

  const MAX_DATA_SIZE := 1400

  function ChunkCount(size: nat): (n: nat)
    ensures (n - 1) * 1400 < size <= n * 1400 || n == size == 0
    ensures n <= size
  {
    (size + MAX_DATA_SIZE - 1) / MAX_DATA_SIZE
  }

  function SentFrame(jpegData: seq<Byte>, sequenceNumber: Word32): Frame
  {
    Frame(sequenceNumber, ChunkCount(|jpegData|), MAX_DATA_SIZE, jpegData)
  }

  lemma SentFrameCut(jpegData: seq<Byte>, sequenceNumber: Word32)
    ensures 0 < |jpegData| <= 10000 * 1400 <==> Cut(SentFrame(jpegData, sequenceNumber))
  {
  }

  predicate Sendable(jpegData: seq<Byte>) { |jpegData| + MAX_DATA_SIZE - 1 < 0x8000_0000 }

  function SentPacket(f: Frame, i: nat): Packet
    requires Sendable(f.bytes) && i < f.total && f == SentFrame(f.bytes, f.sequence)
  {
    var (begin, end) := (i * MAX_DATA_SIZE, (i + 1) * MAX_DATA_SIZE);
    Packet(f.sequence, f.total, i, MAX_DATA_SIZE, f.bytes[begin..if end < |f.bytes| then end else |f.bytes|])
  }

  ghost predicate SentAs(f: Frame, d: seq<Byte>, i: nat)
  {
    if Cut(f) then IsChunk(f, d, i) else Harmless(f, d)
  }

  lemma SentDatagram(f: Frame, i: nat)
    requires Sendable(f.bytes) && i < f.total && f == SentFrame(f.bytes, f.sequence)
    ensures SentAs(f, Serialize(SentPacket(f, i)), i)
  {
    SentFrameCut(f.bytes, f.sequence);
    ParseSerialize(SentPacket(f, i));
  }

  function Datagrams(f: Frame, k: nat): (sent: seq<seq<Byte>>)
    requires Sendable(f.bytes) && k <= f.total && f == SentFrame(f.bytes, f.sequence)
    ensures |sent| == k
  {
    if k == 0 then [] else Datagrams(f, k - 1) + [Serialize(SentPacket(f, k - 1))]
  }

  /** The datagrams of one frame are its chunks in order, or, for a frame beyond the receiver's limit,
      datagrams the receiver drops. An empty frame sends nothing. */
  lemma {:induction false} DatagramIsChunk(f: Frame, k: nat, i: nat)
    requires Sendable(f.bytes) && i < k <= f.total && f == SentFrame(f.bytes, f.sequence)
    ensures SentAs(f, Datagrams(f, k)[i], i)
  {
    hide SentAs, SentPacket, Serialize, ChunkCount;
    if i == k - 1 {
      SentDatagram(f, i);
    } else {
      DatagramIsChunk(f, k - 1, i);
    }
  }

  method SendFrame(jpegData: seq<Byte>, sequenceNumber: Word32) returns (sent: seq<seq<Byte>>)
    requires Sendable(jpegData)
    ensures var f := SentFrame(jpegData, sequenceNumber);
            sent == Datagrams(f, f.total)
  {
    ghost var f := SentFrame(jpegData, sequenceNumber);
    var totalPackets := ChunkCount(|jpegData|);
    hide ChunkCount, Serialize, SentPacket;
    sent := [];
    for i := 0 to totalPackets
      invariant sent == Datagrams(f, i)
    {
      var d := Datagram(jpegData, sequenceNumber, totalPackets, i);
      sent := sent + [d];
    }
  }

  method Datagram(jpegData: seq<Byte>, sequenceNumber: Word32, totalPackets: Word32, i: nat) returns (d: seq<Byte>)
    requires Sendable(jpegData) && i < totalPackets == SentFrame(jpegData, sequenceNumber).total
    ensures d == Serialize(SentPacket(SentFrame(jpegData, sequenceNumber), i))
  {
    hide ChunkCount, Serialize;
    assert (i + 1) * 1400 <= totalPackets * 1400;
    var offset := i * MAX_DATA_SIZE;
    var dataLen := if |jpegData| - offset < MAX_DATA_SIZE then |jpegData| - offset else MAX_DATA_SIZE;
    var p := Packet(sequenceNumber, totalPackets, i, MAX_DATA_SIZE, jpegData[offset..offset + dataLen]);
    d := Serialize(p);
  }

  /** End to end: when all datagrams `SendFrame` made get through, in any order, repeated or not, one
      step of the receiver returns the original frame and no other step returns anything for it. */
  lemma SentFrameDelivered(os: Platform, jpegData: seq<Byte>, sequenceNumber: Word32, init: seq<FrameSlot>, run: seq<seq<Byte>>)
    returns (k: nat)
    requires 0 < |jpegData| <= 10000 * 1400
    requires SlotsValid(init) && init[sequenceNumber % SLOT_COUNT].sequence != sequenceNumber
    requires var f := SentFrame(jpegData, sequenceNumber);
             Undisturbed(f, run) && forall d :: d in Datagrams(f, f.total) ==> d in run
    ensures k < |run| && Output(os, init, run, k) == Some(jpegData)
    ensures forall n :: 0 <= n < |run| && n != k && Belongs(SentFrame(jpegData, sequenceNumber), run[n]) ==>
                          Output(os, init, run, n) == None
  {
    var f := SentFrame(jpegData, sequenceNumber);
    SentFrameCut(jpegData, sequenceNumber);
    assert Fits(f);
    forall i | 0 <= i < f.total
      ensures Arrived(f, run, |run|, i)
    {
      var d := Datagrams(f, f.total)[i];
      DatagramIsChunk(f, f.total, i);
      assert SentAs(f, d, i) && d in run;
      var j :| 0 <= j < |run| && run[j] == d;
      assert IsChunk(f, run[j], i);
    }
    DeliveredOnce(os, f, init, run);
    k :| 0 <= k < |run| && Output(os, init, run, k) == Some(jpegData)
      && forall n :: 0 <= n < |run| && n != k && Belongs(f, run[n]) ==> Output(os, init, run, n) == None;
  }

  /** Exactly-once delivery of any cut frame all of whose chunks arrive. */
  lemma DeliveredOnce(os: Platform, f: Frame, init: seq<FrameSlot>, run: seq<seq<Byte>>)
    requires Cut(f) && Fits(f) && SlotsValid(init) && init[f.sequence % SLOT_COUNT].sequence != f.sequence
    requires Undisturbed(f, run) && AllArrived(f, run, |run|)
    ensures exists k :: 0 <= k < |run| && Output(os, init, run, k) == Some(f.bytes)
              && forall n :: 0 <= n < |run| && n != k && Belongs(f, run[n]) ==> Output(os, init, run, n) == None
  {
    var k := CompletesOnce(f, run, |run|);
    FrameDelivered(os, f, init, run, k);
    forall n | 0 <= n < |run| && n != k && Belongs(f, run[n])
      ensures Output(os, init, run, n) == None
    {
      FrameDelivered(os, f, init, run, n);
    }
    assert Output(os, init, run, k) == Some(f.bytes);
  }
}
