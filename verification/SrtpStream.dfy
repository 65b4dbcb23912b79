/** Streams of an SRTP session as srtp.c allocates them, and the memory they own. */
module SrtpStream {
  import opened Bytes
  import opened ReplayWindow

  /** The name of one allocation. */
  type Ptr = nat

  type Ssrc = Word32

  /** The allocator.  An allocation can be released only while it is live. */
  class Heap {
    var live: set<Ptr>
    var next: Ptr
    var freed: multiset<Ptr>

    /** Every allocation so far is either live or was released exactly once. */
    ghost predicate Valid()
      reads this
    {
      (forall p :: p in live ==> p < next)
      && (forall p: Ptr :: freed[p] == if p < next && p !in live then 1 else 0)
    }

    constructor ()
      ensures Valid() && live == {} && next == 0
    {
      live, next, freed := {}, 0, multiset{};
    }

    method Alloc() returns (p: Ptr)
      requires Valid()
      modifies this
      ensures Valid() && p == old(next) && next == p + 1 && p !in old(live) && live == old(live) + {p}
    {
      p := next;
      live, next := live + {p}, next + 1;
    }

    method Free(p: Ptr)
      requires Valid() && p in live
      modifies this
      ensures Valid() && live == old(live) - {p} && next == old(next)
    {
      live, freed := live - {p}, freed + multiset{p};
    }
  }

  datatype Direction = Unknown | Sender | Receiver

  /** srtp_session_keys_t: the objects one master key needs. */
  datatype KeySet = KeySet(rtpCipher: Ptr, rtpAuth: Ptr, xtnCipher: Option<Ptr>, rtcpCipher: Ptr, rtcpAuth: Ptr,
                           mkiId: Option<Ptr>, limit: Ptr)

  /** What a policy sets and a clone copies. */
  datatype Settings = Settings(useMki: bool, mkiSize: nat, window: nat, useCryptex: bool, allowRepeatTx: bool,
                               rtpServices: nat, rtcpServices: nat)

  /** srtp_stream_ctx_t.  `id` is the stream's own allocation, `rdbxBits` that of the replay window once the
      stream is initialised; `rdbx` and `rtcpRdb` are its replay state. */
  datatype Stream = Stream(id: Ptr, ssrc: Ssrc, keyBlock: Ptr, keys: seq<KeySet>, encXtn: Option<Ptr>,
                           rdbxBits: Option<Ptr>, rdbx: Window, rtcpRdb: nat, pendingRoc: nat, direction: Direction,
                           settings: Settings)

  // ----- What srtp_stream_dealloc releases -----

  function Own(p: Ptr, shared: bool): seq<Ptr> { if shared then [] else [p] }

  function OwnOption(p: Option<Ptr>, shared: bool): seq<Ptr> { if shared || p.None? then [] else [p.value] }

  /** The allocations of one key set that are not those of the template's. */
  function KeySetToFree(k: KeySet, t: Option<KeySet>): seq<Ptr>
  {
    Own(k.rtpCipher, t.Some? && k.rtpCipher == t.value.rtpCipher)
    + Own(k.rtpAuth, t.Some? && k.rtpAuth == t.value.rtpAuth)
    + OwnOption(k.xtnCipher, t.Some? && k.xtnCipher == t.value.xtnCipher)
    + Own(k.rtcpCipher, t.Some? && k.rtcpCipher == t.value.rtcpCipher)
    + Own(k.rtcpAuth, t.Some? && k.rtcpAuth == t.value.rtcpAuth)
    + OwnOption(k.mkiId, false)
    + Own(k.limit, t.Some? && k.limit == t.value.limit)
  }

  /** The template's key set to compare with, if the numbers of keys agree. */
  function TemplateKeys(s: Stream, t: Option<Stream>, i: nat): Option<KeySet>
    requires i < |s.keys|
  {
    if t.Some? && |t.value.keys| == |s.keys| then Some(t.value.keys[i]) else None
  }

  function KeysToFree(s: Stream, t: Option<Stream>, i: nat): seq<Ptr>
    requires i <= |s.keys|
    decreases |s.keys| - i
  {
    if i == |s.keys| then [] else KeySetToFree(s.keys[i], TemplateKeys(s, t, i)) + KeysToFree(s, t, i + 1)
  }

  /** In the order of the source: the key sets, their block, the replay bits, the id list, the stream. */
  function ToFree(s: Stream, t: Option<Stream>): seq<Ptr>
  {
    KeysToFree(s, t, 0) + StreamParts(s, t)
  }

  /** What is left once the key sets are gone. */
  function StreamParts(s: Stream, t: Option<Stream>): seq<Ptr>
  {
    [s.keyBlock] + OwnOption(s.rdbxBits, false) + OwnOption(s.encXtn, t.Some? && s.encXtn == t.value.encXtn) + [s.id]
  }

  /** Everything a stream refers to. */
  function AllPtrs(s: Stream): seq<Ptr> { ToFree(s, None) }

  /** Everything that a list of streams owns beside the template. */
  function AllToFree(streams: seq<Stream>, t: Option<Stream>): seq<Ptr>
  {
    if streams == [] then [] else ToFree(streams[0], t) + AllToFree(streams[1..], t)
  }

  // ----- Releasing -----

  /** What is live once `ps` are released. */
  lemma ReleaseOne(live: set<Ptr>, p: Ptr)
    requires p in live
    ensures multiset(live - {p}) == multiset(live) - multiset{p}
  {
  }

  /** Exactly `ps`, each once, and nothing else went from `before` to `after`. */
  ghost predicate Released(before: set<Ptr>, ps: seq<Ptr>, after: set<Ptr>)
  {
    multiset(before) == multiset(after) + multiset(ps)
  }

  lemma NextReleased(before: set<Ptr>, live: set<Ptr>, ps: seq<Ptr>, i: nat)
    requires i < |ps| && Released(before, ps[..i], live) && multiset(ps) <= multiset(before)
    ensures ps[i] in live && Released(before, ps[..i + 1], live - {ps[i]})
  {
    var p := ps[i];
    assert ps[..i + 1] == ps[..i] + [p];
    assert ps == ps[..i + 1] + ps[i + 1..];
    assert multiset(ps)[p] >= multiset(ps[..i + 1])[p] == multiset(ps[..i])[p] + 1;
    assert multiset(live)[p] > 0;
    ReleaseOne(live, p);
  }

  method FreeAll(heap: Heap, ps: seq<Ptr>)
    requires heap.Valid() && multiset(ps) <= multiset(heap.live)
    modifies heap
    ensures heap.Valid() && heap.next == old(heap.next) && Released(old(heap.live), ps, heap.live)
  {
    hide Released;
    var i := 0;
    NothingReleased(heap.live, ps);
    while i < |ps|
      invariant 0 <= i <= |ps| && heap.Valid() && heap.next == old(heap.next)
      invariant Released(old(heap.live), ps[..i], heap.live)
    {
      NextReleased(old(heap.live), heap.live, ps, i);
      heap.Free(ps[i]);
      i := i + 1;
    }
    assert ps[..i] == ps;
  }

  lemma NothingReleased(live: set<Ptr>, ps: seq<Ptr>)
    ensures Released(live, ps[..0], live)
  {
    assert ps[..0] == [];
  }

  // ----- Allocating -----

  /** The allocator at some moment. */
  datatype Moment = Moment(live: set<Ptr>, next: Ptr)

  ghost function Now(heap: Heap): Moment
    reads heap
  {
    Moment(heap.live, heap.next)
  }

  /** Exactly the allocations `ps` were made between two moments, each once. */
  ghost predicate Made(before: Moment, ps: seq<Ptr>, after: Moment)
  {
    multiset(after.live) == multiset(before.live) + multiset(ps)
    && before.next <= after.next && forall p :: p in ps ==> before.next <= p < after.next
  }

  lemma NothingMade(now: Moment)
    ensures Made(now, [], now)
  {
  }

  lemma MadeReordered(before: Moment, ps: seq<Ptr>, qs: seq<Ptr>, after: Moment)
    requires Made(before, ps, after) && multiset(ps) == multiset(qs)
    ensures Made(before, qs, after)
  {
    forall p | p in qs ensures p in ps { assert multiset(qs)[p] > 0; }
  }

  lemma MadeOneMore(before: Moment, ps: seq<Ptr>, live: set<Ptr>, p: Ptr)
    requires Made(before, ps, Moment(live, p)) && p !in live
    ensures Made(before, ps + [p], Moment(live + {p}, p + 1))
  {
    forall q: Ptr ensures multiset(live + {p})[q] == multiset(before.live)[q] + multiset(ps + [p])[q] {
      assert multiset(live)[q] == multiset(before.live)[q] + multiset(ps)[q];
      assert multiset(live + {p})[q] == multiset(live)[q] + multiset([p])[q];
    }
  }

  /** One more allocation. */
  method AllocNext(heap: Heap, ghost before: Moment, ghost ps: seq<Ptr>) returns (p: Ptr)
    requires heap.Valid() && Made(before, ps, Now(heap))
    modifies heap
    ensures heap.Valid() && Made(before, ps + [p], Now(heap))
  {
    hide Made;
    MadeOneMore(before, ps, heap.live, heap.next);
    p := heap.Alloc();
  }

  method AllocIf(heap: Heap, wanted: bool, ghost before: Moment, ghost ps: seq<Ptr>) returns (p: Option<Ptr>)
    requires heap.Valid() && Made(before, ps, Now(heap))
    modifies heap
    ensures heap.Valid() && p.Some? == wanted && Made(before, ps + OwnOption(p, false), Now(heap))
  {
    hide Made;
    p := None;
    assert ps + [] == ps;
    if wanted {
      var q := AllocNext(heap, before, ps);
      p := Some(q);
    }
  }
}
