/** Allocating, cloning and releasing one stream (srtp_stream_alloc, srtp_stream_clone and srtp_stream_dealloc
    in srtp.c). */
module StreamMemory {
  import opened Bytes
  import opened SrtpStream
  import opened ReplayWindow

  const MAX_MASTER_KEYS := 16
  const MAX_MKI := 128

  datatype Target = Specific(ssrc: Ssrc) | AnyInbound | AnyOutbound | Undefined

  datatype Policy = Policy(target: Target, numKeys: nat, encryptsXtn: bool, settings: Settings)

  /** srtp_valid_policy: it does not look at the window. */
  predicate ValidPolicy(p: Policy)
  {
    0 < p.numKeys <= MAX_MASTER_KEYS
    && (if p.settings.useMki then 0 < p.settings.mkiSize <= MAX_MKI else p.settings.mkiSize == 0)
  }

  /** The window check of srtp_stream_init. */
  predicate WindowOk(p: Policy) { p.settings.window == 0 || 64 <= p.settings.window < 0x8000 }

  /** The limits in numbers: one to sixteen master keys, MKIs of up to 128 octets, and a replay window of 64 to
      32767 packets, or 0 for one of 128. Lengths are rounded up to whole words of 32 bits. */
  lemma PolicyLimits(p: Policy)
    ensures ValidPolicy(p) <==> 1 <= p.numKeys <= 16 && (if p.settings.useMki then 1 else 0) <= p.settings.mkiSize <= if p.settings.useMki then 128 else 0
    ensures WindowOk(p) <==> p.settings.window == 0 || 64 <= p.settings.window <= 32767
    ensures p.settings.window == 1024 ==> WindowOk(p) && WindowLength(p.settings.window) == 1024
    ensures WindowLength(0) == 128
    ensures p.settings.window > 0 ==>
              WindowLength(p.settings.window) % 32 == 0 && 0 <= WindowLength(p.settings.window) - p.settings.window < 32
  {
  }

  // ----- Releasing -----

  lemma ReleasedJoins(a: set<Ptr>, ps: seq<Ptr>, b: set<Ptr>, qs: seq<Ptr>, c: set<Ptr>)
    requires Released(a, ps, b) && Released(b, qs, c)
    ensures Released(a, ps + qs, c)
  {
  }

  lemma StillLive(a: set<Ptr>, done: seq<Ptr>, b: set<Ptr>, chunk: seq<Ptr>, rest: seq<Ptr>)
    requires Released(a, done, b) && multiset(done + chunk + rest) <= multiset(a)
    ensures multiset(chunk) <= multiset(b)
  {
    forall p ensures multiset(chunk)[p] <= multiset(b)[p] {
      assert multiset(a)[p] == multiset(b)[p] + multiset(done)[p];
      assert multiset(done + chunk + rest)[p] == multiset(done)[p] + multiset(chunk)[p] + multiset(rest)[p];
    }
  }

  /** After `done`, with `rest` to come, of what is to be released in all. */
  ghost predicate Releasing(live: set<Ptr>, done: seq<Ptr>, now: set<Ptr>, rest: seq<Ptr>, all: seq<Ptr>)
  {
    Released(live, done, now) && done + rest == all && multiset(all) <= multiset(live)
  }

  lemma ReleaseBegins(live: set<Ptr>, all: seq<Ptr>)
    requires multiset(all) <= multiset(live)
    ensures Releasing(live, [], live, all, all)
  {
    NothingReleased(live, []);
    assert [] + all == all;
  }

  lemma ReleaseGoesOn(live: set<Ptr>, done: seq<Ptr>, now: set<Ptr>, chunk: seq<Ptr>, rest: seq<Ptr>, all: seq<Ptr>)
    requires Releasing(live, done, now, chunk + rest, all)
    ensures multiset(chunk) <= multiset(now)
    ensures forall after :: Released(now, chunk, after) ==> Releasing(live, done + chunk, after, rest, all)
  {
    assert done + (chunk + rest) == done + chunk + rest;
    StillLive(live, done, now, chunk, rest);
    forall after | Released(now, chunk, after) ensures Releasing(live, done + chunk, after, rest, all) {
      ReleasedJoins(live, done, now, chunk, after);
    }
  }

  lemma KeysThenParts(s: Stream, t: Option<Stream>)
    ensures ToFree(s, t) == KeysToFree(s, t, 0) + StreamParts(s, t)
  {
  }

  lemma NextKeySet(s: Stream, t: Option<Stream>, i: nat)
    requires i < |s.keys|
    ensures KeysToFree(s, t, i) + StreamParts(s, t)
         == KeySetToFree(s.keys[i], TemplateKeys(s, t, i)) + (KeysToFree(s, t, i + 1) + StreamParts(s, t))
  {
    hide KeySetToFree, StreamParts, TemplateKeys;
  }

  /** srtp_stream_dealloc releases each allocation the stream does not share with the template, once. */
  method StreamDealloc(heap: Heap, s: Stream, t: Option<Stream>)
    requires heap.Valid() && multiset(ToFree(s, t)) <= multiset(heap.live)
    modifies heap
    ensures heap.Valid() && heap.next == old(heap.next) && Released(old(heap.live), ToFree(s, t), heap.live)
  {
    hide Released, Releasing, KeySetToFree, KeysToFree, StreamParts, ToFree, TemplateKeys;
    ghost var live, all := heap.live, ToFree(s, t);
    ghost var done: seq<Ptr> := [];
    KeysThenParts(s, t);
    ReleaseBegins(live, all);
    var i := 0;
    while i < |s.keys|
      invariant 0 <= i <= |s.keys| && heap.Valid() && heap.next == old(heap.next)
      invariant Releasing(live, done, heap.live, KeysToFree(s, t, i) + StreamParts(s, t), all)
    {
      var chunk := KeySetToFree(s.keys[i], TemplateKeys(s, t, i));
      NextKeySet(s, t, i);
      ReleaseGoesOn(live, done, heap.live, chunk, KeysToFree(s, t, i + 1) + StreamParts(s, t), all);
      FreeAll(heap, chunk);
      done := done + chunk;
      i := i + 1;
    }
    PartsAreLast(s, t);
    ReleaseGoesOn(live, done, heap.live, StreamParts(s, t), [], all);
    FreeAll(heap, StreamParts(s, t));
    ReleaseEnds(live, done + StreamParts(s, t), heap.live, all);
  }

  lemma PartsAreLast(s: Stream, t: Option<Stream>)
    ensures KeysToFree(s, t, |s.keys|) + StreamParts(s, t) == StreamParts(s, t) + []
  {
  }

  lemma ReleaseEnds(live: set<Ptr>, done: seq<Ptr>, now: set<Ptr>, all: seq<Ptr>)
    requires Releasing(live, done, now, [], all)
    ensures Released(live, all, now)
  {
    assert done + [] == done;
  }

  // ----- Allocating -----

  /** The ciphers, authentication functions and limit of one master key. */
  method AllocKeySet(heap: Heap, policy: Policy, ghost before: Moment, ghost ps: seq<Ptr>) returns (k: KeySet)
    requires heap.Valid() && Made(before, ps, Now(heap))
    modifies heap
    ensures heap.Valid() && Made(before, ps + KeySetToFree(k, None), Now(heap))
    ensures k.xtnCipher.Some? == policy.encryptsXtn && k.mkiId.None?
  {
    hide Made;
    var rtpCipher := AllocNext(heap, before, ps);
    ghost var made := ps + [rtpCipher];
    var rtpAuth := AllocNext(heap, before, made);
    made := made + [rtpAuth];
    var xtnCipher := AllocIf(heap, policy.encryptsXtn, before, made);
    made := made + OwnOption(xtnCipher, false);
    var rtcpCipher := AllocNext(heap, before, made);
    made := made + [rtcpCipher];
    var rtcpAuth := AllocNext(heap, before, made);
    made := made + [rtcpAuth];
    var limit := AllocNext(heap, before, made);
    k := KeySet(rtpCipher, rtpAuth, xtnCipher, rtcpCipher, rtcpAuth, None, limit);
    assert made + [limit] == ps + KeySetToFree(k, None);
  }

  function KeysOwned(keys: seq<KeySet>): seq<Ptr>
  {
    if keys == [] then [] else KeysOwned(keys[..|keys| - 1]) + KeySetToFree(keys[|keys| - 1], None)
  }

  lemma {:induction false} KeysOwnedFrom(s: Stream, i: nat)
    requires i <= |s.keys|
    ensures KeysOwned(s.keys[..i]) + KeysToFree(s, None, i) == KeysOwned(s.keys)
    decreases |s.keys| - i
  {
    hide KeySetToFree;
    if i < |s.keys| {
      var keys := s.keys[..i + 1];
      assert keys[..i] == s.keys[..i];
      KeysOwnedFrom(s, i + 1);
      var (a, b, c) := (KeysOwned(s.keys[..i]), KeySetToFree(s.keys[i], None), KeysToFree(s, None, i + 1));
      assert a + (b + c) == (a + b) + c;
    } else {
      assert s.keys[..i] == s.keys;
    }
  }

  lemma OwnsAllKeys(s: Stream)
    ensures AllPtrs(s) == KeysOwned(s.keys) + StreamParts(s, None)
  {
    hide KeySetToFree, KeysToFree, StreamParts, KeysOwned;
    KeysOwnedFrom(s, 0);
    NoKeys();
    assert s.keys[..0] == [] && [] + KeysToFree(s, None, 0) == KeysToFree(s, None, 0);
  }

  lemma NoKeys()
    ensures KeysOwned([]) == []
  {
  }

  predicate KeysAllocated(keys: seq<KeySet>, policy: Policy, withMki: bool)
  {
    forall i :: 0 <= i < |keys| ==> keys[i].xtnCipher.Some? == policy.encryptsXtn && keys[i].mkiId.Some? == withMki
  }

  method AllocKeys(heap: Heap, policy: Policy, ghost before: Moment, ghost ps: seq<Ptr>) returns (keys: seq<KeySet>)
    requires heap.Valid() && Made(before, ps, Now(heap))
    modifies heap
    ensures heap.Valid() && Made(before, ps + KeysOwned(keys), Now(heap))
    ensures |keys| == policy.numKeys && KeysAllocated(keys, policy, false)
  {
    hide Made, KeySetToFree;
    keys := [];
    assert ps + KeysOwned(keys) == ps;
    while |keys| < policy.numKeys
      invariant |keys| <= policy.numKeys && KeysAllocated(keys, policy, false)
      invariant heap.Valid() && Made(before, ps + KeysOwned(keys), Now(heap))
    {
      var k := AllocKeySet(heap, policy, before, ps + KeysOwned(keys));
      assert (keys + [k])[..|keys|] == keys;
      assert ps + KeysOwned(keys) + KeySetToFree(k, None) == ps + KeysOwned(keys + [k]);
      keys := keys + [k];
    }
  }

  /** srtp_stream_alloc: a stream that shares nothing, without MKIs and replay window. */
  method StreamAlloc(heap: Heap, policy: Policy) returns (s: Stream)
    requires heap.Valid() && ValidPolicy(policy)
    modifies heap
    ensures heap.Valid() && Made(old(Now(heap)), AllPtrs(s), Now(heap))
    ensures |s.keys| == policy.numKeys && KeysAllocated(s.keys, policy, false) && s.encXtn.Some? == policy.encryptsXtn
    ensures s.rdbxBits.None?
  {
    hide Made, KeySetToFree, KeysOwned, ToFree, AllPtrs, KeysAllocated;
    ghost var before := Now(heap);
    NothingMade(before);
    var id := AllocNext(heap, before, []);
    var keyBlock := AllocNext(heap, before, [] + [id]);
    ghost var ps := [] + [id] + [keyBlock];
    var keys := AllocKeys(heap, policy, before, ps);
    var encXtn := AllocIf(heap, policy.encryptsXtn, before, ps + KeysOwned(keys));
    s := Stream(id, 0, keyBlock, keys, encXtn, None, Cleared(0, 1), 0, 0, Unknown, policy.settings);
    BareOwns(s, ps);
    MadeReordered(before, ps + KeysOwned(keys) + OwnOption(encXtn, false), AllPtrs(s), Now(heap));
  }

  lemma BareOwns(s: Stream, ps: seq<Ptr>)
    requires s.rdbxBits.None? && ps == [] + [s.id] + [s.keyBlock]
    ensures multiset(ps + KeysOwned(s.keys) + OwnOption(s.encXtn, false)) == multiset(AllPtrs(s))
  {
    hide KeysOwned, ToFree, OwnOption;
    OwnsAllKeys(s);
    BareParts(s);
    SamePieces([s.id], [s.keyBlock], KeysOwned(s.keys), OwnOption(s.encXtn, false), []);
    assert [s.keyBlock] + [] == [s.keyBlock];
    var all := ps + KeysOwned(s.keys) + OwnOption(s.encXtn, false);
    assert all + [] == all;
    Regrouped(KeysOwned(s.keys), [s.keyBlock], OwnOption(s.encXtn, false), [s.id]);
  }

  lemma BareParts(s: Stream)
    requires s.rdbxBits.None?
    ensures StreamParts(s, None) == [s.keyBlock] + OwnOption(s.encXtn, false) + [s.id]
  {
    assert [s.keyBlock] + [] == [s.keyBlock];
  }

  lemma Regrouped(a: seq<Ptr>, b: seq<Ptr>, c: seq<Ptr>, d: seq<Ptr>)
    ensures a + (b + c + d) == a + b + c + d
  {
  }

  lemma SamePieces(id: seq<Ptr>, block: seq<Ptr>, keys: seq<Ptr>, enc: seq<Ptr>, bits: seq<Ptr>)
    ensures multiset([] + id + block + keys + enc + bits) == multiset(keys + (block + bits) + enc + id)
  {
  }

  /** The length of the replay window. */
  function WindowLength(window: nat): (n: nat)
    ensures n > 0
  {
    Rounded(if window == 0 then DEFAULT_WINDOW else window)
  }

  /** What initialisation makes of a stream's fields that are not pointers. */
  predicate Initialised(s: Stream, policy: Policy, ssrc: Ssrc)
  {
    && s.ssrc == ssrc && s.rdbx == Cleared(0, WindowLength(policy.settings.window)) && s.rtcpRdb == 0 && s.pendingRoc == 0
    && s.direction == Unknown && s.settings == policy.settings && s.rdbxBits.Some?
  }

  /** srtp_stream_init: refuses a bad window and then leaves the stream as it was; else the replay window and
      the MKIs are allocated. */
  method StreamInit(heap: Heap, s: Stream, policy: Policy, ssrc: Ssrc, ghost before: Moment) returns (ok: bool, t: Stream)
    requires heap.Valid() && Made(before, AllPtrs(s), Now(heap)) && s.rdbxBits.None? && KeysAllocated(s.keys, policy, false)
    modifies heap
    ensures heap.Valid() && Made(before, AllPtrs(t), Now(heap)) && ok == WindowOk(policy)
    ensures !ok ==> t == s && Now(heap) == old(Now(heap))
    ensures ok ==> Initialised(t, policy, ssrc) && |t.keys| == |s.keys| && KeysAllocated(t.keys, policy, policy.settings.useMki)
    ensures ok ==> t.encXtn == s.encXtn && t.id == s.id
  {
    hide Made, KeySetToFree, KeysOwned, ToFree, AllPtrs, StreamParts;
    if !WindowOk(policy) { return false, s; }
    ghost var ps := AllPtrs(s);
    var bits := AllocNext(heap, before, ps);
    var keys := InitKeys(heap, s.keys, policy, before, ps + [bits]);
    t := Stream(s.id, ssrc, s.keyBlock, keys, s.encXtn, Some(bits), Cleared(0, WindowLength(policy.settings.window)), 0, 0,
                Unknown, policy.settings);
    InitOwns(s, t, bits);
    MadeReordered(before, ps + [bits] + MkisOwned(keys), AllPtrs(t), Now(heap));
    ok := true;
  }

  /** srtp_stream_init_all_master_keys: every key set gets its MKI. */
  method InitKeys(heap: Heap, bare: seq<KeySet>, policy: Policy, ghost before: Moment, ghost ps: seq<Ptr>)
      returns (keys: seq<KeySet>)
    requires heap.Valid() && Made(before, ps, Now(heap)) && KeysAllocated(bare, policy, false)
    modifies heap
    ensures heap.Valid() && Made(before, ps + MkisOwned(keys), Now(heap))
    ensures |keys| == |bare| && KeysAllocated(keys, policy, policy.settings.useMki)
    ensures forall i :: 0 <= i < |keys| ==> keys[i] == bare[i].(mkiId := keys[i].mkiId)
  {
    hide Made, OwnOption;
    keys := [];
    assert ps + MkisOwned(keys) == ps;
    while |keys| < |bare|
      invariant |keys| <= |bare| && heap.Valid() && Made(before, ps + MkisOwned(keys), Now(heap))
      invariant KeysAllocated(keys, policy, policy.settings.useMki)
      invariant forall i :: 0 <= i < |keys| ==> keys[i] == bare[i].(mkiId := keys[i].mkiId)
    {
      var mkiId := AllocIf(heap, policy.settings.useMki, before, ps + MkisOwned(keys));
      var k := bare[|keys|].(mkiId := mkiId);
      assert (keys + [k])[..|keys|] == keys;
      assert ps + MkisOwned(keys) + OwnOption(mkiId, false) == ps + MkisOwned(keys + [k]);
      keys := keys + [k];
    }
  }

  /** MKIs come on top of what key sets own. */
  lemma {:induction false} InitKeysOwn(bare: seq<KeySet>, keys: seq<KeySet>)
    requires |keys| == |bare| && forall i :: 0 <= i < |keys| ==> bare[i].mkiId.None? && keys[i] == bare[i].(mkiId := keys[i].mkiId)
    ensures multiset(KeysOwned(keys)) == multiset(KeysOwned(bare)) + multiset(MkisOwned(keys))
  {
    hide KeySetToFree, OwnOption;
    if keys != [] {
      var n := |keys| - 1;
      InitKeysOwn(bare[..n], keys[..n]);
      InitKeyOwns(bare[n], keys[n]);
    }
  }

  lemma InitKeyOwns(bare: KeySet, k: KeySet)
    requires bare.mkiId.None? && k == bare.(mkiId := k.mkiId)
    ensures multiset(KeySetToFree(k, None)) == multiset(KeySetToFree(bare, None)) + multiset(OwnOption(k.mkiId, false))
  {
    var front := Own(k.rtpCipher, false) + Own(k.rtpAuth, false) + OwnOption(k.xtnCipher, false) + Own(k.rtcpCipher, false)
                 + Own(k.rtcpAuth, false);
    assert KeySetToFree(bare, None) == front + [] + Own(k.limit, false);
    assert KeySetToFree(k, None) == front + OwnOption(k.mkiId, false) + Own(k.limit, false);
    hide KeySetToFree;
    assert front + [] == front;
  }

  lemma InitOwns(s: Stream, t: Stream, bits: Ptr)
    requires |t.keys| == |s.keys|
    requires forall i :: 0 <= i < |s.keys| ==> s.keys[i].mkiId.None? && t.keys[i] == s.keys[i].(mkiId := t.keys[i].mkiId)
    requires s.rdbxBits.None? && t.rdbxBits == Some(bits) && t.id == s.id && t.keyBlock == s.keyBlock && t.encXtn == s.encXtn
    ensures multiset(AllPtrs(s) + [bits] + MkisOwned(t.keys)) == multiset(AllPtrs(t))
  {
    hide KeysOwned, MkisOwned, AllPtrs;
    OwnsAllKeys(s);
    OwnsAllKeys(t);
    InitKeysOwn(s.keys, t.keys);
    PartsWithBits(s, t, bits);
  }

  lemma PartsWithBits(s: Stream, t: Stream, bits: Ptr)
    requires s.rdbxBits.None? && t.rdbxBits == Some(bits) && t.id == s.id && t.keyBlock == s.keyBlock && t.encXtn == s.encXtn
    ensures multiset(StreamParts(t, None)) == multiset(StreamParts(s, None)) + multiset([bits])
  {
    hide OwnOption;
    BareParts(s);
    OneBit(bits);
    InsertOne([s.keyBlock], [bits], OwnOption(s.encXtn, false), [s.id]);
  }

  lemma InsertOne(a: seq<Ptr>, b: seq<Ptr>, c: seq<Ptr>, d: seq<Ptr>)
    ensures multiset(a + b + c + d) == multiset(a + c + d) + multiset(b)
  {
    forall p: Ptr ensures multiset(a + b + c + d)[p] == multiset(a + c + d)[p] + multiset(b)[p] {
      assert multiset(a + b + c + d)[p] == multiset(a)[p] + multiset(b)[p] + multiset(c)[p] + multiset(d)[p];
    }
  }

  lemma OneBit(bits: Ptr)
    ensures OwnOption(Some(bits), false) == [bits]
  {
  }

  // ----- Cloning a template -----

  /** A key set that shares everything but the MKI with the template's. */
  predicate SharesKeys(k: KeySet, t: KeySet) { k.(mkiId := t.mkiId) == t }

  /** A stream that uses the template's objects: its own are itself, its key block, MKIs and replay bits. */
  predicate CloneOf(s: Stream, t: Stream)
  {
    |s.keys| == |t.keys| && s.encXtn == t.encXtn && forall i :: 0 <= i < |s.keys| ==> SharesKeys(s.keys[i], t.keys[i])
  }

  /** A stream that shares nothing with the template. */
  predicate Apart(s: Stream, t: Stream)
  {
    forall p :: p in AllPtrs(s) ==> p !in AllPtrs(t)
  }

  /** The MKIs of a clone. */
  function MkisOwned(keys: seq<KeySet>): seq<Ptr>
  {
    if keys == [] then [] else MkisOwned(keys[..|keys| - 1]) + OwnOption(keys[|keys| - 1].mkiId, false)
  }

  lemma CloneKeySet(k: KeySet, t: KeySet)
    requires SharesKeys(k, t)
    ensures KeySetToFree(k, Some(t)) == OwnOption(k.mkiId, false)
  {
  }

  lemma {:induction false} CloneKeys(s: Stream, t: Stream, i: nat)
    requires CloneOf(s, t) && i <= |s.keys|
    ensures MkisOwned(s.keys[..i]) + KeysToFree(s, Some(t), i) == MkisOwned(s.keys)
    decreases |s.keys| - i
  {
    hide KeySetToFree, OwnOption;
    if i < |s.keys| {
      var keys := s.keys[..i + 1];
      assert keys[..i] == s.keys[..i];
      CloneKeys(s, t, i + 1);
      CloneKeySet(s.keys[i], t.keys[i]);
      var (a, b, c) := (MkisOwned(s.keys[..i]), OwnOption(s.keys[i].mkiId, false), KeysToFree(s, Some(t), i + 1));
      assert a + (b + c) == (a + b) + c;
    } else {
      assert s.keys[..i] == s.keys;
    }
  }

  /** What a clone owns. */
  lemma CloneOwns(s: Stream, t: Stream)
    requires CloneOf(s, t)
    ensures ToFree(s, Some(t)) == MkisOwned(s.keys) + ([s.keyBlock] + OwnOption(s.rdbxBits, false)) + [] + [s.id]
  {
    hide KeySetToFree, KeysToFree, MkisOwned;
    CloneKeys(s, t, 0);
    NoMkis();
    assert s.keys[..0] == [] && [] + KeysToFree(s, Some(t), 0) == KeysToFree(s, Some(t), 0);
  }

  lemma NoMkis()
    ensures MkisOwned([]) == []
  {
  }

  method CloneKeySets(heap: Heap, t: Stream, ghost before: Moment, ghost ps: seq<Ptr>) returns (keys: seq<KeySet>)
    requires heap.Valid() && Made(before, ps, Now(heap))
    modifies heap
    ensures heap.Valid() && Made(before, ps + MkisOwned(keys), Now(heap))
    ensures |keys| == |t.keys| && forall i :: 0 <= i < |keys| ==> SharesKeys(keys[i], t.keys[i])
    ensures forall i :: 0 <= i < |keys| ==> keys[i].mkiId.Some? == (t.settings.mkiSize > 0)
  {
    hide Made, OwnOption;
    keys := [];
    assert ps + MkisOwned(keys) == ps;
    while |keys| < |t.keys|
      invariant |keys| <= |t.keys| && heap.Valid() && Made(before, ps + MkisOwned(keys), Now(heap))
      invariant forall i :: 0 <= i < |keys| ==> SharesKeys(keys[i], t.keys[i])
      invariant forall i :: 0 <= i < |keys| ==> keys[i].mkiId.Some? == (t.settings.mkiSize > 0)
    {
      var mkiId := AllocIf(heap, t.settings.mkiSize > 0, before, ps + MkisOwned(keys));
      var k := t.keys[|keys|].(mkiId := mkiId);
      assert (keys + [k])[..|keys|] == keys;
      assert ps + MkisOwned(keys) + OwnOption(mkiId, false) == ps + MkisOwned(keys + [k]);
      keys := keys + [k];
    }
  }

  /** srtp_stream_clone: only the replay state, the SSRC and the MKI copies are the new stream's own. */
  method StreamClone(heap: Heap, t: Stream, ssrc: Ssrc) returns (s: Stream)
    requires heap.Valid()
    modifies heap
    ensures heap.Valid() && Made(old(Now(heap)), ToFree(s, Some(t)), Now(heap)) && CloneOf(s, t)
    ensures s.ssrc == ssrc && s.rdbx == Cleared(0, |t.rdbx.bits|) && s.rtcpRdb == 0 && s.pendingRoc == 0
    ensures s.direction == t.direction && s.settings == t.settings
  {
    hide Made, ToFree, OwnOption, MkisOwned;
    ghost var before := Now(heap);
    NothingMade(before);
    var id := AllocNext(heap, before, []);
    var keyBlock := AllocNext(heap, before, [] + [id]);
    ghost var ps := [] + [id] + [keyBlock];
    var keys := CloneKeySets(heap, t, before, ps);
    var bits := AllocNext(heap, before, ps + MkisOwned(keys));
    s := Stream(id, ssrc, keyBlock, keys, t.encXtn, Some(bits), Cleared(0, |t.rdbx.bits|), 0, 0, t.direction, t.settings);
    CloneOwns(s, t);
    SamePieces([id], [keyBlock], MkisOwned(keys), [], [bits]);
    assert ps + MkisOwned(keys) + [] + [bits] == ps + MkisOwned(keys) + [bits];
    OneBit(bits);
    MadeReordered(before, ps + MkisOwned(keys) + [bits], ToFree(s, Some(t)), Now(heap));
  }

  // ----- Sharing -----

  lemma KeySetApart(k: KeySet, t: KeySet)
    requires forall p :: p in KeySetToFree(k, None) ==> p !in KeySetToFree(t, None)
    ensures KeySetToFree(k, Some(t)) == KeySetToFree(k, None)
  {
    var mine, theirs := KeySetToFree(k, None), KeySetToFree(t, None);
    assert k.rtpCipher in mine && k.rtpAuth in mine && k.rtcpCipher in mine && k.rtcpAuth in mine && k.limit in mine;
    assert t.rtpCipher in theirs && t.rtpAuth in theirs && t.rtcpCipher in theirs && t.rtcpAuth in theirs && t.limit in theirs;
    assert k.xtnCipher.Some? ==> k.xtnCipher.value in mine;
    assert t.xtnCipher.Some? ==> t.xtnCipher.value in theirs;
  }

  lemma {:induction false} KeySetIn(s: Stream, i: nat, from: nat, p: Ptr)
    requires from <= i < |s.keys| && p in KeySetToFree(s.keys[i], None)
    ensures p in KeysToFree(s, None, from)
    decreases i - from
  {
    hide KeySetToFree;
    if from < i { KeySetIn(s, i, from + 1, p); }
  }

  lemma KeySetsApart(s: Stream, t: Stream, i: nat)
    requires Apart(s, t) && i < |s.keys| == |t.keys|
    ensures KeySetToFree(s.keys[i], Some(t.keys[i])) == KeySetToFree(s.keys[i], None)
  {
    hide KeySetToFree, KeysToFree;
    forall p | p in KeySetToFree(s.keys[i], None) ensures p !in KeySetToFree(t.keys[i], None) {
      KeySetIn(s, i, 0, p);
      assert p in AllPtrs(s);
      if p in KeySetToFree(t.keys[i], None) { KeySetIn(t, i, 0, p); }
    }
    KeySetApart(s.keys[i], t.keys[i]);
  }

  lemma {:induction false} KeysApart(s: Stream, t: Stream, i: nat)
    requires Apart(s, t) && i <= |s.keys|
    ensures KeysToFree(s, Some(t), i) == KeysToFree(s, None, i)
    decreases |s.keys| - i
  {
    hide KeySetToFree, Apart;
    if i < |s.keys| {
      KeysApart(s, t, i + 1);
      if |s.keys| == |t.keys| { KeySetsApart(s, t, i); }
    }
  }

  /** A stream apart from the template owns all it refers to. */
  lemma ApartOwns(s: Stream, t: Stream)
    requires Apart(s, t)
    ensures ToFree(s, Some(t)) == AllPtrs(s)
  {
    KeysApart(s, t, 0);
    hide KeysToFree;
    assert s.encXtn.Some? ==> s.encXtn.value in AllPtrs(s);
    assert t.encXtn.Some? ==> t.encXtn.value in AllPtrs(t);
  }

  lemma KeySetRefs(k: KeySet, t: Option<KeySet>, p: Ptr)
    requires p in KeySetToFree(k, None)
    ensures p in KeySetToFree(k, t) || (t.Some? && p in KeySetToFree(t.value, None))
  {
  }

  lemma {:induction false} KeysRefs(s: Stream, t: Stream, i: nat, p: Ptr)
    requires i <= |s.keys| && p in KeysToFree(s, None, i)
    ensures p in KeysToFree(s, Some(t), i) || p in KeysToFree(t, None, 0)
    decreases |s.keys| - i
  {
    hide KeySetToFree;
    if i < |s.keys| {
      if p in KeySetToFree(s.keys[i], None) {
        KeySetRefs(s.keys[i], TemplateKeys(s, Some(t), i), p);
        if |t.keys| == |s.keys| && p in KeySetToFree(t.keys[i], None) { KeySetIn(t, i, 0, p); }
      } else {
        KeysRefs(s, t, i + 1, p);
      }
    }
  }

  /** All that a stream refers to is its own or the template's. */
  lemma RefsOwned(s: Stream, t: Stream, p: Ptr)
    requires p in AllPtrs(s)
    ensures p in ToFree(s, Some(t)) || p in AllPtrs(t)
  {
    hide KeysToFree;
    if p in KeysToFree(s, None, 0) { KeysRefs(s, t, 0, p); }
  }
}
