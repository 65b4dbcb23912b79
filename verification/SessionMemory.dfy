/** What a session owns, as a list of allocations. */
module SessionMemory {
  import opened Bytes
  import opened SrtpStream
  import opened StreamMemory
  import opened StreamList

  /** The live allocations are those of `owned`, each once. */
  ghost predicate Owns(live: set<Ptr>, owned: seq<Ptr>) { multiset(live) == multiset(owned) }

  lemma OwnsMade(before: Moment, owned: seq<Ptr>, ps: seq<Ptr>, after: Moment)
    requires Owns(before.live, owned) && Made(before, ps, after)
    ensures Owns(after.live, owned + ps)
  {
  }

  /** Releasing part of what is owned leaves the rest. */
  lemma OwnsReleased(before: set<Ptr>, owned: seq<Ptr>, ps: seq<Ptr>, after: set<Ptr>, rest: seq<Ptr>)
    requires Owns(before, owned) && Released(before, ps, after) && multiset(owned) == multiset(rest) + multiset(ps)
    ensures Owns(after, rest)
  {
    forall p: Ptr ensures multiset(after)[p] == multiset(rest)[p] {
      assert multiset(before)[p] == multiset(owned)[p] == multiset(rest)[p] + multiset(ps)[p];
      assert multiset(before)[p] == multiset(after)[p] + multiset(ps)[p];
    }
  }

  lemma OwnsPart(live: set<Ptr>, owned: seq<Ptr>, ps: seq<Ptr>, rest: seq<Ptr>)
    requires Owns(live, owned) && multiset(owned) == multiset(rest) + multiset(ps)
    ensures multiset(ps) <= multiset(live)
  {
  }

  lemma OwnsSame(live: set<Ptr>, owned: seq<Ptr>, other: seq<Ptr>)
    requires Owns(live, owned) && multiset(owned) == multiset(other)
    ensures Owns(live, other)
  {
  }

  lemma OwnedLive(live: set<Ptr>, owned: seq<Ptr>, p: Ptr)
    requires Owns(live, owned) && p in owned
    ensures p in live
  {
    assert multiset(owned)[p] > 0;
  }

  // ----- Streams -----

  function TemplatePtrs(t: Option<Stream>): seq<Ptr> { if t.None? then [] else AllPtrs(t.value) }

  lemma {:induction false} AllToFreeAppend(xs: seq<Stream>, s: Stream, t: Option<Stream>)
    ensures AllToFree(xs + [s], t) == AllToFree(xs, t) + ToFree(s, t)
  {
    hide ToFree;
    if xs == [] {
      assert [] + [s] == [s] && [s][1..] == [];
    } else {
      assert (xs + [s])[1..] == xs[1..] + [s];
      AllToFreeAppend(xs[1..], s, t);
    }
  }

  lemma {:induction false} AllToFreeConcat(xs: seq<Stream>, ys: seq<Stream>, t: Option<Stream>)
    ensures AllToFree(xs + ys, t) == AllToFree(xs, t) + AllToFree(ys, t)
  {
    hide ToFree;
    if xs == [] {
      assert [] + ys == ys;
    } else {
      assert (xs + ys)[1..] == xs[1..] + ys;
      AllToFreeConcat(xs[1..], ys, t);
    }
  }

  lemma AllToFreeOne(s: Stream, t: Option<Stream>)
    ensures AllToFree([s], t) == ToFree(s, t)
  {
    hide ToFree;
    assert [s][1..] == [];
  }

  lemma AllToFreeWithout(xs: seq<Stream>, n: nat, t: Option<Stream>)
    requires n < |xs|
    ensures multiset(AllToFree(xs, t)) == multiset(AllToFree(Without(xs, n), t)) + multiset(ToFree(xs[n], t))
  {
    hide AllToFree, ToFree;
    assert xs == xs[..n] + ([xs[n]] + xs[n + 1..]);
    AllToFreeConcat(xs[..n], [xs[n]] + xs[n + 1..], t);
    AllToFreeConcat([xs[n]], xs[n + 1..], t);
    AllToFreeOne(xs[n], t);
    AllToFreeConcat(xs[..n], xs[n + 1..], t);
  }

  lemma AllToFreeWrite(xs: seq<Stream>, n: nat, s: Stream, t: Option<Stream>)
    requires n < |xs| && ToFree(s, t) == ToFree(xs[n], t)
    ensures AllToFree(xs[n := s], t) == AllToFree(xs, t)
  {
    hide AllToFree, ToFree;
    assert xs == xs[..n] + ([xs[n]] + xs[n + 1..]);
    assert xs[n := s] == xs[..n] + ([s] + xs[n + 1..]);
    AllToFreeConcat(xs[..n], [xs[n]] + xs[n + 1..], t);
    AllToFreeConcat(xs[..n], [s] + xs[n + 1..], t);
    AllToFreeConcat([xs[n]], xs[n + 1..], t);
    AllToFreeConcat([s], xs[n + 1..], t);
    AllToFreeOne(xs[n], t);
    AllToFreeOne(s, t);
  }

  lemma {:induction false} AllToFreeApart(xs: seq<Stream>, t: Stream)
    requires forall i :: 0 <= i < |xs| ==> Apart(xs[i], t)
    ensures AllToFree(xs, Some(t)) == AllToFree(xs, None)
  {
    hide ToFree, Apart;
    if xs != [] {
      ApartOwns(xs[0], t);
      AllToFreeApart(xs[1..], t);
    }
  }

  lemma {:induction false} InAllToFree(xs: seq<Stream>, n: nat, t: Option<Stream>, p: Ptr)
    requires n < |xs| && p in ToFree(xs[n], t)
    ensures p in AllToFree(xs, t)
  {
    hide ToFree;
    if n > 0 { InAllToFree(xs[1..], n - 1, t, p); }
  }

  /** Every stream either uses the template's objects or shares nothing with it, and has keys. */
  predicate Related(xs: seq<Stream>, t: Option<Stream>)
  {
    (t.Some? ==> |t.value.keys| > 0)
    && forall i :: 0 <= i < |xs| ==> RelatedTo(xs[i], t)
  }

  predicate RelatedTo(s: Stream, t: Option<Stream>)
  {
    |s.keys| > 0 && (t.Some? ==> CloneOf(s, t.value) || Apart(s, t.value))
  }

  /** All that a session with these parts holds. */
  function Holdings(base: seq<Ptr>, listPtr: Ptr, entriesPtr: Ptr, t: Option<Stream>, xs: seq<Stream>): seq<Ptr>
  {
    base + [listPtr, entriesPtr] + TemplatePtrs(t) + AllToFree(xs, t)
  }

  /** Streams refer to live objects only. */
  lemma RefsLive(live: set<Ptr>, base: seq<Ptr>, listPtr: Ptr, entriesPtr: Ptr, t: Option<Stream>, xs: seq<Stream>, n: nat, p: Ptr)
    requires Owns(live, Holdings(base, listPtr, entriesPtr, t, xs)) && n < |xs| && p in AllPtrs(xs[n])
    ensures p in live
  {
    hide Owns, AllToFree, ToFree;
    if t.Some? {
      RefsOwned(xs[n], t.value, p);
    }
    if p in ToFree(xs[n], t) { InAllToFree(xs, n, t, p); }
    OwnedLive(live, Holdings(base, listPtr, entriesPtr, t, xs), p);
  }

  /** A new stream shares nothing with what was there before. */
  lemma NewIsApart(s: Stream, t: Stream, n: Ptr)
    requires (forall p :: p in AllPtrs(s) ==> p >= n) && (forall p :: p in AllPtrs(t) ==> p < n)
    ensures Apart(s, t) && Apart(t, s)
  {
  }

  /** The test by which an update tells clones of the template from other streams. */
  lemma AuthTellsClones(s: Stream, t: Stream)
    requires |s.keys| > 0 && |t.keys| > 0 && (CloneOf(s, t) || Apart(s, t))
    ensures s.keys[0].rtpAuth == t.keys[0].rtpAuth <==> CloneOf(s, t)
    ensures s.keys[0].rtpAuth != t.keys[0].rtpAuth <==> Apart(s, t)
  {
    hide KeySetToFree, KeysToFree;
    if CloneOf(s, t) {
      assert SharesKeys(s.keys[0], t.keys[0]);
    }
    AuthIsOwned(s.keys[0]);
    AuthIsOwned(t.keys[0]);
    KeySetIn(s, 0, 0, s.keys[0].rtpAuth);
    KeySetIn(t, 0, 0, t.keys[0].rtpAuth);
    assert s.keys[0].rtpAuth in AllPtrs(s) && t.keys[0].rtpAuth in AllPtrs(t);
  }

  lemma AuthIsOwned(k: KeySet)
    ensures k.rtpAuth in KeySetToFree(k, None)
  {
  }

  // ----- Steps of a session -----

  /** The list may have moved its entries. */
  lemma EntriesMoved(live: set<Ptr>, base: seq<Ptr>, listPtr: Ptr, was: Ptr, now: Ptr, t: Option<Stream>, xs: seq<Stream>, extra: seq<Ptr>)
    requires Owns(live, Holdings(base, listPtr, was, t, xs) + extra) && (now == was || now !in live)
    ensures was in live
    ensures Owns(live - {was} + {now}, Holdings(base, listPtr, now, t, xs) + extra)
  {
    hide AllToFree, TemplatePtrs;
    var rest := TemplatePtrs(t) + AllToFree(xs, t) + extra;
    var other := base + [listPtr] + rest;
    HoldingsSplit(base, listPtr, was, t, xs, extra);
    HoldingsSplit(base, listPtr, now, t, xs, extra);
    OwnsSame(live, Holdings(base, listPtr, was, t, xs) + extra, other + [was]);
    OwnedLive(live, other + [was], was);
    SwapOne(live, other, was, now);
    OwnsSame(live - {was} + {now}, other + [now], Holdings(base, listPtr, now, t, xs) + extra);
  }

  lemma HoldingsSplit(base: seq<Ptr>, listPtr: Ptr, entriesPtr: Ptr, t: Option<Stream>, xs: seq<Stream>, extra: seq<Ptr>)
    ensures multiset(Holdings(base, listPtr, entriesPtr, t, xs) + extra)
         == multiset(base + [listPtr] + (TemplatePtrs(t) + AllToFree(xs, t) + extra) + [entriesPtr])
  {
    hide AllToFree, TemplatePtrs;
    var a, b := TemplatePtrs(t), AllToFree(xs, t);
    assert base + [listPtr, entriesPtr] == base + [listPtr] + [entriesPtr];
  }

  lemma SwapOne(live: set<Ptr>, other: seq<Ptr>, was: Ptr, now: Ptr)
    requires Owns(live, other + [was]) && was in live && (now == was || now !in live)
    ensures Owns(live - {was} + {now}, other + [now])
  {
    forall p: Ptr ensures multiset(live - {was} + {now})[p] == multiset(other + [now])[p] {
      assert multiset(live)[p] == multiset(other + [was])[p] == multiset(other)[p] + multiset([was])[p];
      assert multiset(other + [now])[p] == multiset(other)[p] + multiset([now])[p];
    }
  }

  /** A stream at the end of the list brings what it owns. */
  lemma HoldingsAppend(base: seq<Ptr>, listPtr: Ptr, entriesPtr: Ptr, t: Option<Stream>, xs: seq<Stream>, s: Stream)
    ensures Holdings(base, listPtr, entriesPtr, t, xs) + ToFree(s, t) == Holdings(base, listPtr, entriesPtr, t, xs + [s])
  {
    hide AllToFree, TemplatePtrs, ToFree;
    AllToFreeAppend(xs, s, t);
    var head := base + [listPtr, entriesPtr] + TemplatePtrs(t);
    assert head + AllToFree(xs, t) + ToFree(s, t) == head + (AllToFree(xs, t) + ToFree(s, t));
  }

  lemma HoldingsWithout(base: seq<Ptr>, listPtr: Ptr, entriesPtr: Ptr, t: Option<Stream>, xs: seq<Stream>, n: nat)
    requires n < |xs|
    ensures multiset(Holdings(base, listPtr, entriesPtr, t, xs))
         == multiset(Holdings(base, listPtr, entriesPtr, t, Without(xs, n))) + multiset(ToFree(xs[n], t))
  {
    hide AllToFree, TemplatePtrs, ToFree;
    AllToFreeWithout(xs, n, t);
  }

  /** What is owned was allocated before now. */
  lemma OwnedBelow(heap: Heap, owned: seq<Ptr>)
    requires heap.Valid() && Owns(heap.live, owned)
    ensures forall p :: p in owned ==> p < heap.next
  {
    hide Owns;
    forall p | p in owned ensures p < heap.next { OwnedLive(heap.live, owned, p); }
  }

  /** A freshly allocated stream belongs beside the template. */
  lemma NewStreamRelated(before: Moment, s: Stream, after: Moment, t: Option<Stream>, held: seq<Ptr>)
    requires Made(before, AllPtrs(s), after) && |s.keys| > 0
    requires (forall p :: p in held ==> p < before.next) && forall p :: p in TemplatePtrs(t) ==> p in held
    ensures RelatedTo(s, t) && ToFree(s, t) == AllPtrs(s)
  {
    hide ToFree;
    if t.Some? {
      assert TemplatePtrs(t) == AllPtrs(t.value);
      NewIsApart(s, t.value, before.next);
      ApartOwns(s, t.value);
    }
  }

  /** A first template shares nothing with the streams that are there. */
  lemma TemplateSet(live: set<Ptr>, base: seq<Ptr>, listPtr: Ptr, entriesPtr: Ptr, xs: seq<Stream>, t: Stream, after: set<Ptr>, n: Ptr)
    requires Owns(live, Holdings(base, listPtr, entriesPtr, None, xs)) && Related(xs, None) && |t.keys| > 0
    requires (forall p :: p in live ==> p < n) && forall p :: p in AllPtrs(t) ==> p >= n
    requires Owns(after, Holdings(base, listPtr, entriesPtr, None, xs) + AllPtrs(t))
    ensures Owns(after, Holdings(base, listPtr, entriesPtr, Some(t), xs)) && Related(xs, Some(t))
  {
    hide Owns, AllToFree, ToFree, CloneOf;
    forall i | 0 <= i < |xs| ensures RelatedTo(xs[i], Some(t)) && Apart(xs[i], t) {
      assert RelatedTo(xs[i], None);
      forall p | p in AllPtrs(xs[i]) ensures p < n { RefsLive(live, base, listPtr, entriesPtr, None, xs, i, p); }
      NewIsApart(t, xs[i], n);
    }
    AllToFreeApart(xs, t);
    TemplateJoins(base, listPtr, entriesPtr, xs, t);
    OwnsSame(after, Holdings(base, listPtr, entriesPtr, None, xs) + AllPtrs(t), Holdings(base, listPtr, entriesPtr, Some(t), xs));
  }

  lemma TemplateJoins(base: seq<Ptr>, listPtr: Ptr, entriesPtr: Ptr, xs: seq<Stream>, t: Stream)
    requires AllToFree(xs, Some(t)) == AllToFree(xs, None)
    ensures multiset(Holdings(base, listPtr, entriesPtr, None, xs) + AllPtrs(t))
         == multiset(Holdings(base, listPtr, entriesPtr, Some(t), xs))
  {
    hide AllToFree, AllPtrs;
  }

  lemma TemplateHeld(base: seq<Ptr>, listPtr: Ptr, entriesPtr: Ptr, t: Option<Stream>, xs: seq<Stream>)
    ensures forall p :: p in TemplatePtrs(t) ==> p in Holdings(base, listPtr, entriesPtr, t, xs)
  {
  }

  lemma RelatedAppend(xs: seq<Stream>, s: Stream, t: Option<Stream>)
    requires Related(xs, t) && RelatedTo(s, t)
    ensures Related(xs + [s], t)
  {
    hide RelatedTo;
  }

  lemma RelatedWithout(xs: seq<Stream>, n: nat, t: Option<Stream>)
    requires Related(xs, t) && n < |xs|
    ensures Related(Without(xs, n), t)
  {
    hide RelatedTo;
    var rest := Without(xs, n);
    assert forall i :: 0 <= i < |rest| ==> rest[i] == xs[if i < n then i else i + 1];
  }

  /** The fields that are not pointers do not matter to what is held. */
  predicate SameObjects(s: Stream, t: Stream)
  {
    s.id == t.id && s.keyBlock == t.keyBlock && s.keys == t.keys && s.encXtn == t.encXtn && s.rdbxBits == t.rdbxBits
  }

  lemma {:induction false} SameKeys(s: Stream, t: Stream, o: Option<Stream>, i: nat)
    requires s.keys == t.keys && i <= |s.keys|
    ensures KeysToFree(s, o, i) == KeysToFree(t, o, i)
    decreases |s.keys| - i
  {
    hide KeySetToFree;
    if i < |s.keys| { SameKeys(s, t, o, i + 1); }
  }

  lemma SameToFree(s: Stream, t: Stream, o: Option<Stream>)
    requires SameObjects(s, t)
    ensures ToFree(s, o) == ToFree(t, o) && AllPtrs(s) == AllPtrs(t)
  {
    SameKeys(s, t, o, 0);
    SameKeys(s, t, None, 0);
  }

  lemma SameRelated(s: Stream, u: Stream, t: Option<Stream>)
    requires SameObjects(s, u) && RelatedTo(s, t)
    ensures RelatedTo(u, t)
  {
    hide ToFree, KeysToFree;
    SameToFree(s, u, None);
  }

  /** Writing replay state or direction into a stream changes nothing that is held. */
  lemma HoldingsWrite(base: seq<Ptr>, listPtr: Ptr, entriesPtr: Ptr, t: Option<Stream>, xs: seq<Stream>, n: nat, s: Stream)
    requires n < |xs| && SameObjects(xs[n], s) && Related(xs, t)
    ensures Holdings(base, listPtr, entriesPtr, t, xs[n := s]) == Holdings(base, listPtr, entriesPtr, t, xs)
    ensures Related(xs[n := s], t)
  {
    hide AllToFree, ToFree, RelatedTo;
    SameToFree(xs[n], s, t);
    AllToFreeWrite(xs, n, s, t);
    SameRelated(xs[n], s, t);
  }

  /** The same for the template. */
  lemma HoldingsTemplate(base: seq<Ptr>, listPtr: Ptr, entriesPtr: Ptr, t: Stream, u: Stream, xs: seq<Stream>)
    requires SameObjects(t, u) && Related(xs, Some(t))
    ensures Holdings(base, listPtr, entriesPtr, Some(u), xs) == Holdings(base, listPtr, entriesPtr, Some(t), xs)
    ensures Related(xs, Some(u))
  {
    hide AllToFree, ToFree;
    SameToFree(t, u, None);
    AllToFreeTemplate(xs, t, u);
    forall i | 0 <= i < |xs| ensures RelatedTo(xs[i], Some(u)) {
      assert RelatedTo(xs[i], Some(t));
    }
  }

  lemma {:induction false} AllToFreeTemplate(xs: seq<Stream>, t: Stream, u: Stream)
    requires SameObjects(t, u)
    ensures AllToFree(xs, Some(t)) == AllToFree(xs, Some(u))
  {
    hide ToFree;
    if xs != [] {
      SameTemplate(xs[0], t, u);
      AllToFreeTemplate(xs[1..], t, u);
    }
  }

  lemma {:induction false} SameTemplateKeys(s: Stream, t: Stream, u: Stream, i: nat)
    requires SameObjects(t, u) && i <= |s.keys|
    ensures KeysToFree(s, Some(t), i) == KeysToFree(s, Some(u), i)
    decreases |s.keys| - i
  {
    hide KeySetToFree;
    if i < |s.keys| { SameTemplateKeys(s, t, u, i + 1); }
  }

  lemma SameTemplate(s: Stream, t: Stream, u: Stream)
    requires SameObjects(t, u)
    ensures ToFree(s, Some(t)) == ToFree(s, Some(u))
  {
    SameTemplateKeys(s, t, u, 0);
  }
}
