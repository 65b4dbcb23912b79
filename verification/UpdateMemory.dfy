/** What is held while a template update moves the streams to a new list. */
module UpdateMemory {
  import opened Bytes
  import opened SrtpStream
  import opened ReplayWindow
  import opened StreamMemory
  import opened StreamList
  import opened SessionMemory

  /** The new template, the new list and its streams. */
  function Beside(t: Stream, listPtr: Ptr, entriesPtr: Ptr, ys: seq<Stream>): seq<Ptr>
  {
    AllPtrs(t) + [listPtr, entriesPtr] + AllToFree(ys, Some(t))
  }

  predicate AllApart(xs: seq<Stream>, t: Stream) { forall i :: 0 <= i < |xs| ==> Apart(xs[i], t) }

  /** What an update keeps of a stream: its SSRC and replay state always, all of it if it is none of the
      template's; a clone becomes one of the new template, with the highest index but not the window. */
  predicate Carried(s: Stream, u: Stream, t: Stream, t2: Stream)
  {
    u.ssrc == s.ssrc && u.rdbx.index == s.rdbx.index && u.rtcpRdb == s.rtcpRdb
    && (Apart(s, t) ==> u == s)
    && (CloneOf(s, t) ==> CloneOf(u, t2) && u.settings == t2.settings && u.direction == t2.direction && u.pendingRoc == 0
                          && u.rdbx == Cleared(s.rdbx.index, |t2.rdbx.bits|))
  }

  predicate AllCarried(was: seq<Stream>, ys: seq<Stream>, t: Stream, t2: Stream)
  {
    |ys| <= |was| && forall i :: 0 <= i < |ys| ==> Carried(was[i], ys[i], t, t2)
  }

  /** Between two callbacks: `ys` are the streams carried over, `xs` those still to come. */
  ghost predicate Updating(live: set<Ptr>, held: seq<Ptr>, beside: seq<Ptr>, was: seq<Stream>, xs: seq<Stream>, ys: seq<Stream>,
                           t: Stream, t2: Stream)
  {
    Owns(live, held + beside)
    && |ys| <= |was| && xs == was[|ys|..] && AllCarried(was, ys, t, t2)
    && Related(xs, Some(t)) && AllApart(xs, t2) && Related(ys, Some(t2)) && |t2.keys| > 0
  }

  /** The streams that are there share nothing with a template made after them. */
  lemma OldApart(live: set<Ptr>, base: seq<Ptr>, listPtr: Ptr, entriesPtr: Ptr, t: Stream, xs: seq<Stream>, t2: Stream, n: Ptr)
    requires Owns(live, Holdings(base, listPtr, entriesPtr, Some(t), xs))
    requires (forall p :: p in live ==> p < n) && forall p :: p in AllPtrs(t2) ==> p >= n
    ensures AllApart(xs, t2)
  {
    hide Owns, Holdings, AllPtrs, Apart;
    forall i | 0 <= i < |xs| ensures Apart(xs[i], t2) {
      forall p | p in AllPtrs(xs[i]) ensures p < n { RefsLive(live, base, listPtr, entriesPtr, Some(t), xs, i, p); }
      NewIsApart(t2, xs[i], n);
    }
  }

  /** What is live was allocated. */
  ghost predicate Consistent(m: Moment) { forall p :: p in m.live ==> p < m.next }

  lemma UpdateBegins(before: Moment, base: seq<Ptr>, lp: Ptr, ep: Ptr, t: Stream, xs: seq<Stream>, t2: Stream, middle: Moment,
                     lp2: Ptr, ep2: Ptr, after: Moment)
    requires Owns(before.live, Holdings(base, lp, ep, Some(t), xs)) && Related(xs, Some(t)) && |t2.keys| > 0
    requires Consistent(before) && Made(before, AllPtrs(t2), middle) && Made(middle, [lp2, ep2], after)
    ensures Updating(after.live, Holdings(base, lp, ep, Some(t), xs), Beside(t2, lp2, ep2, []), xs, xs, [], t, t2)
  {
    hide Owns, Made, Holdings, AllPtrs, AllToFree, Apart;
    var held := Holdings(base, lp, ep, Some(t), xs);
    OwnsMade(before, held, AllPtrs(t2), middle);
    OwnsMade(middle, held + AllPtrs(t2), [lp2, ep2], after);
    MadeAbove(before, AllPtrs(t2), middle);
    OldApart(before.live, base, lp, ep, t, xs, t2, before.next);
    NothingBeside(t2, lp2, ep2);
    Regroup(held, AllPtrs(t2), [lp2, ep2]);
    assert xs == xs[0..];
  }

  lemma MadeAbove(before: Moment, ps: seq<Ptr>, after: Moment)
    requires Made(before, ps, after)
    ensures forall p :: p in ps ==> p >= before.next
  {
  }

  lemma NothingBeside(t: Stream, lp: Ptr, ep: Ptr)
    ensures Beside(t, lp, ep, []) == AllPtrs(t) + [lp, ep]
  {
    hide AllPtrs;
  }

  lemma Regroup(a: seq<Ptr>, b: seq<Ptr>, c: seq<Ptr>)
    ensures a + b + c == a + (b + c)
  {
  }

  // ----- One stream -----

  /** Taking the first stream out leaves what it owns on the side. */
  lemma TakeFirst(live: set<Ptr>, base: seq<Ptr>, lp: Ptr, ep: Ptr, t: Stream, t2: Stream, was: seq<Stream>, xs: seq<Stream>,
                  ys: seq<Stream>, beside: seq<Ptr>)
    requires xs != [] && Updating(live, Holdings(base, lp, ep, Some(t), xs), beside, was, xs, ys, t, t2)
    ensures Removed(xs, xs[0].ssrc) == xs[1..] && |ys| < |was| && was[|ys|] == xs[0] && xs[1..] == was[|ys| + 1..]
    ensures Owns(live, Holdings(base, lp, ep, Some(t), xs[1..]) + beside + ToFree(xs[0], Some(t)))
    ensures RelatedTo(xs[0], Some(t)) && Apart(xs[0], t2) && Related(xs[1..], Some(t)) && AllApart(xs[1..], t2)
    ensures |t.keys| > 0
  {
    hide Owns, Holdings, ToFree, Apart, RelatedTo;
    assert Without(xs, 0) == xs[1..];
    HoldingsWithout(base, lp, ep, Some(t), xs, 0);
    OwnsSame(live, Holdings(base, lp, ep, Some(t), xs) + beside,
             Holdings(base, lp, ep, Some(t), xs[1..]) + beside + ToFree(xs[0], Some(t)));
  }

  /** A stream at the end of the new list. */
  lemma BesideAppend(t: Stream, lp: Ptr, ep: Ptr, ys: seq<Stream>, u: Stream)
    ensures Beside(t, lp, ep, ys) + ToFree(u, Some(t)) == Beside(t, lp, ep, ys + [u])
  {
    hide AllToFree, ToFree, AllPtrs;
    AllToFreeAppend(ys, u, Some(t));
    Regroup(AllPtrs(t) + [lp, ep], AllToFree(ys, Some(t)), ToFree(u, Some(t)));
  }

  /** The new list may have moved its entries while it took u in. */
  lemma BesideMoved(live: set<Ptr>, held: seq<Ptr>, t: Stream, lp: Ptr, was: Ptr, now: Ptr, ys: seq<Stream>, extra: seq<Ptr>)
    requires Owns(live, held + Beside(t, lp, was, ys) + extra) && (now == was || now !in live)
    ensures was in live && Owns(live - {was} + {now}, held + Beside(t, lp, now, ys) + extra)
  {
    hide Owns, AllToFree, AllPtrs;
    var other := held + AllPtrs(t) + [lp] + AllToFree(ys, Some(t)) + extra;
    BesideSplit(held, t, lp, was, ys, extra);
    BesideSplit(held, t, lp, now, ys, extra);
    OwnsSame(live, held + Beside(t, lp, was, ys) + extra, other + [was]);
    OwnedLive(live, other + [was], was);
    SwapOne(live, other, was, now);
    OwnsSame(live - {was} + {now}, other + [now], held + Beside(t, lp, now, ys) + extra);
  }

  lemma BesideSplit(held: seq<Ptr>, t: Stream, lp: Ptr, ep: Ptr, ys: seq<Stream>, extra: seq<Ptr>)
    ensures multiset(held + Beside(t, lp, ep, ys) + extra)
         == multiset(held + AllPtrs(t) + [lp] + AllToFree(ys, Some(t)) + extra + [ep])
  {
    hide AllToFree, AllPtrs;
    assert [lp, ep] == [lp] + [ep];
  }

  /** The next state once u is in the new list for the first of xs. */
  lemma CarryOn(live: set<Ptr>, held: seq<Ptr>, t: Stream, t2: Stream, lp: Ptr, ep: Ptr, was: seq<Stream>, xs: seq<Stream>,
                ys: seq<Stream>, u: Stream)
    requires Owns(live, held + Beside(t2, lp, ep, ys) + ToFree(u, Some(t2)))
    requires |ys| < |was| && xs == was[|ys| + 1..] && AllCarried(was, ys, t, t2) && Carried(was[|ys|], u, t, t2)
    requires Related(xs, Some(t)) && AllApart(xs, t2) && Related(ys, Some(t2)) && RelatedTo(u, Some(t2)) && |t2.keys| > 0
    ensures Updating(live, held, Beside(t2, lp, ep, ys + [u]), was, xs, ys + [u], t, t2)
  {
    hide Owns, Related, AllApart, Carried, RelatedTo, ToFree, Beside;
    BesideAppend(t2, lp, ep, ys, u);
    Regroup(held, Beside(t2, lp, ep, ys), ToFree(u, Some(t2)));
    RelatedAppend(ys, u, Some(t2));
  }

  /** A stream apart from both templates owns the same under each. */
  lemma ApartFromBoth(s: Stream, t: Stream, t2: Stream)
    requires Apart(s, t) && Apart(s, t2)
    ensures ToFree(s, Some(t)) == ToFree(s, Some(t2))
  {
    ApartOwns(s, t);
    ApartOwns(s, t2);
  }

  // ----- The end of an update -----

  /** With no stream left, the old list and template are all that is to be released. */
  lemma ListReleased(live: set<Ptr>, base: seq<Ptr>, lp: Ptr, ep: Ptr, t: Option<Stream>, beside: seq<Ptr>)
    requires Owns(live, Holdings(base, lp, ep, t, []) + beside)
    ensures lp in live && ep in live && lp != ep
    ensures Owns(live - {ep} - {lp}, base + TemplatePtrs(t) + beside)
  {
    hide Owns, TemplatePtrs, Holdings;
    var rest := base + TemplatePtrs(t) + beside;
    BareHoldings(base, lp, ep, t, beside);
    OwnsSame(live, Holdings(base, lp, ep, t, []) + beside, rest + [lp] + [ep]);
    DropLast(live, rest + [lp], ep);
    assert lp in rest + [lp];
    DropLast(live - {ep}, rest, lp);
  }

  lemma BareHoldings(base: seq<Ptr>, lp: Ptr, ep: Ptr, t: Option<Stream>, beside: seq<Ptr>)
    ensures multiset(Holdings(base, lp, ep, t, []) + beside) == multiset(base + TemplatePtrs(t) + beside + [lp] + [ep])
  {
    hide TemplatePtrs, AllToFree;
    NoStreams(t);
    var ps := TemplatePtrs(t);
    assert base + [lp, ep] + ps + [] == base + [lp] + [ep] + ps;
    ShuffleTwo(base, [lp], [ep], ps, beside);
  }

  lemma ShuffleTwo(a: seq<Ptr>, b: seq<Ptr>, c: seq<Ptr>, d: seq<Ptr>, e: seq<Ptr>)
    ensures multiset(a + b + c + d + e) == multiset(a + d + e + b + c)
  {
    forall p: Ptr ensures multiset(a + b + c + d + e)[p] == multiset(a + d + e + b + c)[p] {
      assert multiset(a + b + c + d + e)[p] == multiset(a)[p] + multiset(b)[p] + multiset(c)[p] + multiset(d)[p] + multiset(e)[p];
    }
  }

  lemma NoStreams(t: Option<Stream>)
    ensures AllToFree([], t) == []
  {
  }

  lemma DropLast(live: set<Ptr>, rest: seq<Ptr>, p: Ptr)
    requires Owns(live, rest + [p])
    ensures p in live && Owns(live - {p}, rest) && (forall q :: q in rest ==> q != p)
    ensures forall q :: q in rest ==> q in live - {p}
  {
    OwnedLive(live, rest + [p], p);
    forall q: Ptr ensures multiset(live - {p})[q] == multiset(rest)[q] {
      assert multiset(live)[q] == multiset(rest + [p])[q] == multiset(rest)[q] + multiset([p])[q];
    }
    forall q | q in rest ensures q in live - {p} { OwnedLive(live - {p}, rest, q); }
  }

  lemma NewHoldings(base: seq<Ptr>, t: Stream, lp: Ptr, ep: Ptr, ys: seq<Stream>)
    ensures multiset(base + Beside(t, lp, ep, ys)) == multiset(Holdings(base, lp, ep, Some(t), ys))
  {
    hide AllPtrs, AllToFree;
    Shuffle(base, AllPtrs(t), [lp, ep], AllToFree(ys, Some(t)));
  }

  lemma Shuffle(a: seq<Ptr>, b: seq<Ptr>, c: seq<Ptr>, d: seq<Ptr>)
    ensures multiset(a + (b + c + d)) == multiset(a + c + b + d)
  {
    forall p: Ptr ensures multiset(a + (b + c + d))[p] == multiset(a + c + b + d)[p] {
      assert multiset(a + (b + c + d))[p] == multiset(a)[p] + multiset(b)[p] + multiset(c)[p] + multiset(d)[p];
    }
  }

  /** After the old template is gone the session holds the new parts. */
  lemma Switched(live: set<Ptr>, base: seq<Ptr>, t: Stream, t2: Stream, lp2: Ptr, ep2: Ptr, ys: seq<Stream>)
    requires Owns(live, base + TemplatePtrs(Some(t)) + Beside(t2, lp2, ep2, ys))
    ensures multiset(ToFree(t, None)) <= multiset(live)
    ensures forall after :: Released(live, ToFree(t, None), after)
              ==> Owns(after, Holdings(base, lp2, ep2, Some(t2), ys))
  {
    hide Owns, Released, Beside, ToFree;
    var all, rest := base + TemplatePtrs(Some(t)) + Beside(t2, lp2, ep2, ys), base + Beside(t2, lp2, ep2, ys);
    OwnsPart(live, all, ToFree(t, None), rest);
    forall after | Released(live, ToFree(t, None), after) ensures Owns(after, Holdings(base, lp2, ep2, Some(t2), ys)) {
      OwnsReleased(live, all, ToFree(t, None), after, rest);
      NewHoldings(base, t2, lp2, ep2, ys);
      OwnsSame(after, rest, Holdings(base, lp2, ep2, Some(t2), ys));
    }
  }

  /** The first of the streams that are to be released. */
  lemma ReleaseFirst(live: set<Ptr>, rest: seq<Ptr>, xs: seq<Stream>, t: Option<Stream>)
    requires xs != [] && Owns(live, rest + AllToFree(xs, t))
    ensures Removed(xs, xs[0].ssrc) == xs[1..] && multiset(ToFree(xs[0], t)) <= multiset(live)
    ensures forall after :: Released(live, ToFree(xs[0], t), after) ==> Owns(after, rest + AllToFree(xs[1..], t))
  {
    hide Owns, Released, ToFree;
    assert Without(xs, 0) == xs[1..];
    var all, less := rest + AllToFree(xs, t), rest + AllToFree(xs[1..], t);
    AllToFreeWithout(xs, 0, t);
    OwnsPart(live, all, ToFree(xs[0], t), less);
    forall after | Released(live, ToFree(xs[0], t), after) ensures Owns(after, less) {
      OwnsReleased(live, all, ToFree(xs[0], t), after, less);
    }
  }

  /** The test of the callback: own objects, or the template's. */
  lemma AuthTells(s: Stream, t: Stream)
    requires RelatedTo(s, Some(t)) && |t.keys| > 0
    ensures |s.keys| > 0
    ensures if s.keys[0].rtpAuth != t.keys[0].rtpAuth then Apart(s, t) && !CloneOf(s, t) else CloneOf(s, t) && !Apart(s, t)
  {
    hide Apart, CloneOf;
    AuthTellsClones(s, t);
  }

  lemma ApartCarried(s: Stream, t: Stream, t2: Stream)
    requires Apart(s, t) && !CloneOf(s, t) && Apart(s, t2) && |s.keys| > 0
    ensures Carried(s, s, t, t2) && RelatedTo(s, Some(t2)) && ToFree(s, Some(t)) == ToFree(s, Some(t2))
  {
    hide Apart, CloneOf, ToFree;
    ApartFromBoth(s, t, t2);
  }

  /** A clone of the old template becomes one of the new template with the same replay state. */
  lemma CloneCarried(s: Stream, c: Stream, u: Stream, t: Stream, t2: Stream)
    requires CloneOf(s, t) && !Apart(s, t) && CloneOf(c, t2) && |t2.keys| > 0 && c.ssrc == s.ssrc
    requires c.settings == t2.settings && c.direction == t2.direction && c.pendingRoc == 0
    requires c.rdbx == Cleared(0, |t2.rdbx.bits|)
    requires u == c.(rdbx := c.rdbx.(index := s.rdbx.index), rtcpRdb := s.rtcpRdb)
    ensures Carried(s, u, t, t2) && RelatedTo(u, Some(t2)) && ToFree(u, Some(t2)) == ToFree(c, Some(t2))
  {
    hide Apart, ToFree;
    SameToFree(c, u, Some(t2));
  }
}
