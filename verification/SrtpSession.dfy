/** SRTP sessions: streams added, cloned from a template, removed and updated, packets through them, and all
    released at the end (srtp.c). */
module SrtpSession {
  import opened Bytes
  import opened ReplayWindow
  import opened SrtpStream
  import opened StreamMemory
  import opened StreamList
  import opened SessionMemory
  import opened UpdateMemory
  import opened SrtpPacket
  import opened SrtpTransform
  import opened SrtpBuffers
  import opened SrtpAead
  import opened StreamPackets

  predicate PolicyOk(p: Policy) { ValidPolicy(p) && WindowOk(p) }

  /** A stream as srtp_stream_add makes it from a policy. */
  predicate MadeFrom(s: Stream, p: Policy, ssrc: Ssrc, d: Direction)
  {
    s.ssrc == ssrc && s.settings == p.settings && s.direction == d
    && s.rdbx == Cleared(0, WindowLength(p.settings.window)) && s.rtcpRdb == 0 && s.pendingRoc == 0
  }

  function Last(streams: seq<Stream>): Stream
    requires streams != []
  {
    streams[|streams| - 1]
  }

  predicate Appended(xs: seq<Stream>, ys: seq<Stream>) { ys != [] && ys == xs + [Last(ys)] }

  /** What srtp_stream_add does: a stream at the end, or the template, or nothing. */
  predicate Added(p: Policy, room: bool, xs: seq<Stream>, t: Option<Stream>, status: Status, ys: seq<Stream>, u: Option<Stream>)
  {
    if !PolicyOk(p) || p.target.Undefined? then status == BadParam && ys == xs && u == t
    else if p.target.Specific? then
      u == t && if room then status == Ok && Appended(xs, ys) && MadeFrom(Last(ys), p, p.target.ssrc, Unknown)
                else status == AllocFail && ys == xs
    else
      ys == xs && if t.Some? then status == BadParam && u == t
                  else status == Ok && u.Some? && MadeFrom(u.value, p, 0, if p.target.AnyInbound? then Receiver else Sender)
  }

  function Marked(s: Stream, d: Direction): Stream { if s.direction == Unknown then s.(direction := d) else s }

  /** A clone of the template that no packet has gone through. */
  predicate NewClone(s: Stream, t: Stream, ssrc: Ssrc, d: Direction)
  {
    CloneOf(s, t) && s.ssrc == ssrc && s.settings == t.settings && s.direction == d && s.rtcpRdb == 0
    && s.rdbx == Cleared(0, |t.rdbx.bits|) && s.pendingRoc == 0
  }

  /** The stream before its first packet. */
  function Unused(s: Stream): Stream { s.(rdbx := Cleared(0, |s.rdbx.bits|), pendingRoc := 0) }

  predicate ClonedIn(xs: seq<Stream>, t: Stream, ssrc: Ssrc, ys: seq<Stream>)
  {
    Appended(xs, ys) && NewClone(Last(ys), t, ssrc, t.direction)
  }

  /** What srtp_protect is called with. */
  datatype Outgoing = Outgoing(mkiIndex: nat, packet: Octets, capacity: nat, after: Octets)

  predicate Fits(o: Outgoing) { o.capacity <= |o.packet| + |o.after| }

  function ProtectFor(w: Crypto, s: Stream, o: Outgoing): Sent
    requires CryptoOk(w) && ValidRtp(o.packet) && Fits(o)
  {
    ProtectOn(w, s, o.mkiIndex, o.packet, o.capacity, o.after)
  }

  /** srtp_protect: the stream is found or cloned and its direction set, whatever becomes of the packet after
      that. */
  ghost predicate Protected(w: Crypto, o: Outgoing, room: bool, xs: seq<Stream>, t: Option<Stream>, result: Outcome, ys: seq<Stream>)
  {
    CryptoOk(w) && Fits(o) &&
    if !ValidRtp(o.packet) then result == Failed(BadParam) && ys == xs
    else
      match FirstFrom(xs, RtpSsrc(o.packet), 0)
      case Some(n) =>
        |ys| == |xs| && Sent(result, ys[n]) == ProtectFor(w, Marked(xs[n], Sender), o) && ys == xs[n := ys[n]]
      case None =>
        if t.None? then result == Failed(NoCtx) && ys == xs
        else if !room then result == Failed(AllocFail) && ys == xs
        else
          Appended(xs, ys) && NewClone(Unused(Last(ys)), t.value, RtpSsrc(o.packet), Sender)
          && Sent(result, Last(ys)) == ProtectFor(w, Unused(Last(ys)), o)
  }

  /** A stream that a packet got through. */
  function Reached(s: Stream, ix: Indexed): Stream
    requires ix.Taken?
  {
    s.(rdbx := ix.window, pendingRoc := ix.pendingRoc)
  }

  /** srtp_unprotect: the template stands in for a stream that is not there yet, and only a packet that
      passes brings one; without a packet that passes no stream changes. */
  ghost predicate Unprotected(w: Crypto, pkt: Octets, capacity: nat, room: bool, xs: seq<Stream>, t: Option<Stream>,
                              result: Outcome, ys: seq<Stream>, u: Option<Stream>)
  {
    CryptoOk(w) &&
    if !ValidRtp(pkt) then result == Failed(BadParam) && ys == xs && u == t
    else
      match FirstFrom(xs, RtpSsrc(pkt), 0)
      case Some(n) =>
        var ix := TakeIndex(xs[n].rdbx, xs[n].pendingRoc, RtpSeq(pkt), false);
        && result == UnprotectOn(w, xs[n], ix, pkt, capacity) && u == t
        && ys == if result.status == Ok && ix.Taken? then xs[n := Reached(Marked(xs[n], Receiver), ix)] else xs
      case None =>
        if t.None? then result == Failed(NoCtx) && ys == xs && u == t
        else
          var ix := FirstIndex(|t.value.rdbx.bits|, RtpSeq(pkt));
          var back := UnprotectOn(w, t.value, ix, pkt, capacity);
          if back.status != Ok then result == back && ys == xs && u == t
          else
            u == Some(Marked(t.value, Receiver))
            && if !room then result == Failed(AllocFail) && ys == xs
               else
                 result == back && Appended(xs, ys)
                 && NewClone(Unused(Last(ys)), u.value, RtpSsrc(pkt), u.value.direction)
                 && Last(ys) == Reached(Unused(Last(ys)), ix)
  }

  /** is_update_policy_compatable */
  predicate Compatible(s: Stream, p: Policy)
  {
    s.settings.useMki == p.settings.useMki && (s.settings.useMki ==> s.settings.mkiSize == p.settings.mkiSize)
  }

  /** A wildcard update that gets as far as the new template. */
  predicate ReachesInit(p: Policy, t: Option<Stream>) { ValidPolicy(p) && t.Some? && Compatible(t.value, p) }

  /** A wildcard update: refused with every stream as it was; or all streams carried over, in order; or, when
      the new list takes no more, the streams carried so far and one more are gone. */
  ghost predicate TemplateUpdated(p: Policy, xs: seq<Stream>, t: Option<Stream>, status: Status, ys: seq<Stream>, u: Option<Stream>)
  {
    if !ReachesInit(p, t) || !WindowOk(p) then status == BadParam && ys == xs && u == t
    else if status == Ok then u.Some? && MadeFrom(u.value, p, 0, Unknown) && |ys| == |xs| && AllCarried(xs, ys, t.value, u.value)
    else status == AllocFail && u == t && LostSome(xs, ys)
  }

  ghost predicate LostSome(xs: seq<Stream>, ys: seq<Stream>)
  {
    |ys| < |xs| && ys == xs[|xs| - |ys|..]
  }

  /** An update of one stream: refused without effect; or, when the new stream is refused for its window,
      the old one is gone; or the first stream of that SSRC is replaced by one made from the policy with the
      highest index and the RTCP replay state. */
  ghost predicate StreamUpdated(p: Policy, xs: seq<Stream>, status: Status, ys: seq<Stream>)
    requires p.target.Specific?
  {
    var ssrc := p.target.ssrc;
    var found := Get(xs, ssrc);
    if !ReachesInit(p, found) then status == BadParam && ys == xs
    else if !WindowOk(p) then status == BadParam && ys == Removed(xs, ssrc)
    else
      var rest := Removed(xs, ssrc);
      status == Ok && |ys| == |rest| + 1
      && exists s :: MadeFrom(s, p, ssrc, Unknown) && Rewritten(rest + [s], found.value, ys)
  }

  /** A stream with the highest index and the RTCP replay state of another. */
  function WithIndexOf(s: Stream, was: Stream): Stream
  {
    s.(rdbx := s.rdbx.(index := was.rdbx.index), rtcpRdb := was.rtcpRdb)
  }

  /** The first stream with the SSRC of `was` gets its index. */
  predicate Rewritten(xs: seq<Stream>, was: Stream, ys: seq<Stream>)
  {
    var n := FirstFrom(xs, was.ssrc, 0);
    n.Some? && ys == xs[n.value := WithIndexOf(xs[n.value], was)]
  }

  /** What a stream that is freed as one block leaves behind. */
  function LeftBehind(s: Stream): seq<Ptr> { KeysToFree(s, None, 0) + [s.keyBlock] + OwnOption(s.rdbxBits, false) + OwnOption(s.encXtn, false) }

  class Session {
    const heap: Heap
    var self: Ptr
    var list: List
    var template: Option<Stream>
    /** What a refused wildcard update let go without releasing it. */
    ghost var leaked: seq<Ptr>

    ghost function Base(): seq<Ptr>
      reads this
    {
      [self] + leaked
    }

    /** The allocations the session holds or has let go. */
    ghost function Held(): seq<Ptr>
      requires list.size <= list.entries.Length
      reads this, list, list.entries
    {
      Holdings(Base(), list.ptr, list.entriesPtr, template, list.Contents())
    }

    /** The live allocations are those the session holds and those it let go, each once; so nothing it refers
        to was released, and nothing is lost but what is in `leaked`. */
    ghost predicate Valid()
      reads this, heap, list, list.entries
    {
      heap.Valid() && list.Valid() && Owns(heap.live, Held()) && Related(list.Contents(), template)
    }

    function Streams(): seq<Stream>
      requires list.size <= list.entries.Length
      reads this, list, list.entries
    {
      list.Contents()
    }

    /** srtp_create without a policy. */
    constructor (h: Heap)
      requires h.Valid() && h.live == {}
      modifies h
      ensures Valid() && heap == h && fresh(list) && fresh(list.entries) && template == None && Streams() == [] && leaked == []
    {
      hide Made, Owns, Holdings;
      ghost var before := Now(h);
      heap := h;
      template, leaked := None, [];
      NothingMade(before);
      var p := AllocNext(h, before, []);
      self := p;
      ghost var middle := Now(h);
      var l := new List(h);
      list := l;
      new;
      FirstHoldings(before, p, middle, l.ptr, l.entriesPtr, Now(h));
    }

    /** Whether the list can take one more stream. */
    predicate HasRoom()
      reads this, list
    {
      list.size < list.entries.Length || 2 * list.entries.Length <= MAX_CAPACITY
    }

    /** srtp_insert_or_dealloc_stream: a stream that does not fit is released. */
    method InsertOrDealloc(s: Stream) returns (ok: bool)
      requires heap.Valid() && list.Valid() && Related(Streams(), template) && RelatedTo(s, template)
      requires Owns(heap.live, Held() + ToFree(s, template))
      modifies heap, list, list.entries
      ensures Valid() && ok == old(HasRoom()) && heap.next >= old(heap.next)
      ensures list.entries == old(list.entries) || fresh(list.entries)
      ensures Streams() == if ok then old(Streams()) + [s] else old(Streams())
    {
      hide Owns, Holdings, ToFree, Released, RelatedTo;
      ghost var xs, extra, entriesPtr := Streams(), ToFree(s, template), list.entriesPtr;
      EntriesMoved(heap.live, Base(), list.ptr, entriesPtr, entriesPtr, template, xs, extra);
      ok := list.Insert(heap, s);
      EntriesMoved(old(heap.live), Base(), list.ptr, entriesPtr, list.entriesPtr, template, xs, extra);
      if ok {
        HoldingsAppend(Base(), list.ptr, list.entriesPtr, template, xs, s);
      } else {
        ExtraReleased(heap.live, Held(), extra);
        ghost var before := heap.live;
        StreamDealloc(heap, s, template);
        OwnsReleased(before, Held() + extra, extra, heap.live, Held());
      }
    }

    /** srtp_stream_alloc and srtp_stream_init; a stream that is refused is released. */
    method MakeStream(policy: Policy, ssrc: Ssrc) returns (s: Option<Stream>)
      requires Valid() && ValidPolicy(policy)
      modifies heap
      ensures heap.Valid() && s.Some? == WindowOk(policy)
      ensures s.None? ==> Valid()
      ensures s.Some? ==> Made(old(Now(heap)), AllPtrs(s.value), Now(heap)) && Owns(heap.live, Held() + AllPtrs(s.value))
      ensures s.Some? ==> Initialised(s.value, policy, ssrc) && |s.value.keys| > 0
    {
      hide Owns, Holdings, Made, Released, AllPtrs, ToFree, Related, KeysAllocated, Initialised;
      ghost var before, held := Now(heap), Held();
      var tmp := StreamAlloc(heap, policy);
      var ok;
      ok, tmp := StreamInit(heap, tmp, policy, ssrc, before);
      OwnsMade(before, held, AllPtrs(tmp), Now(heap));
      if ok { return Some(tmp); }
      ReleaseExtra(tmp);
      s := None;
    }

    /** srtp_stream_dealloc for a stream that shares nothing. */
    method ReleaseExtra(s: Stream)
      requires heap.Valid() && list.Valid() && Related(Streams(), template) && Owns(heap.live, Held() + AllPtrs(s))
      modifies heap
      ensures Valid()
    {
      hide Owns, Holdings, Released, AllPtrs, ToFree, Related;
      ghost var held, live := Held(), heap.live;
      ExtraReleased(live, held, AllPtrs(s));
      AllIsToFree(s);
      StreamDealloc(heap, s, None);
      OwnsReleased(live, held + AllPtrs(s), AllPtrs(s), heap.live, held);
    }

    /** srtp_stream_add */
    method Add(policy: Policy) returns (status: Status)
      requires Valid()
      modifies this`template, heap, list, list.entries
      ensures Valid() && (list.entries == old(list.entries) || fresh(list.entries))
      ensures Added(policy, old(HasRoom()), old(Streams()), old(template), status, Streams(), template)
    {
      hide Owns, Holdings, Related, ValidPolicy, WindowOk, MadeFrom, Made, AllPtrs, Initialised;
      if !ValidPolicy(policy) { return BadParam; }
      match policy.target {
        case Specific(ssrc) =>
          status := AddSpecific(policy, ssrc);
        case AnyOutbound =>
          status := AddTemplate(policy, Sender);
        case AnyInbound =>
          status := AddTemplate(policy, Receiver);
        case Undefined =>
          var tmp := MakeStream(policy, 0);
          if tmp.Some? { ReleaseExtra(tmp.value); }
          status := BadParam;
      }
    }

    method AddSpecific(policy: Policy, ssrc: Ssrc) returns (status: Status)
      requires Valid() && ValidPolicy(policy)
      modifies heap, list, list.entries
      ensures Valid() && (list.entries == old(list.entries) || fresh(list.entries))
      ensures status == if !WindowOk(policy) then BadParam else if old(HasRoom()) then Ok else AllocFail
      ensures status != Ok ==> Streams() == old(Streams())
      ensures status == Ok ==> Appended(old(Streams()), Streams()) && MadeFrom(Last(Streams()), policy, ssrc, Unknown)
    {
      hide Owns, Holdings, Made, Related, RelatedTo, AllPtrs, ToFree, TemplatePtrs, WindowOk;
      ghost var before, held := Now(heap), Held();
      OwnedBelow(heap, held);
      TemplateHeld(Base(), list.ptr, list.entriesPtr, template, Streams());
      var tmp := MakeStream(policy, ssrc);
      if tmp.None? { return BadParam; }
      NewStreamRelated(before, tmp.value, Now(heap), template, held);
      var ok := InsertOrDealloc(tmp.value);
      return if ok then Ok else AllocFail;
    }

    method AddTemplate(policy: Policy, d: Direction) returns (status: Status)
      requires Valid() && ValidPolicy(policy)
      modifies this`template, heap
      ensures Valid() && Streams() == old(Streams())
      ensures status == if WindowOk(policy) && old(template).None? then Ok else BadParam
      ensures status != Ok ==> template == old(template)
      ensures status == Ok ==> template.Some? && MadeFrom(template.value, policy, 0, d)
    {
      hide Owns, Holdings, Made, AllPtrs, ToFree, Related, RelatedTo, WindowOk;
      ghost var before := Now(heap);
      var tmp := MakeStream(policy, 0);
      if tmp.None? { return BadParam; }
      if template.Some? {
        ReleaseExtra(tmp.value);
        return BadParam;
      }
      MadeAbove(before, AllPtrs(tmp.value), Now(heap));
      var t := tmp.value.(direction := d);
      SameToFree(tmp.value, t, None);
      TemplateSet(before.live, Base(), list.ptr, list.entriesPtr, Streams(), t, heap.live, before.next);
      template := Some(t);
      status := Ok;
    }

    /** srtp_stream_remove */
    method Remove(ssrc: Ssrc) returns (status: Status)
      requires Valid()
      modifies heap, list`size, list.entries
      ensures Valid() && status == if Get(old(Streams()), ssrc).None? then NoCtx else Ok
      ensures Streams() == Removed(old(Streams()), ssrc)
    {
      hide Owns, Holdings, Released, ToFree, RelatedTo, Related;
      ghost var xs := Streams();
      var n := list.Get(ssrc);
      if n.None? { return NoCtx; }
      var stream := list.entries[n.value].stream;
      list.Remove(ssrc);
      HoldingsWithout(Base(), list.ptr, list.entriesPtr, template, xs, n.value);
      ghost var held := Holdings(Base(), list.ptr, list.entriesPtr, template, xs);
      OwnsPart(heap.live, held, ToFree(stream, template), Held());
      ghost var before := heap.live;
      StreamDealloc(heap, stream, template);
      OwnsReleased(before, held, ToFree(stream, template), heap.live, Held());
      RelatedWithout(xs, n.value, template);
      status := Ok;
    }

    /** Writes fields that are not pointers into a stream of the list. */
    method Write(n: nat, s: Stream)
      requires Valid() && n < |Streams()| && SameObjects(Streams()[n], s) && s.ssrc == Streams()[n].ssrc
      modifies list.entries
      ensures Valid() && Streams() == old(Streams())[n := s]
    {
      hide Owns, Holdings, SameObjects, Related;
      HoldingsWrite(Base(), list.ptr, list.entriesPtr, template, Streams(), n, s);
      list.Update(n, s);
    }

    /** Clones the template into the list. */
    method CloneInto(ssrc: Ssrc) returns (ok: bool)
      requires Valid() && template.Some?
      modifies heap, list, list.entries
      ensures Valid() && ok == old(HasRoom()) && (list.entries == old(list.entries) || fresh(list.entries))
      ensures if ok then ClonedIn(old(Streams()), template.value, ssrc, Streams()) else Streams() == old(Streams())
    {
      hide Owns, Holdings, Made, Related, AllPtrs, ToFree, CloneOf;
      ghost var before, held := Now(heap), Held();
      var s := StreamClone(heap, template.value, ssrc);
      OwnsMade(before, held, ToFree(s, template), Now(heap));
      CloneRelated(s, template.value, Streams());
      ok := InsertOrDealloc(s);
    }

    // ----- Packets -----

    /** srtp_protect in place. */
    method Protect(w: Crypto, mkiIndex: nat, buf: array<Byte>, len: nat, capacity: nat) returns (status: Status, outLen: nat)
      requires Valid() && CryptoOk(w) && len <= buf.Length && capacity <= buf.Length
      modifies heap, list, list.entries, buf
      ensures Valid() && (list.entries == old(list.entries) || fresh(list.entries))
      ensures outLen <= buf.Length
      ensures Protected(w, Outgoing(mkiIndex, old(buf[..len]), capacity, old(buf[len..])), old(HasRoom()), old(Streams()),
                        template, Outcome(status, if status == Ok then buf[..outLen] else []), Streams())
      ensures !Writes(status) ==> buf[..] == old(buf[..])
    {
      hide Owns, Holdings, Related, CloneOf, ProtectFor, ProtectOn, ValidRtp, HeadersOf, CryptoOk, Writes, Protected, ClonedIn,
        FirstFrom;
      outLen := 0;
      NotWritten();
      HeadersTell(buf[..len]);
      ghost var o, xs, room := Outgoing(mkiIndex, buf[..len], capacity, buf[len..]), Streams(), HasRoom();
      ProtectRefused(w, o, room, xs, template);
      var hdr := ReadHeaders(buf, len);
      if !hdr.valid { return BadParam, 0; }
      HasHeader(buf[..len]);
      var ssrc := U32(buf[8..12]);
      assert buf[8..12] == buf[..len][8..12];
      var n := list.Get(ssrc);
      if n.Some? {
        FoundIndex(xs, ssrc);
        status, outLen := SendFound(w, n.value, mkiIndex, buf, len, capacity, room);
        return;
      }
      if template.None? { return NoCtx, 0; }
      status, outLen := SendCloned(w, ssrc, mkiIndex, buf, len, capacity);
    }

    /** srtp_protect once the stream is found. */
    method SendFound(w: Crypto, n: nat, mkiIndex: nat, buf: array<Byte>, len: nat, capacity: nat, ghost room: bool)
      returns (status: Status, outLen: nat)
      requires Valid() && CryptoOk(w) && len <= buf.Length && capacity <= buf.Length && ValidRtp(buf[..len])
      requires n < |Streams()| && FirstFrom(Streams(), RtpSsrc(buf[..len]), 0) == Some(n)
      modifies list.entries, buf
      ensures Valid() && outLen <= buf.Length
      ensures Protected(w, Outgoing(mkiIndex, old(buf[..len]), capacity, old(buf[len..])), room, old(Streams()),
                        template, Outcome(status, if status == Ok then buf[..outLen] else []), Streams())
      ensures !Writes(status) ==> buf[..] == old(buf[..])
    {
      hide Owns, Holdings, Related, ProtectFor, ProtectOn, ValidRtp, CryptoOk, Writes, Protected, FirstFrom;
      ghost var o, xs := Outgoing(mkiIndex, buf[..len], capacity, buf[len..]), Streams();
      var s := Marked(list.entries[n].stream, Sender);
      MarkedSame(list.entries[n].stream, Sender);
      var t;
      status, outLen, t := SendThrough(w, s, mkiIndex, buf, len, capacity, o);
      Write(n, t);
      ProtectFound(w, o, room, xs, template, n, Outcome(status, if status == Ok then buf[..outLen] else []), t);
    }

    /** srtp_protect with a clone of the template. */
    method SendCloned(w: Crypto, ssrc: Ssrc, mkiIndex: nat, buf: array<Byte>, len: nat, capacity: nat)
      returns (status: Status, outLen: nat)
      requires Valid() && CryptoOk(w) && len <= buf.Length && capacity <= buf.Length && ValidRtp(buf[..len])
      requires ssrc == RtpSsrc(buf[..len]) && FirstFrom(Streams(), ssrc, 0) == None && template.Some?
      modifies heap, list, list.entries, buf
      ensures Valid() && (list.entries == old(list.entries) || fresh(list.entries)) && outLen <= buf.Length
      ensures Protected(w, Outgoing(mkiIndex, old(buf[..len]), capacity, old(buf[len..])), old(HasRoom()), old(Streams()),
                        template, Outcome(status, if status == Ok then buf[..outLen] else []), Streams())
      ensures !Writes(status) ==> buf[..] == old(buf[..])
    {
      hide Owns, Holdings, Related, CloneOf, ProtectFor, ProtectOn, ValidRtp, CryptoOk, Writes, Protected, ClonedIn, FirstFrom,
        NewClone;
      outLen := 0;
      NotWritten();
      ghost var o, xs, room := Outgoing(mkiIndex, buf[..len], capacity, buf[len..]), Streams(), HasRoom();
      ProtectRefused(w, o, room, xs, template);
      var ok := CloneInto(ssrc);
      if !ok { return AllocFail, 0; }
      ClonedLast(xs, template.value, ssrc, Streams());
      var clone := list.entries[list.size - 1].stream;
      var s := clone.(direction := Sender);
      CloneSent(clone, template.value, ssrc, s);
      var t;
      status, outLen, t := SendThrough(w, s, mkiIndex, buf, len, capacity, o);
      Write(list.size - 1, t);
      LastWritten(xs, clone, t);
      ProtectCloned(w, o, room, xs, template, s, Outcome(status, if status == Ok then buf[..outLen] else []), t);
    }

    method SendThrough(w: Crypto, s: Stream, mkiIndex: nat, buf: array<Byte>, len: nat, capacity: nat, ghost o: Outgoing)
      returns (status: Status, outLen: nat, t: Stream)
      requires CryptoOk(w) && len <= buf.Length && capacity <= buf.Length && ValidRtp(buf[..len])
      requires o == Outgoing(mkiIndex, buf[..len], capacity, buf[len..])
      modifies buf
      ensures outLen <= buf.Length
      ensures Sent(Outcome(status, if status == Ok then buf[..outLen] else []), t) == ProtectFor(w, s, o)
      ensures t == s.(rdbx := t.rdbx, pendingRoc := t.pendingRoc) && |t.rdbx.bits| == |s.rdbx.bits|
      ensures !Writes(status) ==> buf[..] == old(buf[..])
    {
      hide ProtectOn, ValidRtp, CryptoOk, Writes;
      SentSame(w, s, mkiIndex, o.packet, capacity, o.after);
      FailedIsEmpty(w, s, o);
      status, outLen, t := ProtectOnStream(w, s, mkiIndex, buf, len, capacity);
      if status != Ok { outLen := 0; }
    }

    /** srtp_unprotect in place: the template stands in for a stream that is not there yet, and only a packet
        that passes brings one. */
    method Unprotect(w: Crypto, buf: array<Byte>, len: nat, capacity: nat) returns (status: Status, outLen: nat)
      requires Valid() && CryptoOk(w) && len <= buf.Length
      modifies this`template, heap, list, list.entries, buf
      ensures Valid() && (list.entries == old(list.entries) || fresh(list.entries))
      ensures outLen <= buf.Length
      ensures Unprotected(w, old(buf[..len]), capacity, old(HasRoom()), old(Streams()), old(template),
                          Outcome(status, if status == Ok then buf[..outLen] else []), Streams(), template)
    {
      hide Owns, Holdings, Related, CloneOf, UnprotectOn, ValidRtp, HeadersOf, CryptoOk, TakeIndex, FirstIndex, Unprotected,
        ClonedIn, FirstFrom;
      outLen := 0;
      HeadersTell(buf[..len]);
      ghost var pkt, xs, t0, room := buf[..len], Streams(), template, HasRoom();
      UnprotectRefused(w, pkt, capacity, room, xs, t0);
      var hdr := ReadHeaders(buf, len);
      if !hdr.valid { return BadParam, 0; }
      HasHeader(buf[..len]);
      var ssrc := U32(buf[8..12]);
      assert buf[8..12] == buf[..len][8..12];
      var seqNo := U16(buf[2], buf[3]);
      var n := list.Get(ssrc);
      if n.Some? {
        FoundIndex(xs, ssrc);
        status, outLen := ReceiveFound(w, n.value, seqNo, buf, len, capacity, room);
        return;
      }
      if template.None? { return NoCtx, 0; }
      status, outLen := ReceiveProvisional(w, ssrc, seqNo, buf, len, capacity);
    }

    /** srtp_unprotect with the template in place of the stream. */
    method ReceiveProvisional(w: Crypto, ssrc: Ssrc, seqNo: Word16, buf: array<Byte>, len: nat, capacity: nat)
      returns (status: Status, outLen: nat)
      requires Valid() && CryptoOk(w) && len <= buf.Length && ValidRtp(buf[..len]) && template.Some?
      requires ssrc == RtpSsrc(buf[..len]) && seqNo == RtpSeq(buf[..len]) && FirstFrom(Streams(), ssrc, 0) == None
      modifies this`template, heap, list, list.entries, buf
      ensures Valid() && (list.entries == old(list.entries) || fresh(list.entries)) && outLen <= buf.Length
      ensures Unprotected(w, old(buf[..len]), capacity, old(HasRoom()), old(Streams()), old(template),
                          Outcome(status, if status == Ok then buf[..outLen] else []), Streams(), template)
    {
      hide Owns, Holdings, Related, CloneOf, UnprotectOn, ValidRtp, CryptoOk, FirstIndex, Unprotected, ClonedIn, FirstFrom,
        NewClone;
      ghost var pkt, xs, t0, room := buf[..len], Streams(), template, HasRoom();
      var s := template.value;
      var ix := FirstIndex(|s.rdbx.bits|, seqNo);
      OpenedIsEmpty(w, s, ix, pkt, capacity);
      status, outLen := UnprotectOnStream(w, s, ix, buf, len, capacity);
      ghost var result := Outcome(status, if status == Ok then buf[..outLen] else []);
      UnprotectProvisional(w, pkt, capacity, room, xs, t0, result);
      if status != Ok { return status, 0; }
      var t := Marked(s, Receiver);
      MarkedSame(s, Receiver);
      HoldingsTemplate(Base(), list.ptr, list.entriesPtr, template.value, t, Streams());
      template := Some(t);
      var ok := CloneInto(ssrc);
      if !ok { return AllocFail, 0; }
      ClonedLast(xs, t, ssrc, Streams());
      var clone := list.entries[list.size - 1].stream;
      ReachedSame(clone, ix);
      Write(list.size - 1, Reached(clone, ix));
      LastWritten(xs, clone, Reached(clone, ix));
      UnprotectCloned(w, pkt, capacity, room, xs, t0, clone, result);
    }

    /** srtp_unprotect once the stream is found. */
    method ReceiveFound(w: Crypto, n: nat, seqNo: Word16, buf: array<Byte>, len: nat, capacity: nat, ghost room: bool)
      returns (status: Status, outLen: nat)
      requires Valid() && CryptoOk(w) && len <= buf.Length && ValidRtp(buf[..len]) && n < |Streams()|
      requires FirstFrom(Streams(), RtpSsrc(buf[..len]), 0) == Some(n) && seqNo == RtpSeq(buf[..len])
      modifies list.entries, buf
      ensures Valid() && outLen <= buf.Length
      ensures Unprotected(w, old(buf[..len]), capacity, room, old(Streams()), template,
                          Outcome(status, if status == Ok then buf[..outLen] else []), Streams(), template)
    {
      hide Owns, Holdings, Related, UnprotectOn, ValidRtp, CryptoOk, TakeIndex, Unprotected, FirstFrom;
      ghost var pkt, xs := buf[..len], Streams();
      var s := list.entries[n].stream;
      var ix := TakeIndex(s.rdbx, s.pendingRoc, seqNo, false);
      OpenedIsEmpty(w, s, ix, pkt, capacity);
      status, outLen := UnprotectOnStream(w, s, ix, buf, len, capacity);
      if status == Ok {
        MarkedSame(s, Receiver);
        ReachedSame(Marked(s, Receiver), ix);
        Write(n, Reached(Marked(s, Receiver), ix));
      } else {
        outLen := 0;
      }
      UnprotectFound(w, pkt, capacity, room, xs, template, n, Outcome(status, if status == Ok then buf[..outLen] else []));
    }

    // ----- Template update -----

    /** An update under way: what is left in the session's list, and what the new list has. */
    ghost predicate Between(was: seq<Stream>, t2: Stream, list2: List)
      reads this, heap, list, list.entries, list2, list2.entries
    {
      heap.Valid() && list.Valid() && list2.Valid() && list2 != list && list2.entries != list.entries && template.Some?
      && Updating(heap.live, Held(), Beside(t2, list2.ptr, list2.entriesPtr, list2.Contents()), was, Streams(),
                  list2.Contents(), template.value, t2)
    }

    lemma BetweenIs(was: seq<Stream>, t2: Stream, list2: List)
      requires Between(was, t2, list2)
      ensures |list2.Contents()| <= |was| && Streams() == was[|list2.Contents()|..]
    {
      hide Owns, Holdings, Beside, Related, AllCarried, AllApart;
    }

    /** Puts u, the carried form of the stream just taken out, into the new list, or releases it. */
    method PutInto(u: Stream, t2: Stream, list2: List, ghost was: seq<Stream>) returns (ok: bool)
      requires heap.Valid() && list.Valid() && list2.Valid() && list2 != list && list2.entries != list.entries && template.Some?
      requires Owns(heap.live, Held() + Beside(t2, list2.ptr, list2.entriesPtr, list2.Contents()) + ToFree(u, Some(t2)))
      requires |list2.Contents()| < |was| && Streams() == was[|list2.Contents()| + 1..]
      requires AllCarried(was, list2.Contents(), template.value, t2)
      requires Carried(was[|list2.Contents()|], u, template.value, t2) && RelatedTo(u, Some(t2))
      requires Related(Streams(), template) && AllApart(Streams(), t2) && Related(list2.Contents(), Some(t2)) && |t2.keys| > 0
      modifies heap, list2, list2.entries
      ensures heap.Valid() && list2.Valid() && list2.ptr == old(list2.ptr) && heap.next >= old(heap.next)
      ensures list2.entries == old(list2.entries) || fresh(list2.entries)
      ensures ok ==> Between(was, t2, list2) && |list2.Contents()| == |old(list2.Contents())| + 1
      ensures !ok ==> Owns(heap.live, Held() + Beside(t2, list2.ptr, list2.entriesPtr, list2.Contents()))
    {
      hide Owns, Holdings, Beside, ToFree, Released, Related, RelatedTo, AllApart, Carried, AllCarried, Updating;
      ghost var ys, held, ep := list2.Contents(), Held(), list2.entriesPtr;
      BesideMoved(heap.live, held, t2, list2.ptr, ep, ep, ys, ToFree(u, Some(t2)));
      ok := list2.Insert(heap, u);
      BesideMoved(old(heap.live), held, t2, list2.ptr, ep, list2.entriesPtr, ys, ToFree(u, Some(t2)));
      if ok {
        CarryOn(heap.live, held, template.value, t2, list2.ptr, list2.entriesPtr, was, Streams(), ys, u);
      } else {
        ghost var all := held + Beside(t2, list2.ptr, list2.entriesPtr, ys);
        ExtraReleased(heap.live, all, ToFree(u, Some(t2)));
        ghost var before := heap.live;
        StreamDealloc(heap, u, Some(t2));
        OwnsReleased(before, all + ToFree(u, Some(t2)), ToFree(u, Some(t2)), heap.live, all);
      }
    }

    /** update_template_stream_cb for the first stream of the list. */
    method CarryFirst(stream: Stream, t2: Stream, list2: List, ghost was: seq<Stream>) returns (ok: bool)
      requires Between(was, t2, list2) && Streams() != [] && stream == Streams()[0]
      modifies heap, list`size, list.entries, list2, list2.entries
      ensures heap.Valid() && list.Valid() && list2.Valid() && list2.ptr == old(list2.ptr)
      ensures list2.entries == old(list2.entries) || fresh(list2.entries)
      ensures Streams() == old(Streams())[1..] && Related(Streams(), template)
      ensures ok ==> Between(was, t2, list2)
      ensures !ok ==> Owns(heap.live, Held() + Beside(t2, list2.ptr, list2.entriesPtr, list2.Contents()))
    {
      hide Owns, Holdings, Beside, ToFree, Released, Related, RelatedTo, AllApart, Apart, CloneOf, Carried, AllCarried;
      ghost var xs, ys, live := Streams(), list2.Contents(), heap.live;
      ghost var beside := Beside(t2, list2.ptr, list2.entriesPtr, ys);
      var t := template.value;
      TakeFirst(live, Base(), list.ptr, list.entriesPtr, t, t2, was, xs, ys, beside);
      list.Remove(stream.ssrc);
      var u := CarriedForm(stream, t2, Held() + beside);
      ok := PutInto(u, t2, list2, was);
    }

    /** The stream itself if its keys are not the template's, else a clone of the new template. */
    method CarriedForm(stream: Stream, t2: Stream, ghost all: seq<Ptr>) returns (u: Stream)
      requires heap.Valid() && template.Some? && RelatedTo(stream, template) && |template.value.keys| > 0
      requires Apart(stream, t2) && |t2.keys| > 0 && Owns(heap.live, all + ToFree(stream, template))
      modifies heap
      ensures heap.Valid() && Owns(heap.live, all + ToFree(u, Some(t2)))
      ensures Carried(stream, u, template.value, t2) && RelatedTo(u, Some(t2))
    {
      hide Owns, ToFree, RelatedTo, Apart, CloneOf, Carried;
      u := stream;
      AuthTells(stream, template.value);
      if stream.keys[0].rtpAuth != template.value.keys[0].rtpAuth {
        ApartCarried(stream, template.value, t2);
      } else {
        u := Reclone(stream, t2, all);
      }
    }

    /** Releases a clone of the template and makes one of the new template with its replay state.  (The
        source writes that state once the clone is in the list.) */
    method Reclone(stream: Stream, t2: Stream, ghost all: seq<Ptr>) returns (u: Stream)
      requires heap.Valid() && template.Some? && CloneOf(stream, template.value) && !Apart(stream, template.value)
      requires |t2.keys| > 0 && Owns(heap.live, all + ToFree(stream, template))
      modifies heap
      ensures heap.Valid() && Owns(heap.live, all + ToFree(u, Some(t2)))
      ensures Carried(stream, u, template.value, t2) && RelatedTo(u, Some(t2))
    {
      hide Owns, ToFree, Released, RelatedTo, Apart, CloneOf, Carried, Made;
      ghost var live := heap.live;
      ExtraReleased(live, all, ToFree(stream, template));
      StreamDealloc(heap, stream, template);
      OwnsReleased(live, all + ToFree(stream, template), ToFree(stream, template), heap.live, all);
      ghost var before := Now(heap);
      var clone := StreamClone(heap, t2, stream.ssrc);
      OwnsMade(before, all, ToFree(clone, Some(t2)), Now(heap));
      u := WithIndexOf(clone, stream);
      CloneCarried(stream, clone, u, template.value, t2);
    }

    /** srtp_remove_and_dealloc_streams: srtp_stream_list_for_each with a callback that takes the visited entry
        out, so that the index never moves and the next stream is always at the front. */
    method ReleaseStreams(l: List, t: Option<Stream>, ghost rest: seq<Ptr>)
      requires heap.Valid() && l.Valid() && Owns(heap.live, rest + AllToFree(l.Contents(), t))
      modifies heap, l`size, l.entries
      ensures heap.Valid() && l.Valid() && l.Contents() == [] && Owns(heap.live, rest) && heap.next == old(heap.next)
    {
      hide Owns, ToFree, Released;
      var entries, size := l.entries, l.size;
      var i := 0;
      while i < l.size
        invariant i == 0 && size == l.size && entries == l.entries
        invariant heap.Valid() && l.Valid() && heap.next == old(heap.next)
        invariant l.entries == old(l.entries) && l.ptr == old(l.ptr) && l.entriesPtr == old(l.entriesPtr)
        invariant Owns(heap.live, rest + AllToFree(l.Contents(), t))
        decreases l.size
      {
        var stream := entries[i].stream;
        ReleaseFirst(heap.live, rest, l.Contents(), t);
        l.Remove(stream.ssrc);
        StreamDealloc(heap, stream, t);
        if size == l.size { i := i + 1; }
        size := l.size;
      }
      assert rest + [] == rest;
    }

    /** Gives up an update: what was already carried over goes with the new list and template. */
    method AbandonUpdate(t2: Stream, list2: List)
      requires heap.Valid() && list.Valid() && list2.Valid() && list2 != list && list2.entries != list.entries
      requires Related(Streams(), template)
      requires Owns(heap.live, Held() + Beside(t2, list2.ptr, list2.entriesPtr, list2.Contents()))
      modifies heap, list2`size, list2.entries
      ensures Valid() && Streams() == old(Streams())
    {
      hide Owns, ToFree, Released, Holdings, Related;
      ghost var held := Held();
      Regroup(held, AllPtrs(t2) + [list2.ptr, list2.entriesPtr], AllToFree(list2.Contents(), Some(t2)));
      ReleaseStreams(list2, Some(t2), held + (AllPtrs(t2) + [list2.ptr, list2.entriesPtr]));
      BesideReleased(heap.live, held, t2, list2.ptr, list2.entriesPtr);
      var emptied := list2.Dealloc(heap);
      ExtraReleased(heap.live, held, AllPtrs(t2));
      ghost var before := heap.live;
      StreamDealloc(heap, t2, None);
      OwnsReleased(before, held + AllPtrs(t2), AllPtrs(t2), heap.live, held);
    }

    /** The old list and template are released and the new ones take their place. */
    method Switch(t2: Stream, list2: List, ghost was: seq<Stream>)
      requires Between(was, t2, list2) && Streams() == []
      modifies this`list, this`template, heap
      ensures Valid() && list == list2 && template == Some(t2) && Streams() == old(list2.Contents())
      ensures AllCarried(was, Streams(), old(template).value, t2) && |Streams()| == |was|
    {
      hide Owns, ToFree, Released, Holdings, Related, Beside, AllCarried;
      ghost var live, ys := heap.live, list2.Contents();
      ListReleased(live, Base(), list.ptr, list.entriesPtr, template, Beside(t2, list2.ptr, list2.entriesPtr, ys));
      var emptied := list.Dealloc(heap);
      Switched(heap.live, Base(), template.value, t2, list2.ptr, list2.entriesPtr, ys);
      StreamDealloc(heap, template.value, None);
      template, list := Some(t2), list2;
    }

    /** The new list beside the new template. */
    method PrepareUpdate(t2: Stream, ghost before: Moment) returns (list2: List)
      requires heap.Valid() && list.Valid() && Related(Streams(), template) && template.Some? && |t2.keys| > 0
      requires Owns(before.live, Held()) && Consistent(before) && Made(before, AllPtrs(t2), Now(heap))
      modifies heap
      ensures Between(Streams(), t2, list2) && fresh(list2) && fresh(list2.entries) && list2.Contents() == []
    {
      hide Owns, Holdings, Made, Beside, Related, AllPtrs, ToFree, Updating, Consistent;
      ghost var middle := Now(heap);
      list2 := new List(heap);
      UpdateBegins(before, Base(), list.ptr, list.entriesPtr, template.value, Streams(), t2, middle, list2.ptr, list2.entriesPtr, Now(heap));
    }

    /** srtp_crypto_free on a stream whose initialisation failed: only its own block goes. */
    method FreeStructOnly(s: Stream)
      requires heap.Valid() && list.Valid() && Related(Streams(), template) && Owns(heap.live, Held() + AllPtrs(s))
      modifies this`leaked, heap
      ensures Valid() && leaked == old(leaked) + LeftBehind(s)
    {
      hide Owns, Holdings, Related, AllPtrs, LeftBehind;
      ghost var held := Held();
      AllButStruct(s);
      Regroup(held, LeftBehind(s), [s.id]);
      DropLast(heap.live, held + LeftBehind(s), s.id);
      heap.Free(s.id);
      HoldingsLeft(Base(), LeftBehind(s), list.ptr, list.entriesPtr, template, Streams());
      BaseGrows([self], leaked, LeftBehind(s));
      leaked := leaked + LeftBehind(s);
      OwnsSame(heap.live, held + LeftBehind(s), Held());
    }

    /** srtp_update for a wildcard policy (update_template_streams). */
    method UpdateTemplate(policy: Policy) returns (status: Status)
      requires Valid()
      modifies this`list, this`template, this`leaked, heap, list`size, list.entries
      ensures Valid() && (list == old(list) || fresh(list)) && (list.entries == old(list.entries) || fresh(list.entries))
      ensures TemplateUpdated(policy, old(Streams()), old(template), status, Streams(), template)
      ensures leaked == old(leaked) <==> !ReachesInit(policy, old(template)) || WindowOk(policy)
      ensures |leaked| >= |old(leaked)|
    {
      hide Owns, Holdings, Beside, Related, AllCarried, ValidPolicy, WindowOk, Compatible, Updating, Made, AllPtrs, KeysAllocated,
        LeftBehind, LostSome, MadeFrom, Initialised, Consistent;
      if !ValidPolicy(policy) || template.None? { return BadParam; }
      if !Compatible(template.value, policy) { return BadParam; }
      ghost var was, before, held := Streams(), Now(heap), Held();
      HeapConsistent(heap);
      var t2 := StreamAlloc(heap, policy);
      HasPolicyKeys(policy, t2);
      var ok;
      ok, t2 := StreamInit(heap, t2, policy, 0, before);
      if !ok {
        OwnsMade(before, held, AllPtrs(t2), Now(heap));
        LeavesSome(t2, leaked);
        FreeStructOnly(t2);
        return BadParam;
      }
      InitialisedMade(t2, policy);
      var list2 := PrepareUpdate(t2, before);
      ok := CarryAll(t2, list2, was);
      if ok {
        Switch(t2, list2, was);
        status := Ok;
      } else {
        AbandonUpdate(t2, list2);
        status := AllocFail;
      }
    }

    /** srtp_stream_list_for_each over the session's list: the callback takes each stream out of it and puts it
        into the new list, so that the index never moves. */
    method CarryAll(t2: Stream, list2: List, ghost was: seq<Stream>) returns (ok: bool)
      requires Between(was, t2, list2) && Streams() == was
      modifies heap, list`size, list.entries, list2, list2.entries
      ensures list2.entries == old(list2.entries) || fresh(list2.entries)
      ensures ok ==> Between(was, t2, list2) && Streams() == []
      ensures !ok ==> heap.Valid() && list.Valid() && list2.Valid() && Related(Streams(), template) && LostSome(was, Streams())
      ensures !ok ==> Owns(heap.live, Held() + Beside(t2, list2.ptr, list2.entriesPtr, list2.Contents()))
      ensures list2.ptr == old(list2.ptr)
    {
      hide Owns, Holdings, Beside, Related, Updating, LostSome;
      var entries, size := list.entries, list.size;
      var i := 0;
      while i < list.size
        invariant i == 0 && size == list.size && entries == list.entries
        invariant Between(was, t2, list2) && list2.ptr == old(list2.ptr)
        invariant list2.entries == old(list2.entries) || fresh(list2.entries)
        decreases list.size
      {
        BetweenIs(was, t2, list2);
        ghost var xs := Streams();
        ok := CarryFirst(entries[i].stream, t2, list2, was);
        if !ok {
          OneMoreLost(was, xs);
          return;
        }
        if size == list.size { i := i + 1; }
        size := list.size;
      }
      ok := true;
    }

    // ----- One stream's update, and the end -----

    /** srtp_update for one SSRC (stream_update): the stream is removed and made anew at the end of the list,
        with its index. */
    method UpdateStream(policy: Policy) returns (status: Status)
      requires Valid() && policy.target.Specific?
      modifies this`template, heap, list, list.entries
      ensures Valid() && (list.entries == old(list.entries) || fresh(list.entries))
      ensures StreamUpdated(policy, old(Streams()), status, Streams()) && template == old(template)
    {
      hide Owns, Holdings, Related, ValidPolicy, WindowOk, Compatible, FirstFrom, WithIndexOf, Added, StreamUpdated;
      ghost var xs := Streams();
      UpdateRefused(policy, xs);
      if !ValidPolicy(policy) { return BadParam; }
      var ssrc := policy.target.ssrc;
      var n := list.Get(ssrc);
      if n.None? { return BadParam; }
      var stream := list.entries[n.value].stream;
      if !Compatible(stream, policy) { return BadParam; }
      var removed := Remove(ssrc);
      ShorterHasRoom(xs, ssrc);
      status := Add(policy);
      UpdateAdded(policy, xs, old(template), status, Streams(), template);
      if status != Ok { return; }
      n := list.Get(ssrc);
      var s := list.entries[n.value].stream;
      IndexSame(s, stream);
      Write(n.value, WithIndexOf(s, stream));
    }

    /** srtp_dealloc: every allocation the session holds is released, each once; what it let go before stays. */
    method Dealloc()
      requires Valid()
      modifies heap, list`size, list.entries
      ensures heap.Valid() && heap.next == old(heap.next) && Owns(heap.live, leaked)
    {
      hide Owns, Holdings, AllToFree, TemplatePtrs, Related;
      HoldingsInFour(self, leaked, list.ptr, list.entriesPtr, template, Streams());
      OwnsSame(heap.live, Held(), (leaked + [self, list.ptr, list.entriesPtr]) + TemplatePtrs(template) + AllToFree(Streams(), template));
      ReleaseStreams(list, template, (leaked + [self, list.ptr, list.entriesPtr]) + TemplatePtrs(template));
      ReleaseTemplate(leaked + [self, list.ptr, list.entriesPtr]);
      LastThree(heap.live, leaked, self, list.ptr, list.entriesPtr);
      var emptied := list.Dealloc(heap);
      heap.Free(self);
    }

    method ReleaseTemplate(ghost rest: seq<Ptr>)
      requires heap.Valid() && Owns(heap.live, rest + TemplatePtrs(template))
      modifies heap
      ensures heap.Valid() && heap.next == old(heap.next) && Owns(heap.live, rest)
    {
      hide Owns, ToFree, Released, TemplatePtrs;
      if template.Some? {
        TemplateIsAll(template);
        ExtraReleased(heap.live, rest, TemplatePtrs(template));
        ghost var before := heap.live;
        StreamDealloc(heap, template.value, None);
        OwnsReleased(before, rest + TemplatePtrs(template), TemplatePtrs(template), heap.live, rest);
      } else {
        NoTemplate();
        assert rest + [] == rest;
      }
    }
  }

  lemma HoldingsInFour(self: Ptr, leaked: seq<Ptr>, lp: Ptr, ep: Ptr, t: Option<Stream>, xs: seq<Stream>)
    ensures multiset(Holdings([self] + leaked, lp, ep, t, xs))
         == multiset((leaked + [self, lp, ep]) + TemplatePtrs(t) + AllToFree(xs, t))
  {
    hide TemplatePtrs, AllToFree;
    assert [self, lp, ep] == [self] + [lp, ep];
    SwapFront([self], leaked, [lp, ep], TemplatePtrs(t), AllToFree(xs, t));
  }

  lemma SwapFront(a: seq<Ptr>, b: seq<Ptr>, c: seq<Ptr>, d: seq<Ptr>, e: seq<Ptr>)
    ensures multiset(a + b + c + d + e) == multiset((b + (a + c)) + d + e)
  {
    forall p: Ptr ensures multiset(a + b + c + d + e)[p] == multiset((b + (a + c)) + d + e)[p] {
      assert multiset(a + b + c + d + e)[p] == multiset(a)[p] + multiset(b)[p] + multiset(c)[p] + multiset(d)[p] + multiset(e)[p];
    }
  }

  lemma TemplateIsAll(t: Option<Stream>)
    requires t.Some?
    ensures TemplatePtrs(t) == ToFree(t.value, None)
  {
  }

  lemma NoTemplate()
    ensures TemplatePtrs(None) == []
  {
  }

  lemma LastThree(live: set<Ptr>, rest: seq<Ptr>, a: Ptr, b: Ptr, c: Ptr)
    requires Owns(live, rest + [a, b, c])
    ensures a in live && b in live && c in live && a != b && a != c && b != c
    ensures Owns(live - {c} - {b} - {a}, rest)
  {
    hide Owns;
    assert rest + [a, b, c] == rest + [a] + [b] + [c];
    DropLast(live, rest + [a] + [b], c);
    assert a in rest + [a] + [b] && b in rest + [a] + [b];
    DropLast(live - {c}, rest + [a], b);
    assert a in rest + [a];
    DropLast(live - {c} - {b}, rest, a);
  }

  lemma AllButStruct(s: Stream)
    ensures AllPtrs(s) == LeftBehind(s) + [s.id]
  {
    hide KeysToFree, OwnOption;
    var (a, b, c) := (OwnOption(s.rdbxBits, false), OwnOption(s.encXtn, false), KeysToFree(s, None, 0));
    assert c + ([s.keyBlock] + a + b + [s.id]) == c + [s.keyBlock] + a + b + [s.id];
  }

  lemma LeavesSome(s: Stream, leaked: seq<Ptr>)
    ensures LeftBehind(s) != [] && leaked + LeftBehind(s) != leaked
  {
    assert s.keyBlock in LeftBehind(s);
    assert |leaked + LeftBehind(s)| > |leaked|;
  }

  lemma HoldingsLeft(base: seq<Ptr>, more: seq<Ptr>, lp: Ptr, ep: Ptr, t: Option<Stream>, xs: seq<Stream>)
    ensures multiset(Holdings(base, lp, ep, t, xs) + more) == multiset(Holdings(base + more, lp, ep, t, xs))
  {
    hide TemplatePtrs, AllToFree;
    ShuffleMore(base, [lp, ep], TemplatePtrs(t), AllToFree(xs, t), more);
  }

  lemma ShuffleMore(a: seq<Ptr>, b: seq<Ptr>, c: seq<Ptr>, d: seq<Ptr>, e: seq<Ptr>)
    ensures multiset(a + b + c + d + e) == multiset(a + e + b + c + d)
  {
    forall p: Ptr ensures multiset(a + b + c + d + e)[p] == multiset(a + e + b + c + d)[p] {
      assert multiset(a + b + c + d + e)[p] == multiset(a)[p] + multiset(b)[p] + multiset(c)[p] + multiset(d)[p] + multiset(e)[p];
    }
  }

  lemma BaseGrows(a: seq<Ptr>, b: seq<Ptr>, c: seq<Ptr>)
    ensures a + (b + c) == a + b + c
  {
  }

  lemma HasPolicyKeys(policy: Policy, s: Stream)
    requires ValidPolicy(policy) && |s.keys| == policy.numKeys
    ensures |s.keys| > 0
  {
  }

  lemma InitialisedMade(s: Stream, policy: Policy)
    requires Initialised(s, policy, 0)
    ensures MadeFrom(s, policy, 0, Unknown)
  {
  }

  lemma OneMoreLost(was: seq<Stream>, xs: seq<Stream>)
    requires 0 < |xs| <= |was| && xs == was[|was| - |xs|..]
    ensures LostSome(was, xs[1..])
  {
  }

  lemma FoundIndex(xs: seq<Stream>, ssrc: Ssrc)
    ensures var n := FirstFrom(xs, ssrc, 0); n.Some? ==> n.value < |xs| && xs[n.value].ssrc == ssrc
  {
  }

  lemma MarkedSame(s: Stream, d: Direction)
    ensures SameObjects(s, Marked(s, d)) && Marked(s, d).ssrc == s.ssrc
  {
  }

  lemma IndexSame(s: Stream, was: Stream)
    ensures SameObjects(s, WithIndexOf(s, was)) && WithIndexOf(s, was).ssrc == s.ssrc
  {
  }

  lemma ReachedSame(s: Stream, ix: Indexed)
    requires ix.Taken?
    ensures SameObjects(s, Reached(s, ix)) && Reached(s, ix).ssrc == s.ssrc
  {
  }

  lemma ClonedLast(xs: seq<Stream>, t: Stream, ssrc: Ssrc, ys: seq<Stream>)
    requires ClonedIn(xs, t, ssrc, ys)
    ensures ys != [] && ys == xs + [ys[|ys| - 1]] && NewClone(ys[|ys| - 1], t, ssrc, t.direction)
    ensures |ys| == |xs| + 1
  {
    hide NewClone;
  }

  lemma LastWritten(xs: seq<Stream>, s: Stream, t: Stream)
    ensures (xs + [s])[|xs| := t] == xs + [t]
  {
  }

  lemma CloneSent(clone: Stream, t: Stream, ssrc: Ssrc, s: Stream)
    requires NewClone(clone, t, ssrc, t.direction) && s == clone.(direction := Sender)
    ensures NewClone(s, t, ssrc, Sender)
  {
    CloneOfSame(clone, s, t);
    hide CloneOf;
  }

  // ----- The cases of a packet -----

  lemma ProtectRefused(w: Crypto, o: Outgoing, room: bool, xs: seq<Stream>, t: Option<Stream>)
    requires CryptoOk(w) && Fits(o)
    ensures !ValidRtp(o.packet) ==> Protected(w, o, room, xs, t, Failed(BadParam), xs)
    ensures ValidRtp(o.packet) && FirstFrom(xs, RtpSsrc(o.packet), 0).None? ==>
              && (t.None? ==> Protected(w, o, room, xs, t, Failed(NoCtx), xs))
              && (t.Some? && !room ==> Protected(w, o, room, xs, t, Failed(AllocFail), xs))
  {
  }

  lemma ProtectFound(w: Crypto, o: Outgoing, room: bool, xs: seq<Stream>, t: Option<Stream>, n: nat, result: Outcome, s: Stream)
    requires CryptoOk(w) && Fits(o) && ValidRtp(o.packet) && n < |xs|
    requires FirstFrom(xs, RtpSsrc(o.packet), 0) == Some(n) && Sent(result, s) == ProtectFor(w, Marked(xs[n], Sender), o)
    ensures Protected(w, o, room, xs, t, result, xs[n := s])
  {
    hide ProtectFor, FirstFrom, ValidRtp, CryptoOk;
  }

  lemma ProtectCloned(w: Crypto, o: Outgoing, room: bool, xs: seq<Stream>, t: Option<Stream>, clone: Stream, result: Outcome, s: Stream)
    requires CryptoOk(w) && Fits(o) && ValidRtp(o.packet) && t.Some? && room
    requires FirstFrom(xs, RtpSsrc(o.packet), 0) == None && NewClone(clone, t.value, RtpSsrc(o.packet), Sender)
    requires Sent(result, s) == ProtectFor(w, clone, o)
    requires s == clone.(rdbx := s.rdbx, pendingRoc := s.pendingRoc) && |s.rdbx.bits| == |clone.rdbx.bits|
    ensures Protected(w, o, room, xs, t, result, xs + [s])
  {
    hide ProtectFor, FirstFrom, ValidRtp, CryptoOk, CloneOf;
    UnusedAgain(clone, s, t.value);
  }

  lemma UnprotectRefused(w: Crypto, pkt: Octets, capacity: nat, room: bool, xs: seq<Stream>, t: Option<Stream>)
    requires CryptoOk(w)
    ensures !ValidRtp(pkt) ==> Unprotected(w, pkt, capacity, room, xs, t, Failed(BadParam), xs, t)
    ensures ValidRtp(pkt) && FirstFrom(xs, RtpSsrc(pkt), 0).None? && t.None? ==>
              Unprotected(w, pkt, capacity, room, xs, t, Failed(NoCtx), xs, t)
  {
  }

  lemma UnprotectFound(w: Crypto, pkt: Octets, capacity: nat, room: bool, xs: seq<Stream>, t: Option<Stream>, n: nat, result: Outcome)
    requires CryptoOk(w) && ValidRtp(pkt) && n < |xs| && FirstFrom(xs, RtpSsrc(pkt), 0) == Some(n)
    requires result == UnprotectOn(w, xs[n], TakeIndex(xs[n].rdbx, xs[n].pendingRoc, RtpSeq(pkt), false), pkt, capacity)
    ensures var ix := TakeIndex(xs[n].rdbx, xs[n].pendingRoc, RtpSeq(pkt), false);
            Unprotected(w, pkt, capacity, room, xs, t, result,
                        if result.status == Ok && ix.Taken? then xs[n := Reached(Marked(xs[n], Receiver), ix)] else xs, t)
  {
    hide UnprotectOn, FirstFrom, ValidRtp, CryptoOk, TakeIndex;
  }

  /** Without a stream of its own the packet is tried with the template. */
  lemma UnprotectProvisional(w: Crypto, pkt: Octets, capacity: nat, room: bool, xs: seq<Stream>, t: Option<Stream>, result: Outcome)
    requires CryptoOk(w) && ValidRtp(pkt) && t.Some? && FirstFrom(xs, RtpSsrc(pkt), 0) == None
    requires result == UnprotectOn(w, t.value, FirstIndex(|t.value.rdbx.bits|, RtpSeq(pkt)), pkt, capacity)
    ensures result.status != Ok ==> Unprotected(w, pkt, capacity, room, xs, t, result, xs, t)
    ensures result.status == Ok && !room ==>
              Unprotected(w, pkt, capacity, room, xs, t, Failed(AllocFail), xs, Some(Marked(t.value, Receiver)))
  {
    hide UnprotectOn, FirstFrom, ValidRtp, CryptoOk, FirstIndex;
  }

  lemma UnprotectCloned(w: Crypto, pkt: Octets, capacity: nat, room: bool, xs: seq<Stream>, t: Option<Stream>, clone: Stream, result: Outcome)
    requires CryptoOk(w) && ValidRtp(pkt) && t.Some? && room && FirstFrom(xs, RtpSsrc(pkt), 0) == None
    requires result == UnprotectOn(w, t.value, FirstIndex(|t.value.rdbx.bits|, RtpSeq(pkt)), pkt, capacity) && result.status == Ok
    requires var u := Marked(t.value, Receiver); NewClone(clone, u, RtpSsrc(pkt), u.direction)
    ensures var ix := FirstIndex(|t.value.rdbx.bits|, RtpSeq(pkt));
            Unprotected(w, pkt, capacity, room, xs, t, result, xs + [Reached(clone, ix)], Some(Marked(t.value, Receiver)))
  {
    FirstLength(|t.value.rdbx.bits|, RtpSeq(pkt));
    hide UnprotectOn, FirstFrom, ValidRtp, CryptoOk, CloneOf, FirstIndex;
    var ix := FirstIndex(|t.value.rdbx.bits|, RtpSeq(pkt));
    UnusedAgain(clone, Reached(clone, ix), Marked(t.value, Receiver));
  }

  lemma HeadersTell(pkt: Octets)
    ensures HeadersOf(pkt).valid == ValidRtp(pkt)
  {
  }

  lemma HeapConsistent(heap: Heap)
    requires heap.Valid()
    ensures Consistent(Now(heap))
  {
  }

  lemma NotWritten()
    ensures Writes(Ok) && !Writes(BadParam) && !Writes(NoCtx) && !Writes(AllocFail)
  {
  }

  /** A failure leaves no packet. */
  lemma FailedIsEmpty(w: Crypto, s: Stream, o: Outgoing)
    requires CryptoOk(w) && ValidRtp(o.packet) && Fits(o)
    ensures var r := ProtectFor(w, s, o).outcome; r.status != Ok ==> r == Failed(r.status)
  {
    hide ConfigOk, NotCombined, CtrBody, AeadBody, TakeIndex, ValidRtp;
  }

  lemma OpenedIsEmpty(w: Crypto, s: Stream, ix: Indexed, pkt: Octets, capacity: nat)
    requires CryptoOk(w)
    ensures var r := UnprotectOn(w, s, ix, pkt, capacity); r.status != Ok ==> r == Failed(r.status)
  {
    hide ConfigOk, NotCombined, XtnStep, CtrOpened, Unsealed, ValidRtp;
  }

  /** A clone that a packet went through. */
  lemma UnusedAgain(s: Stream, t: Stream, template: Stream)
    requires t == s.(rdbx := t.rdbx, pendingRoc := t.pendingRoc) && |t.rdbx.bits| == |s.rdbx.bits|
    requires s.rdbx == Cleared(0, |template.rdbx.bits|) && s.pendingRoc == 0
    ensures Unused(t) == s && Unused(s) == s
  {
  }

  lemma FirstLength(length: nat, s: Word16)
    requires length > 0
    ensures |FirstIndex(length, s).window.bits| == length
  {
  }

  lemma UpdateRefused(p: Policy, xs: seq<Stream>)
    requires p.target.Specific?
    ensures !ReachesInit(p, Get(xs, p.target.ssrc)) ==> StreamUpdated(p, xs, BadParam, xs)
  {
  }

  lemma ShorterHasRoom(xs: seq<Stream>, ssrc: Ssrc)
    ensures FirstFrom(xs, ssrc, 0).Some? ==> |Removed(xs, ssrc)| == |xs| - 1
  {
  }

  /** What srtp_stream_add leaves of an update. */
  lemma UpdateAdded(p: Policy, xs: seq<Stream>, t: Option<Stream>, status: Status, ys: seq<Stream>, u: Option<Stream>)
    requires p.target.Specific? && ReachesInit(p, Get(xs, p.target.ssrc))
    requires Added(p, true, Removed(xs, p.target.ssrc), t, status, ys, u)
    ensures u == t && (status != Ok ==> StreamUpdated(p, xs, status, ys))
    ensures status == Ok ==>
              var (ssrc, n) := (p.target.ssrc, FirstFrom(ys, p.target.ssrc, 0));
              && n.Some?
              && StreamUpdated(p, xs, Ok, ys[n.value := WithIndexOf(ys[n.value], Get(xs, ssrc).value)])
  {
    hide ValidPolicy, WindowOk, Compatible, WithIndexOf;
    var ssrc := p.target.ssrc;
    if status == Ok {
      FoundAgain(ys, ssrc);
      FoundIndex(xs, ssrc);
      hide FirstFrom, Removed, MadeFrom;
      var was, n := Get(xs, ssrc).value, FirstFrom(ys, ssrc, 0).value;
      assert Rewritten(Removed(xs, ssrc) + [Last(ys)], was, ys[n := WithIndexOf(ys[n], was)]);
    }
  }

  lemma FoundAgain(xs: seq<Stream>, ssrc: Ssrc)
    requires xs != [] && Last(xs).ssrc == ssrc
    ensures FirstFrom(xs, ssrc, 0).Some?
  {
  }

  lemma CloneRelated(s: Stream, t: Stream, xs: seq<Stream>)
    requires CloneOf(s, t) && Related(xs, Some(t))
    ensures RelatedTo(s, Some(t))
  {
    hide ToFree;
  }

  lemma CloneOfSame(s: Stream, u: Stream, t: Stream)
    requires CloneOf(s, t) && SameObjects(s, u)
    ensures CloneOf(u, t)
  {
  }

  lemma AllIsToFree(s: Stream)
    ensures AllPtrs(s) == ToFree(s, None)
  {
  }

  lemma ExtraReleased(live: set<Ptr>, held: seq<Ptr>, extra: seq<Ptr>)
    requires Owns(live, held + extra)
    ensures multiset(extra) <= multiset(live) && multiset(held + extra) == multiset(held) + multiset(extra)
  {
    OwnsPart(live, held + extra, extra, held);
  }

  lemma FirstHoldings(before: Moment, self: Ptr, middle: Moment, listPtr: Ptr, entriesPtr: Ptr, after: Moment)
    requires before.live == {} && Made(before, [] + [self], middle) && Made(middle, [listPtr, entriesPtr], after)
    ensures Owns(after.live, Holdings([self] + [], listPtr, entriesPtr, None, []))
  {
    assert Owns(before.live, []);
    OwnsMade(before, [], [] + [self], middle);
    OwnsMade(middle, [] + ([] + [self]), [listPtr, entriesPtr], after);
    assert Holdings([self] + [], listPtr, entriesPtr, None, []) == [] + ([] + [self]) + [listPtr, entriesPtr];
  }

  lemma BesideReleased(live: set<Ptr>, held: seq<Ptr>, t: Stream, lp: Ptr, ep: Ptr)
    requires Owns(live, held + (AllPtrs(t) + [lp, ep]))
    ensures lp in live && ep in live && lp != ep && Owns(live - {ep} - {lp}, held + AllPtrs(t))
  {
    hide Owns, AllPtrs;
    var rest := held + AllPtrs(t);
    assert held + (AllPtrs(t) + [lp, ep]) == rest + [lp] + [ep];
    DropLast(live, rest + [lp], ep);
    assert lp in rest + [lp];
    DropLast(live - {ep}, rest, lp);
  }
}
