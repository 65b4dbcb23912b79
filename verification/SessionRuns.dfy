/** What session calls keep, one at a time and over whole runs. */
module SessionRuns {
  import opened Bytes
  import opened ReplayWindow
  import opened SrtpStream
  import opened StreamMemory
  import opened StreamList
  import opened SessionMemory
  import opened UpdateMemory
  import opened SrtpPacket
  import opened SrtpTransform
  import opened SrtpAead
  import opened StreamPackets
  import opened SrtpSession

  // ----- The list as a map from SSRCs -----

  /** A protect call binds its own SSRC and nothing else, or nothing at all; without a stream or template
      for the packet, or without room, it binds nothing. */
  lemma ProtectKeepsMap(w: Crypto, o: Outgoing, room: bool, xs: seq<Stream>, t: Option<Stream>, result: Outcome,
                        ys: seq<Stream>, m: map<Ssrc, Stream>)
    requires Models(xs, m) && Protected(w, o, room, xs, t, result, ys)
    ensures if ValidRtp(o.packet) && (RtpSsrc(o.packet) in m || (t.Some? && room))
            then Get(ys, RtpSsrc(o.packet)).Some? && Models(ys, m[RtpSsrc(o.packet) := Get(ys, RtpSsrc(o.packet)).value])
            else ys == xs && result.status in {BadParam, NoCtx, AllocFail}
  {
    hide CloneOf, ProtectOn, CryptoOk, ValidRtp;
    if ValidRtp(o.packet) {
      HasHeader(o.packet);
      var ssrc := RtpSsrc(o.packet);
      assert Get(xs, ssrc) == if ssrc in m then Some(m[ssrc]) else None;
      match FirstFrom(xs, ssrc, 0) {
        case Some(n) =>
          ProtectKeepsSsrc(w, Marked(xs[n], Sender), o);
          Written(xs, m, n, ys[n]);
        case None => if t.Some? && room { Inserted(xs, m, Last(ys)); }
      }
    }
  }

  lemma ProtectKeepsSsrc(w: Crypto, s: Stream, o: Outgoing)
    requires CryptoOk(w) && ValidRtp(o.packet) && Fits(o)
    ensures ProtectFor(w, s, o).stream.ssrc == s.ssrc
  {
    SentSame(w, s, o.mkiIndex, o.packet, o.capacity, o.after);
  }

  /** An unprotect call that does not succeed leaves the map as it is, whichever check it fails: header,
      replay, key, length, authentication, extension or room for a new stream. One that succeeds binds its
      SSRC only. The template can only gain its direction, and only from a packet that passes. */
  lemma UnprotectKeepsMap(w: Crypto, pkt: Octets, capacity: nat, room: bool, xs: seq<Stream>, t: Option<Stream>,
                          result: Outcome, ys: seq<Stream>, u: Option<Stream>, m: map<Ssrc, Stream>)
    requires Models(xs, m) && Unprotected(w, pkt, capacity, room, xs, t, result, ys, u)
    ensures result.status != Ok ==> ys == xs
    ensures result.status == Ok ==>
              ValidRtp(pkt) && Get(ys, RtpSsrc(pkt)).Some? && Models(ys, m[RtpSsrc(pkt) := Get(ys, RtpSsrc(pkt)).value])
    ensures u == t || (t.Some? && u == Some(Marked(t.value, Receiver)) && result.status in {Ok, AllocFail})
  {
    hide CloneOf, CryptoOk, ValidRtp, UnprotectAead, UnprotectCtr, TakeIndex;
    if ValidRtp(pkt) {
      HasHeader(pkt);
      match FirstFrom(xs, RtpSsrc(pkt), 0) {
        case Some(n) => if result.status == Ok { Written(xs, m, n, ys[n]); }
        case None => if result.status == Ok { Inserted(xs, m, Last(ys)); }
      }
    }
  }

  /** A packet that was accepted is not accepted again, in whatever form and buffer it comes back, even when
      it was the packet that brought its stream; and the refusal changes nothing. */
  lemma AcceptedOnce(w: Crypto, pkt: Octets, capacity: nat, room: bool, xs: seq<Stream>, t: Option<Stream>, result: Outcome,
                     ys: seq<Stream>, u: Option<Stream>, pkt2: Octets, capacity2: nat, room2: bool, result2: Outcome,
                     zs: seq<Stream>, v: Option<Stream>)
    requires Unprotected(w, pkt, capacity, room, xs, t, result, ys, u) && result.status == Ok
    requires Unprotected(w, pkt2, capacity2, room2, ys, u, result2, zs, v)
    requires ValidRtp(pkt) && ValidRtp(pkt2) && RtpSsrc(pkt2) == RtpSsrc(pkt) && RtpSeq(pkt2) == RtpSeq(pkt)
    ensures result2 == Failed(ReplayFail) && zs == ys && v == u
  {
    hide CloneOf, CryptoOk, ValidRtp, UnprotectAead, UnprotectCtr, TakeIndex, FirstIndex;
    HasHeader(pkt);
    HasHeader(pkt2);
    var ssrc, s := RtpSsrc(pkt), RtpSeq(pkt);
    match FirstFrom(xs, ssrc, 0) {
      case Some(n) =>
        NotTwice(xs[n].rdbx, xs[n].pendingRoc, s, false);
        FirstWritten(xs, ssrc, n, ys[n]);
      case None =>
        FirstNotTwice(|t.value.rdbx.bits|, s);
        FirstAppended(xs, Last(ys));
    }
  }

  lemma {:induction false} FirstWritten(xs: seq<Stream>, ssrc: Ssrc, n: nat, s: Stream)
    requires FirstFrom(xs, ssrc, 0) == Some(n) && s.ssrc == ssrc
    ensures FirstFrom(xs[n := s], ssrc, 0) == Some(n)
  {
    var ys := xs[n := s];
    assert forall m :: 0 <= m < |ys| ==> ys[m].ssrc == xs[m].ssrc;
    SameFirst(xs, ys, ssrc, 0);
  }

  lemma FirstAppended(xs: seq<Stream>, s: Stream)
    requires FirstFrom(xs, s.ssrc, 0) == None
    ensures FirstFrom(xs + [s], s.ssrc, 0) == Some(|xs|)
  {
    var ys := xs + [s];
    assert ys[|xs|].ssrc == s.ssrc && forall m :: 0 <= m < |xs| ==> ys[m] == xs[m];
  }

  lemma Written(xs: seq<Stream>, m: map<Ssrc, Stream>, n: nat, s: Stream)
    requires Models(xs, m) && n < |xs| && xs[n].ssrc == s.ssrc
    ensures Get(xs[n := s], s.ssrc) == Some(s) && Models(xs[n := s], m[s.ssrc := s])
  {
    WriteIsUpdate(xs, m, n, s);
  }

  lemma Inserted(xs: seq<Stream>, m: map<Ssrc, Stream>, s: Stream)
    requires Models(xs, m) && Get(xs, s.ssrc) == None
    ensures Get(xs + [s], s.ssrc) == Some(s) && Models(xs + [s], m[s.ssrc := s])
  {
    InsertIsUpdate(xs, m, s);
  }

  /** A stream without a direction becomes a sender with the first packet that is protected through it; one with a
      direction keeps it. */
  lemma SenderMarked(w: Crypto, o: Outgoing, room: bool, xs: seq<Stream>, t: Option<Stream>, sent: Outcome, ys: seq<Stream>, n: nat)
    requires Protected(w, o, room, xs, t, sent, ys) && ValidRtp(o.packet) && |o.packet| >= FIXED_HEADER
    requires FirstFrom(xs, RtpSsrc(o.packet), 0) == Some(n)
    ensures |ys| == |xs| && ys[n].direction == if xs[n].direction == Unknown then Sender else xs[n].direction
  {
    hide CryptoOk, ValidRtp, ProtectOn, NewClone, Get;
    SentSame(w, Marked(xs[n], Sender), o.mkiIndex, o.packet, o.capacity, o.after);
  }

  /** It becomes a receiver with the first packet that is let through. */
  lemma ReceiverMarked(w: Crypto, pkt: Octets, capacity: nat, room: bool, xs: seq<Stream>, t: Option<Stream>, back: Outcome,
                       ys: seq<Stream>, u: Option<Stream>, n: nat)
    requires Unprotected(w, pkt, capacity, room, xs, t, back, ys, u) && ValidRtp(pkt) && |pkt| >= FIXED_HEADER
    requires FirstFrom(xs, RtpSsrc(pkt), 0) == Some(n)
    ensures |ys| == |xs|
    ensures ys[n].direction == if back.status == Ok && xs[n].direction == Unknown then Receiver else xs[n].direction
  {
    hide CryptoOk, ValidRtp, TakeIndex, UnprotectOn, NewClone, Get;
    TakenWhenOk(w, xs[n], TakeIndex(xs[n].rdbx, xs[n].pendingRoc, RtpSeq(pkt), false), pkt, capacity);
  }

  lemma TakenWhenOk(w: Crypto, s: Stream, ix: Indexed, pkt: Octets, capacity: nat)
    requires CryptoOk(w)
    ensures UnprotectOn(w, s, ix, pkt, capacity).status == Ok ==> ix.Taken?
  {
  }

  /** Adding keeps SSRCs distinct exactly when the new one is not there yet: srtp_stream_add does not look. */
  lemma AddKeepsDistinct(xs: seq<Stream>, s: Stream)
    requires Distinct(xs)
    ensures Distinct(xs + [s]) <==> Get(xs, s.ssrc) == None
  {
    var ys := xs + [s];
    if Get(xs, s.ssrc) == None {
      AppendGet(xs, s, s.ssrc);
    } else {
      var n := FirstFrom(xs, s.ssrc, 0).value;
      assert ys[n].ssrc == ys[|xs|].ssrc;
    }
  }

  // ----- Updates -----

  /** A template update that succeeds keeps the SSRCs, in order, with every stream's highest packet index and
      RTCP replay state; streams that are none of the template's stay the same objects. */
  lemma TemplateUpdateConserves(p: Policy, xs: seq<Stream>, t: Option<Stream>, ys: seq<Stream>, u: Option<Stream>)
    requires TemplateUpdated(p, xs, t, Ok, ys, u)
    ensures |ys| == |xs| && t.Some? && (Distinct(xs) <==> Distinct(ys))
    ensures forall i :: 0 <= i < |xs| ==>
              ys[i].ssrc == xs[i].ssrc && ys[i].rdbx.index == xs[i].rdbx.index && ys[i].rtcpRdb == xs[i].rtcpRdb
    ensures forall i :: 0 <= i < |xs| && Apart(xs[i], t.value) ==> ys[i] == xs[i]
    ensures forall k: Ssrc :: Get(xs, k).Some? <==> Get(ys, k).Some?
    ensures forall k: Ssrc :: Get(xs, k).Some? ==>
              Get(ys, k).value.rdbx.index == Get(xs, k).value.rdbx.index && Get(ys, k).value.rtcpRdb == Get(xs, k).value.rtcpRdb
  {
    hide Apart, CloneOf, ValidPolicy, WindowOk;
    forall i | 0 <= i < |xs| ensures Carried(xs[i], ys[i], t.value, u.value) {}
    forall k: Ssrc ensures FirstFrom(xs, k, 0) == FirstFrom(ys, k, 0) { SameFirst(xs, ys, k, 0); }
  }

  lemma {:induction false} SameFirst(xs: seq<Stream>, ys: seq<Stream>, k: Ssrc, i: nat)
    requires |xs| == |ys| && i <= |xs| && forall j :: 0 <= j < |xs| ==> xs[j].ssrc == ys[j].ssrc
    ensures FirstFrom(xs, k, i) == FirstFrom(ys, k, i)
    decreases |xs| - i
  {
    if i < |xs| { SameFirst(xs, ys, k, i + 1); }
  }

  /** An update of one stream that succeeds keeps the set of SSRCs, that stream's highest index and RTCP replay
      state, and every other stream. */
  lemma StreamUpdateConserves(p: Policy, xs: seq<Stream>, ys: seq<Stream>, m: map<Ssrc, Stream>)
    requires p.target.Specific? && Models(xs, m) && StreamUpdated(p, xs, Ok, ys)
    ensures p.target.ssrc in m && Get(ys, p.target.ssrc).Some?
    ensures var u := Get(ys, p.target.ssrc).value;
            Models(ys, m[p.target.ssrc := u])
            && u.rdbx.index == m[p.target.ssrc].rdbx.index && u.rtcpRdb == m[p.target.ssrc].rtcpRdb
  {
    var k := p.target.ssrc;
    var rest := Removed(xs, k);
    assert Get(xs, k).Some?;
    var was := Get(xs, k).value;
    var s :| MadeFrom(s, p, k, Unknown) && Rewritten(rest + [s], was, ys);
    RemoveIsMinus(xs, m, k);
    assert Get(rest, k) == None;
    Inserted(rest, m - {k}, s);
    var n := FirstFrom(rest + [s], k, 0).value;
    Written(rest + [s], (m - {k})[k := s], n, ys[n]);
    assert (m - {k})[k := s][k := ys[n]] == m[k := ys[n]];
  }

  /** An update of one stream that is refused keeps the stream exactly when it is refused before the stream is
      removed: for its keys or MKI, for an SSRC that is not there, or for settings the stream does not have.
      What it is refused for after that is the size of the window, and then the stream is gone. */
  lemma RefusedUpdateKeeps(p: Policy, xs: seq<Stream>, status: Status, ys: seq<Stream>, m: map<Ssrc, Stream>)
    requires p.target.Specific? && Models(xs, m) && StreamUpdated(p, xs, status, ys)
    ensures status != Ok <==> !ReachesInit(p, Get(xs, p.target.ssrc)) || !WindowOk(p)
    ensures status != Ok ==> status == BadParam && (ys == xs <==> !ReachesInit(p, Get(xs, p.target.ssrc)))
    ensures status != Ok && ReachesInit(p, Get(xs, p.target.ssrc)) ==> Models(ys, m - {p.target.ssrc})
  {
    hide ValidPolicy, WindowOk, Compatible, MadeFrom;
    RemoveIsMinus(xs, m, p.target.ssrc);
    ShorterHasRoom(xs, p.target.ssrc);
    hide Removed;
  }

  /** A known stream without MKI and an update that asks for a window of 32. */
  lemma WindowLosesStream(xs: seq<Stream>, ssrc: Ssrc, status: Status, ys: seq<Stream>, m: map<Ssrc, Stream>)
    requires Models(xs, m) && ssrc in m && !m[ssrc].settings.useMki
    requires StreamUpdated(SmallWindow(Specific(ssrc)), xs, status, ys)
    ensures status == BadParam && Models(ys, m - {ssrc})
  {
    assert Get(xs, ssrc) == Some(m[ssrc]);
    RefusedUpdateKeeps(SmallWindow(Specific(ssrc)), xs, status, ys, m);
  }

  function SmallWindow(target: Target): Policy { Policy(target, 1, false, Settings(false, 0, 32, false, false, 3, 3)) }

  // ----- Memory -----

  /** No stream of a session refers to an object that was released. */
  lemma NoDanglingReference(session: Session, n: nat, p: Ptr)
    requires session.Valid() && n < |session.Streams()| && p in AllPtrs(session.Streams()[n])
    ensures p in session.heap.live && session.heap.freed[p] == 0
  {
    hide Owns, Holdings, AllPtrs;
    RefsLive(session.heap.live, session.Base(), session.list.ptr, session.list.entriesPtr, session.template, session.Streams(), n, p);
  }

  // ----- Runs -----

  /** A packet to send comes with the room behind it in its buffer. */
  datatype Call =
    | AddCall(policy: Policy)
    | ProtectCall(mkiIndex: nat, packet: Octets, room: Octets)
    | UnprotectCall(packet: Octets, capacity: nat)
    | RemoveCall(ssrc: Ssrc)
    | UpdateCall(policy: Policy)

  predicate Wildcard(p: Policy) { p.target.AnyInbound? || p.target.AnyOutbound? }

  function OutgoingOf(c: Call): Outgoing
    requires c.ProtectCall?
  {
    Outgoing(c.mkiIndex, c.packet, |c.packet| + |c.room|, c.room)
  }

  /** What one call does to the streams and the template. */
  ghost predicate Did(w: Crypto, c: Call, room: bool, xs: seq<Stream>, t: Option<Stream>, ys: seq<Stream>, u: Option<Stream>)
  {
    match c
    case AddCall(p) => exists status :: Added(p, room, xs, t, status, ys, u)
    case ProtectCall(_, _, _) => u == t && exists result :: Protected(w, OutgoingOf(c), room, xs, t, result, ys)
    case UnprotectCall(packet, capacity) => exists result :: Unprotected(w, packet, capacity, room, xs, t, result, ys, u)
    case RemoveCall(ssrc) => u == t && ys == Removed(xs, ssrc)
    case UpdateCall(p) => DidUpdate(p, xs, t, ys, u)
  }

  ghost predicate DidUpdate(p: Policy, xs: seq<Stream>, t: Option<Stream>, ys: seq<Stream>, u: Option<Stream>)
  {
    if Wildcard(p) then exists status :: TemplateUpdated(p, xs, t, status, ys, u)
    else if p.target.Specific? then u == t && exists status :: StreamUpdated(p, xs, status, ys)
    else ys == xs && u == t
  }

  /** The update lets go of a template it could not initialise. */
  predicate Leaks(c: Call, t: Option<Stream>)
  {
    c.UpdateCall? && Wildcard(c.policy) && ReachesInit(c.policy, t) && !WindowOk(c.policy)
  }

  /** srtp_stream_update */
  method Update(session: Session, policy: Policy) returns (status: Status)
    requires session.Valid()
    modifies session`list, session`template, session`leaked, session.heap, session.list, session.list.entries
    ensures session.Valid() && (session.list == old(session.list) || fresh(session.list))
    ensures session.list.entries == old(session.list.entries) || fresh(session.list.entries)
    ensures DidUpdate(policy, old(session.Streams()), old(session.template), session.Streams(), session.template)
    ensures session.leaked == old(session.leaked) <==> !Leaks(UpdateCall(policy), old(session.template))
    ensures |session.leaked| >= |old(session.leaked)|
  {
    hide Owns, Holdings, Related, ReachesInit, WindowOk, TemplateUpdated, StreamUpdated;
    match policy.target {
      case AnyInbound => status := session.UpdateTemplate(policy);
      case AnyOutbound => status := session.UpdateTemplate(policy);
      case Specific(_) => status := session.UpdateStream(policy);
      case Undefined => status := BadParam;
    }
  }

  method Perform(session: Session, w: Crypto, call: Call)
    requires session.Valid() && CryptoOk(w)
    modifies session`list, session`template, session`leaked, session.heap, session.list, session.list.entries
    ensures session.Valid() && (session.list == old(session.list) || fresh(session.list))
    ensures session.list.entries == old(session.list.entries) || fresh(session.list.entries)
    ensures Did(w, call, old(session.HasRoom()), old(session.Streams()), old(session.template), session.Streams(), session.template)
    ensures session.leaked == old(session.leaked) <==> !Leaks(call, old(session.template))
    ensures |session.leaked| >= |old(session.leaked)|
  {
    hide Owns, Holdings, Related, Added, Protected, Unprotected, Removed, ReachesInit, WindowOk, CryptoOk;
    match call {
      case AddCall(p) => var status := session.Add(p);
      case ProtectCall(mkiIndex, packet, room) =>
        var buf := BufferWith(packet + room);
        assert buf[..|packet|] == packet && buf[|packet|..] == room;
        assert OutgoingOf(call) == Outgoing(mkiIndex, buf[..|packet|], buf.Length, buf[|packet|..]);
        ghost var room0, xs0 := session.HasRoom(), session.Streams();
        var status, outLen := session.Protect(w, mkiIndex, buf, |packet|, buf.Length);
        assert Protected(w, OutgoingOf(call), room0, xs0, session.template,
                         Outcome(status, if status == Ok then buf[..outLen] else []), session.Streams());
      case UnprotectCall(packet, capacity) =>
        var buf := BufferWith(packet);
        assert buf[..|packet|] == packet;
        var status, outLen := session.Unprotect(w, buf, |packet|, capacity);
      case RemoveCall(ssrc) => var status := session.Remove(ssrc);
      case UpdateCall(p) => var status := Update(session, p);
    }
  }

  method BufferWith(octets: Octets) returns (buf: array<Byte>)
    ensures fresh(buf) && buf[..] == octets
  {
    buf := new Byte[|octets|](i requires 0 <= i < |octets| => octets[i]);
  }

  // Which template a run has

  datatype MkiUse = MkiUse(useMki: bool, mkiSize: nat)

  function MkiOf(s: Settings): MkiUse { MkiUse(s.useMki, s.mkiSize) }

  /** How the template, once there is one, uses MKIs: as the first wildcard policy that was added with success
      says, for good. */
  function TemplateMki(calls: seq<Call>, k: nat): Option<MkiUse>
    requires k <= |calls|
  {
    if k == 0 then None
    else
      var before, c := TemplateMki(calls, k - 1), calls[k - 1];
      if before.None? && c.AddCall? && Wildcard(c.policy) && PolicyOk(c.policy) then Some(MkiOf(c.policy.settings)) else before
  }

  /** What a caller can see: a wildcard update with a window that is too small or too large, for a template that
      is there and uses MKIs in the same way. */
  predicate LeaksAt(calls: seq<Call>, k: nat)
    requires k < |calls|
  {
    var c := calls[k];
    c.UpdateCall? && Wildcard(c.policy) && ValidPolicy(c.policy) && !WindowOk(c.policy)
    && TemplateMki(calls, k) == Some(MkiOf(c.policy.settings))
  }

  predicate KindIs(t: Option<Stream>, kind: Option<MkiUse>)
  {
    t.Some? == kind.Some?
    && (t.Some? ==> MkiOf(t.value.settings) == kind.value && (!kind.value.useMki ==> kind.value.mkiSize == 0))
  }

  lemma KindNext(w: Crypto, calls: seq<Call>, k: nat, room: bool, xs: seq<Stream>, t: Option<Stream>, ys: seq<Stream>, u: Option<Stream>)
    requires k < |calls| && Did(w, calls[k], room, xs, t, ys, u) && KindIs(t, TemplateMki(calls, k))
    ensures KindIs(u, TemplateMki(calls, k + 1))
    ensures Leaks(calls[k], t) <==> LeaksAt(calls, k)
  {
    hide Protected, UnprotectOn, CloneOf, AllCarried, FirstFrom, ValidRtp, CryptoOk, StreamUpdated, LostSome;
  }

  // Which SSRCs a run has

  /** The call can bring a stream with this SSRC. */
  predicate Brings(c: Call, ssrc: Ssrc)
  {
    match c
    case AddCall(p) => p.target == Specific(ssrc)
    case ProtectCall(_, packet, _) => ValidRtp(packet) && RtpSsrc(packet) == ssrc
    case UnprotectCall(packet, _) => ValidRtp(packet) && RtpSsrc(packet) == ssrc
    case _ => false
  }

  ghost predicate BroughtBefore(calls: seq<Call>, k: nat, ssrc: Ssrc)
    requires k <= |calls|
  {
    exists j :: 0 <= j < k && Brings(calls[j], ssrc)
  }

  /** Every stream is added before its first packet, and once. */
  ghost predicate FreshAdds(calls: seq<Call>)
  {
    forall k :: 0 <= k < |calls| && calls[k].AddCall? && calls[k].policy.target.Specific?
                ==> !BroughtBefore(calls, k, calls[k].policy.target.ssrc)
  }

  ghost predicate AllBrought(calls: seq<Call>, k: nat, xs: seq<Stream>)
    requires k <= |calls|
  {
    forall i :: 0 <= i < |xs| ==> BroughtBefore(calls, k, xs[i].ssrc)
  }

  /** SSRCs stay distinct, and none comes from nowhere. */
  ghost predicate DistinctSoFar(calls: seq<Call>, k: nat, xs: seq<Stream>)
    requires k <= |calls|
  {
    Distinct(xs) && AllBrought(calls, k, xs)
  }

  function MapOf(xs: seq<Stream>): map<Ssrc, Stream>
  {
    if xs == [] then map[] else MapOf(xs[..|xs| - 1])[xs[|xs| - 1].ssrc := xs[|xs| - 1]]
  }

  lemma {:induction false} MapOfModels(xs: seq<Stream>)
    requires Distinct(xs)
    ensures Models(xs, MapOf(xs))
  {
    if xs != [] {
      var front, s := xs[..|xs| - 1], xs[|xs| - 1];
      MapOfModels(front);
      assert xs == front + [s];
      AddKeepsDistinct(front, s);
      Inserted(front, MapOf(front), s);
    }
  }

  /** The SSRCs of the map are those of the streams. */
  lemma ModelSsrcs(xs: seq<Stream>, m: map<Ssrc, Stream>, i: nat)
    requires Models(xs, m) && i < |xs|
    ensures xs[i].ssrc in m
  {
    FirstIs(xs, i);
    assert Get(xs, xs[i].ssrc).Some?;
  }

  lemma {:induction false} KeyIsSsrc(xs: seq<Stream>, m: map<Ssrc, Stream>, k: Ssrc) returns (i: nat)
    requires Models(xs, m) && k in m
    ensures i < |xs| && xs[i].ssrc == k
  {
    assert Get(xs, k) == Some(m[k]);
    i := FirstFrom(xs, k, 0).value;
  }

  /** Nothing new came, or one SSRC that the call names. */
  lemma BroughtNext(calls: seq<Call>, k: nat, xs: seq<Stream>, m: map<Ssrc, Stream>, ys: seq<Stream>, n: map<Ssrc, Stream>)
    requires k < |calls| && AllBrought(calls, k, xs) && Models(xs, m) && Models(ys, n)
    requires forall s :: s in n ==> s in m || Brings(calls[k], s)
    ensures DistinctSoFar(calls, k + 1, ys)
  {
    hide Brings;
    forall i | 0 <= i < |ys|
      ensures BroughtBefore(calls, k + 1, ys[i].ssrc)
    {
      ModelSsrcs(ys, n, i);
      if ys[i].ssrc in m {
        var j := KeyIsSsrc(xs, m, ys[i].ssrc);
        assert BroughtBefore(calls, k, xs[j].ssrc);
      }
    }
  }

  lemma PartDistinct(calls: seq<Call>, k: nat, xs: seq<Stream>, ys: seq<Stream>)
    requires k < |calls| && DistinctSoFar(calls, k, xs) && LostSome(xs, ys)
    ensures DistinctSoFar(calls, k + 1, ys)
  {
    hide Brings;
    forall i | 0 <= i < |ys| ensures ys[i] == xs[|xs| - |ys| + i] && BroughtBefore(calls, k + 1, ys[i].ssrc) {
      assert BroughtBefore(calls, k, xs[|xs| - |ys| + i].ssrc);
    }
  }

  lemma SameDistinct(calls: seq<Call>, k: nat, xs: seq<Stream>, ys: seq<Stream>)
    requires k < |calls| && DistinctSoFar(calls, k, xs) && |ys| == |xs| && forall i :: 0 <= i < |xs| ==> ys[i].ssrc == xs[i].ssrc
    ensures DistinctSoFar(calls, k + 1, ys)
  {
    hide Brings;
    forall i | 0 <= i < |ys| ensures BroughtBefore(calls, k + 1, ys[i].ssrc) {
      assert BroughtBefore(calls, k, xs[i].ssrc);
    }
  }

  lemma AddDistinct(calls: seq<Call>, k: nat, room: bool, xs: seq<Stream>, t: Option<Stream>, status: Status, ys: seq<Stream>, u: Option<Stream>)
    requires k < |calls| && FreshAdds(calls) && DistinctSoFar(calls, k, xs) && calls[k].AddCall?
    requires Added(calls[k].policy, room, xs, t, status, ys, u)
    ensures DistinctSoFar(calls, k + 1, ys)
  {
    var target := calls[k].policy.target;
    if status == Ok && target.Specific? {
      var m := MapOf(xs);
      MapOfModels(xs);
      forall i | 0 <= i < |xs| ensures xs[i].ssrc != target.ssrc {
        assert BroughtBefore(calls, k, xs[i].ssrc);
      }
      NoneIs(xs, target.ssrc);
      Inserted(xs, m, Last(ys));
      BroughtNext(calls, k, xs, m, ys, m[target.ssrc := Last(ys)]);
    } else {
      SameDistinct(calls, k, xs, ys);
    }
  }

  lemma PacketDistinct(w: Crypto, calls: seq<Call>, k: nat, room: bool, xs: seq<Stream>, t: Option<Stream>, ys: seq<Stream>, u: Option<Stream>)
    requires k < |calls| && DistinctSoFar(calls, k, xs) && (calls[k].ProtectCall? || calls[k].UnprotectCall?)
    requires Did(w, calls[k], room, xs, t, ys, u)
    ensures DistinctSoFar(calls, k + 1, ys)
  {
    hide Protected, Unprotected, Models, DistinctSoFar, AllBrought, CryptoOk, ValidRtp;
    var c, m := calls[k], MapOf(xs);
    DistinctIs(calls, k, xs);
    MapOfModels(xs);
    match c {
      case ProtectCall(_, packet, _) =>
        var result :| Protected(w, OutgoingOf(c), room, xs, t, result, ys);
        ProtectKeepsMap(w, OutgoingOf(c), room, xs, t, result, ys, m);
        BoundNext(calls, k, xs, m, packet, ys);
      case UnprotectCall(packet, capacity) =>
        var result :| Unprotected(w, packet, capacity, room, xs, t, result, ys, u);
        UnprotectKeepsMap(w, packet, capacity, room, xs, t, result, ys, u, m);
        BoundNext(calls, k, xs, m, packet, ys);
      case _ =>
    }
  }

  lemma DistinctIs(calls: seq<Call>, k: nat, xs: seq<Stream>)
    requires k <= |calls| && DistinctSoFar(calls, k, xs)
    ensures Distinct(xs) && AllBrought(calls, k, xs)
  {
  }

  lemma BoundNext(calls: seq<Call>, k: nat, xs: seq<Stream>, m: map<Ssrc, Stream>, packet: Octets, ys: seq<Stream>)
    requires k < |calls| && DistinctSoFar(calls, k, xs) && Models(xs, m)
    requires ValidRtp(packet) ==> Brings(calls[k], RtpSsrc(packet))
    requires ys == xs || (ValidRtp(packet) && Get(ys, RtpSsrc(packet)).Some? && Models(ys, m[RtpSsrc(packet) := Get(ys, RtpSsrc(packet)).value]))
    ensures DistinctSoFar(calls, k + 1, ys)
  {
    hide Brings, ValidRtp, Models;
    if ValidRtp(packet) { HasHeader(packet); }
    if ys == xs {
      BroughtNext(calls, k, xs, m, ys, m);
    } else {
      BroughtNext(calls, k, xs, m, ys, m[RtpSsrc(packet) := Get(ys, RtpSsrc(packet)).value]);
    }
  }

  lemma UpdateDistinct(w: Crypto, calls: seq<Call>, k: nat, room: bool, xs: seq<Stream>, t: Option<Stream>, ys: seq<Stream>, u: Option<Stream>)
    requires k < |calls| && DistinctSoFar(calls, k, xs) && calls[k].UpdateCall? && Did(w, calls[k], room, xs, t, ys, u)
    ensures DistinctSoFar(calls, k + 1, ys)
  {
    hide Models, AllCarried, TemplateUpdated, StreamUpdated;
    var p := calls[k].policy;
    if Wildcard(p) {
      var status :| TemplateUpdated(p, xs, t, status, ys, u);
      TemplateUpdateDistinct(calls, k, p, xs, t, status, ys, u);
    } else if p.target.Specific? {
      var status :| StreamUpdated(p, xs, status, ys);
      MapOfModels(xs);
      var m := MapOf(xs);
      if status == Ok {
        StreamUpdateConserves(p, xs, ys, m);
        BroughtNext(calls, k, xs, m, ys, m[p.target.ssrc := Get(ys, p.target.ssrc).value]);
      } else {
        RefusedUpdateKeeps(p, xs, status, ys, m);
        BroughtNext(calls, k, xs, m, ys, if ys == xs then m else m - {p.target.ssrc});
      }
    } else {
      SameDistinct(calls, k, xs, ys);
    }
  }

  lemma TemplateUpdateDistinct(calls: seq<Call>, k: nat, p: Policy, xs: seq<Stream>, t: Option<Stream>, status: Status,
                               ys: seq<Stream>, u: Option<Stream>)
    requires k < |calls| && DistinctSoFar(calls, k, xs) && TemplateUpdated(p, xs, t, status, ys, u)
    ensures DistinctSoFar(calls, k + 1, ys)
  {
    hide DistinctSoFar, LostSome, AllCarried, ValidPolicy, WindowOk, Compatible;
    if status == Ok {
      TemplateUpdateConserves(p, xs, t, ys, u);
      SameDistinct(calls, k, xs, ys);
    } else if status == AllocFail {
      PartDistinct(calls, k, xs, ys);
    } else {
      SameDistinct(calls, k, xs, ys);
    }
  }

  /** One more call. */
  lemma DistinctNext(w: Crypto, calls: seq<Call>, k: nat, room: bool, xs: seq<Stream>, t: Option<Stream>, ys: seq<Stream>, u: Option<Stream>)
    requires k < |calls| && FreshAdds(calls) && DistinctSoFar(calls, k, xs) && Did(w, calls[k], room, xs, t, ys, u)
    ensures DistinctSoFar(calls, k + 1, ys)
  {
    match calls[k] {
      case AddCall(p) =>
        var status :| Added(p, room, xs, t, status, ys, u);
        hide *;
        AddDistinct(calls, k, room, xs, t, status, ys, u);
      case RemoveCall(ssrc) =>
        hide Brings, FreshAdds;
        MapOfModels(xs);
        RemoveIsMinus(xs, MapOf(xs), ssrc);
        hide Models, Removed;
        BroughtNext(calls, k, xs, MapOf(xs), ys, MapOf(xs) - {ssrc});
      case UpdateCall(_) =>
        hide *;
        UpdateDistinct(w, calls, k, room, xs, t, ys, u);
      case _ =>
        hide *;
        PacketDistinct(w, calls, k, room, xs, t, ys, u);
    }
  }

  // The run

  /** Any run of calls on a new session. The session holds what is live but for what refused wildcard updates
      let go, and something was let go exactly when some call leaks; and if every stream is added before its
      first packet, and once, no two streams ever have one SSRC. */
  method RunCalls(session: Session, w: Crypto, calls: seq<Call>)
    requires session.Valid() && CryptoOk(w) && session.Streams() == [] && session.template == None && session.leaked == []
    modifies session`list, session`template, session`leaked, session.heap, session.list, session.list.entries
    ensures session.Valid() && (session.list == old(session.list) || fresh(session.list))
    ensures session.list.entries == old(session.list.entries) || fresh(session.list.entries)
    ensures session.leaked == [] <==> forall k :: 0 <= k < |calls| ==> !LeaksAt(calls, k)
    ensures FreshAdds(calls) ==> Distinct(session.Streams())
  {
    hide Owns, Holdings, Related, Did, LeaksAt, Leaks, KindIs, TemplateMki, FreshAdds, DistinctSoFar, CryptoOk;
    RunStarts(calls);
    var i := 0;
    while i < |calls|
      invariant i <= |calls| && session.Valid() && KindIs(session.template, TemplateMki(calls, i))
      invariant session.list == old(session.list) || fresh(session.list)
      invariant session.list.entries == old(session.list.entries) || fresh(session.list.entries)
      invariant session.leaked == [] <==> forall k :: 0 <= k < i ==> !LeaksAt(calls, k)
      invariant FreshAdds(calls) ==> DistinctSoFar(calls, i, session.Streams())
    {
      ghost var xs, t, room := session.Streams(), session.template, session.HasRoom();
      Perform(session, w, calls[i]);
      KindNext(w, calls, i, room, xs, t, session.Streams(), session.template);
      if FreshAdds(calls) { DistinctNext(w, calls, i, room, xs, t, session.Streams(), session.template); }
      i := i + 1;
    }
    if FreshAdds(calls) { DistinctIs(calls, |calls|, session.Streams()); }
  }

  lemma RunStarts(calls: seq<Call>)
    ensures KindIs(None, TemplateMki(calls, 0)) && DistinctSoFar(calls, 0, [])
  {
  }

  /** From srtp_create to srtp_dealloc: everything is released, each allocation exactly once, exactly when no
      call is a wildcard update that fails for its window. */
  method Run(w: Crypto, calls: seq<Call>) returns (heap: Heap)
    requires CryptoOk(w)
    ensures heap.live == {} <==> forall k :: 0 <= k < |calls| ==> !LeaksAt(calls, k)
    ensures forall p: Ptr :: heap.freed[p] == if p < heap.next && p !in heap.live then 1 else 0
  {
    hide Owns, Holdings, Related, LeaksAt, FreshAdds, CryptoOk;
    heap := new Heap();
    var session := new Session(heap);
    RunCalls(session, w, calls);
    session.Dealloc();
    NothingOwned(heap.live, session.leaked);
  }

  lemma NothingOwned(live: set<Ptr>, owned: seq<Ptr>)
    requires Owns(live, owned)
    ensures live == {} <==> owned == []
  {
    if owned != [] {
      OwnedLive(live, owned, owned[0]);
    } else {
      forall p: Ptr ensures p !in live { assert multiset(live)[p] == multiset(owned)[p]; }
    }
  }

  /** A template, and then an update that asks for a window of 32. */
  lemma SmallWindowLeaks(target: Target)
    requires target.AnyInbound? || target.AnyOutbound?
    ensures var first := SmallWindow(target).(settings := SmallWindow(target).settings.(window := 0));
            LeaksAt([AddCall(first), UpdateCall(SmallWindow(target))], 1)
  {
    var first := SmallWindow(target).(settings := SmallWindow(target).settings.(window := 0));
    var calls := [AddCall(first), UpdateCall(SmallWindow(target))];
    assert TemplateMki(calls, 0) == None;
    assert TemplateMki(calls, 1) == Some(MkiOf(first.settings));
  }
}
