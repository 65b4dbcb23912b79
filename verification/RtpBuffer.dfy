/** What the receive buffer lets through of a stream: RTP packets in datagrams, cut off or refused when
    they are longer than the buffer. */
module RtpBuffer {
  import opened Bytes
  import opened AnnexB
  import opened RtpDepacketizer
  import opened RtpRoundTrip
  import opened RtpStreams

  const PAYLOAD_TYPE: Byte := 96

  // ----- Datagrams -----

  function Datagram(p: Rtp, timestamp: Word32): seq<Byte>
  {
    var m: Byte := if p.marker then 128 else 0;
    [128, m + PAYLOAD_TYPE, Hi(p.seqNo), Lo(p.seqNo)] + ToBE32(timestamp) + ToBE32(p.ssrc) + p.payload
  }

  /** The datagrams of some packets, all with one timestamp. */
  function Datagrams(ps: seq<Rtp>, timestamp: Word32): seq<seq<Byte>>
  {
    if ps == [] then [] else Datagrams(ps[..|ps| - 1], timestamp) + [Datagram(ps[|ps| - 1], timestamp)]
  }

  lemma DatagramsSnoc(ps: seq<Rtp>, p: Rtp, timestamp: Word32)
    ensures Datagrams(ps + [p], timestamp) == Datagrams(ps, timestamp) + [Datagram(p, timestamp)]
  {
    assert (ps + [p])[..|ps|] == ps;
  }

  predicate PacketFits(p: Rtp) { 12 + |p.payload| <= 8192 }

  predicate AllFit(ps: seq<Rtp>) { forall i :: 0 <= i < |ps| ==> PacketFits(ps[i]) }

  /** The packet that comes out of the buffer. */
  function Arrived(os: Platform, p: Rtp): Option<Rtp>
  {
    if PacketFits(p) then Some(p)
    else if os.Posix? then Some(p.(payload := p.payload[..BUFFER_SIZE - RTP_HEADER_SIZE]))
    else None
  }

  lemma ParseDatagram(os: Platform, p: Rtp, timestamp: Word32)
    ensures Parse(Received(os, Datagram(p, timestamp), BUFFER_SIZE)) == Arrived(os, p)
  {
    var d := Datagram(p, timestamp);
    assert |d| == RTP_HEADER_SIZE + |p.payload| && d[8..12] == ToBE32(p.ssrc) && d[12..] == p.payload;
    U16HiLo(p.seqNo);
    if !PacketFits(p) {
      assert d[..BUFFER_SIZE][8..12] == d[8..12];
      assert d[..BUFFER_SIZE][12..] == p.payload[..BUFFER_SIZE - RTP_HEADER_SIZE];
    }
  }

  /** The packets that come out of the buffer. */
  function ArrivedAll(os: Platform, ps: seq<Rtp>): (arrived: seq<Rtp>)
    ensures |arrived| <= |ps|
  {
    if ps == [] then []
    else
      var p := Arrived(os, ps[|ps| - 1]);
      ArrivedAll(os, ps[..|ps| - 1]) + (if p.None? then [] else [p.value])
  }

  lemma {:induction false} PacketsArrive(os: Platform, ps: seq<Rtp>, timestamp: Word32)
    ensures Packets(os, Datagrams(ps, timestamp)) == ArrivedAll(os, ps)
  {
    if ps != [] {
      var front := Datagrams(ps[..|ps| - 1], timestamp);
      PacketsArrive(os, ps[..|ps| - 1], timestamp);
      ParseDatagram(os, ps[|ps| - 1], timestamp);
      hide Parse, Datagram, Received, Arrived;
      assert Datagrams(ps, timestamp)[..|Datagrams(ps, timestamp)| - 1] == front;
    }
  }

  /** The datagrams parse back into the packets exactly when all of them fit the buffer. */
  lemma {:induction false} PacketsOfDatagrams(os: Platform, ps: seq<Rtp>, timestamp: Word32)
    ensures Packets(os, Datagrams(ps, timestamp)) == ps <==> AllFit(ps)
  {
    PacketsArrive(os, ps, timestamp);
    ArrivedSame(os, ps);
  }

  lemma {:induction false} ArrivedSame(os: Platform, ps: seq<Rtp>)
    ensures ArrivedAll(os, ps) == ps <==> AllFit(ps)
  {
    if ps != [] {
      var k := |ps| - 1;
      ArrivedSame(os, ps[..k]);
      assert ps[..k] + [ps[k]] == ps;
      FitSplit(ps);
      var front, p := ArrivedAll(os, ps[..k]), Arrived(os, ps[k]);
      if ArrivedAll(os, ps) == ps {
        assert p.Some? && (front + [p.value])[k] == p.value == ps[k];
        assert (front + [p.value])[..k] == front;
      }
    }
  }

  // ----- How much comes out -----

  /** The octets a state holds that can still become part of a frame. */
  function Weight(s: State): nat
  {
    |s.pendingParams| + |s.frameBuf| + (if s.fu.active then |START_CODE| + |s.fu.payload| else 0)
  }

  function Total(frames: seq<seq<Byte>>): nat
  {
    if frames == [] then 0 else Total(frames[..|frames| - 1]) + |frames[|frames| - 1]|
  }

  lemma {:induction false} TotalConcat(a: seq<seq<Byte>>, b: seq<seq<Byte>>)
    ensures Total(a + b) == Total(a) + Total(b)
  {
    if b == [] {
      assert a + b == a;
    } else {
      var k := |b| - 1;
      assert (a + b)[..|a + b| - 1] == a + b[..k] && (a + b)[|a + b| - 1] == b[k];
      TotalConcat(a, b[..k]);
    }
  }

  /** What a packet can add. */
  function Adds(p: Rtp): nat
  {
    if p.payload == [] then 0
    else
      var nalType := PayloadType(p.payload);
      if 1 <= nalType <= 23 then |START_CODE| + |p.payload|
      else if nalType == 28 && |p.payload| >= 2 then |p.payload| - 2 + (if FuStart(p.payload) then |START_CODE| + 1 else 0)
      else if nalType == 24 then |StapBytes(p.payload[1..], 0)|
      else 0
  }

  function AddsAll(ps: seq<Rtp>): nat
  {
    if ps == [] then 0 else AddsAll(ps[..|ps| - 1]) + Adds(ps[|ps| - 1])
  }

  lemma FlushWeighs(s: State, flush: bool)
    ensures Weight(Flush(s, flush).0) + Total(Flush(s, flush).1) == Weight(s)
  {
    assert [s.frameBuf][..0] == [];
  }

  lemma FragmentWeighs(t: State, p: Rtp)
    requires |p.payload| >= 2
    ensures match OnFragment(t, p.seqNo, p.payload)
            case None => Weight(if t.fu.active then t.(fu := ResetFu(t.fu)) else t) <= Weight(t)
            case Some(fu) =>
              Weight(if FuEnd(p.payload) then FinishFragment(t.(fu := fu)) else t.(fu := fu))
              <= Weight(t) + |p.payload| - 2 + (if FuStart(p.payload) then |START_CODE| + 1 else 0)
  {
  }

  lemma SingleWeighs(s: State, payload: seq<Byte>)
    requires payload != []
    ensures Weight(OnSingle(s, payload)) <= Weight(s) + |START_CODE| + |payload|
  {
  }

  /** No packet makes more of itself than it brings. */
  lemma StepWeighs(s: State, p: Rtp)
    ensures var (t, frames) := Step(s, p); Weight(t) + Total(frames) <= Weight(s) + Adds(p)
  {
    hide OnSingle, OnFragment, FinishFragment, StapBytes, OnSsrc, FuStart, FuEnd;
    SsrcWeighs(s, p);
    PayloadWeighs(OnSsrc(s, p), p);
  }

  lemma SsrcWeighs(s: State, p: Rtp)
    ensures Weight(OnSsrc(s, p)) <= Weight(s)
  {
  }

  lemma PayloadWeighs(s: State, p: Rtp)
    ensures var (t, frames) := StepPayload(s, p); Weight(t) + Total(frames) <= Weight(s) + Adds(p)
  {
    hide OnSingle, OnFragment, FinishFragment, StapBytes, FuStart, FuEnd, Flush, Weight, Total, ResetFu;
    NothingWeighs();
    if p.payload != [] {
      var nalType := PayloadType(p.payload);
      if IsParam(nalType) {
        ParamWeighs(s, p.payload);
      } else if 1 <= nalType <= 23 {
        SingleWeighs(s, p.payload);
        FlushWeighs(OnSingle(s, p.payload), p.marker);
      } else if nalType == 28 && |p.payload| >= 2 {
        FuWeighs(s, p);
      } else if nalType == 24 {
        StapWeighs(s, StapBytes(p.payload[1..], 0));
        FlushWeighs(s.(frameBuf := s.frameBuf + StapBytes(p.payload[1..], 0)), p.marker);
      }
    }
  }

  lemma NothingWeighs()
    ensures Total([]) == 0
  {
  }

  lemma ParamWeighs(s: State, payload: seq<Byte>)
    ensures Weight(s.(pendingParams := s.pendingParams + START_CODE + payload)) == Weight(s) + |START_CODE| + |payload|
  {
  }

  lemma StapWeighs(s: State, bytes: seq<Byte>)
    ensures Weight(s.(frameBuf := s.frameBuf + bytes)) == Weight(s) + |bytes|
  {
  }

  lemma FuWeighs(s: State, p: Rtp)
    requires |p.payload| >= 2 && PayloadType(p.payload) == 28
    ensures var (t, frames) := StepPayload(s, p); Weight(t) + Total(frames) <= Weight(s) + Adds(p)
  {
    hide OnFragment, FinishFragment, FuStart, FuEnd, Flush, Weight, Total, ResetFu;
    var (t, early) := Flush(s, FuStart(p.payload));
    FlushWeighs(s, FuStart(p.payload));
    FragmentWeighs(t, p);
    var fu := OnFragment(t, p.seqNo, p.payload);
    if fu.Some? {
      var v := if FuEnd(p.payload) then FinishFragment(t.(fu := fu.value)) else t.(fu := fu.value);
      FlushWeighs(v, p.marker);
      TotalConcat(early, Flush(v, p.marker).1);
    }
  }

  lemma {:induction false} RunWeighs(s: State, ps: seq<Rtp>)
    ensures var (t, frames) := Run(s, ps); Weight(t) + Total(frames) <= Weight(s) + AddsAll(ps)
  {
    hide Step, Adds, Weight;
    if ps != [] {
      var k := |ps| - 1;
      RunWeighs(s, ps[..k]);
      StepWeighs(Run(s, ps[..k]).0, ps[k]);
      TotalConcat(Run(s, ps[..k]).1, Step(Run(s, ps[..k]).0, ps[k]).1);
    } else {
      NothingWeighs();
    }
  }

  // ----- How much should come out -----

  lemma {:induction false} AddsConcat(a: seq<Rtp>, b: seq<Rtp>)
    ensures AddsAll(a + b) == AddsAll(a) + AddsAll(b)
  {
    hide Adds;
    if b == [] {
      assert a + b == a;
    } else {
      var k := |b| - 1;
      assert (a + b)[..|a + b| - 1] == a + b[..k] && (a + b)[|a + b| - 1] == b[k];
      AddsConcat(a, b[..k]);
    }
  }

  lemma AddsOne(p: Rtp)
    ensures AddsAll([p]) == Adds(p)
  {
    assert [p][..0] == [];
  }

  lemma {:induction false} FragmentsAdd(u: Unit, seqNo: nat, ssrc: Word32, marker: bool, i: nat)
    requires UnitOk(u) && u.Fragments? && i <= |u.pieces|
    ensures AddsAll(UnitPackets(u, seqNo, ssrc, marker)[..i])
         == if i == 0 then 0 else |START_CODE| + 1 + |Flatten(u.pieces[..i])|
  {
    if i > 0 {
      var ps := UnitPackets(u, seqNo, ssrc, marker);
      FragmentsAdd(u, seqNo, ssrc, marker, i - 1);
      FragmentBits(u.header, u.pieces, i - 1);
      FlattenNext(u.pieces, i - 1);
      assert ps[..i][..i - 1] == ps[..i - 1] && ps[..i][i - 1] == ps[i - 1];
      assert |ps[i - 1].payload| == 2 + |u.pieces[i - 1]|;
      hide Flatten, FragmentPayload, FuStart, UnitPackets;
    }
  }

  /** The packets of a unit add its NAL units, each with a start code. */
  lemma UnitAdds(u: Unit, seqNo: nat, ssrc: Word32, marker: bool)
    requires UnitOk(u)
    ensures AddsAll(UnitPackets(u, seqNo, ssrc, marker)) == |Join(UnitNals(u))|
  {
    match u
    case Single(nal) => SingleAdds(nal, seqNo, ssrc, marker);
    case Fragments(header, pieces) => AllFragmentsAdd(u, seqNo, ssrc, marker);
    case Aggregate(nri, nals) => AggregateAdds(u, seqNo, ssrc, marker);
  }

  lemma JoinOne(nal: Nal)
    ensures Join([nal]) == START_CODE + nal
  {
    JoinSnoc([], nal);
    assert [] + [nal] == [nal];
  }

  lemma SingleAdds(nal: Nal, seqNo: nat, ssrc: Word32, marker: bool)
    requires UnitOk(Single(nal))
    ensures AddsAll(UnitPackets(Single(nal), seqNo, ssrc, marker)) == |Join(UnitNals(Single(nal)))|
  {
    hide Join, AddsAll;
    AddsOne(UnitPackets(Single(nal), seqNo, ssrc, marker)[0]);
    JoinOne(nal);
  }

  lemma AllFragmentsAdd(u: Unit, seqNo: nat, ssrc: Word32, marker: bool)
    requires UnitOk(u) && u.Fragments?
    ensures AddsAll(UnitPackets(u, seqNo, ssrc, marker)) == |Join(UnitNals(u))|
  {
    hide Join, AddsAll, Flatten, FragmentPayload;
    var ps, n := UnitPackets(u, seqNo, ssrc, marker), |u.pieces|;
    FragmentsAdd(u, seqNo, ssrc, marker, n);
    assert ps[..n] == ps && u.pieces[..n] == u.pieces;
    JoinOne([u.header] + Flatten(u.pieces));
  }

  lemma AggregateAdds(u: Unit, seqNo: nat, ssrc: Word32, marker: bool)
    requires UnitOk(u) && u.Aggregate?
    ensures AddsAll(UnitPackets(u, seqNo, ssrc, marker)) == |Join(UnitNals(u))|
  {
    hide Join, AddsAll, StapElements, StapBody;
    var p := UnitPackets(u, seqNo, ssrc, marker)[0];
    AddsOne(p);
    StapElementsBody(u.nals);
    assert p.payload[1..] == StapBody(u.nals) && StapBody(u.nals)[0..] == StapBody(u.nals);
  }

  /** The octets of what has come out, and of what is under way. */
  function Size(a: Assembly): nat { |Join(Concat(a.frames))| + |Join(a.now.frame)| + |Join(a.now.pend)| }

  lemma TakeSize(r: Rendering, u: Unit)
    ensures |Join(Take(r, u).frame)| + |Join(Take(r, u).pend)| == |Join(r.frame)| + |Join(r.pend)| + |Join(UnitNals(u))|
  {
    JoinConcat(r.frame, UnitNals(u));
    JoinConcat(r.frame, r.pend);
    JoinConcat(r.frame + r.pend, UnitNals(u));
    JoinEmpty([]);
    if IsParamUnit(u) {
      JoinConcat(r.pend, UnitNals(u));
    }
    hide Join;
  }

  lemma ReceiveSize(a: Assembly, m: Marked)
    ensures Size(Receive(a, m)) == Size(a) + |Join(UnitNals(m.unit))|
  {
    var c := if Cuts(a.now, m.unit) then Assembly(a.frames + [a.now.frame], a.now.(frame := [])) else a;
    ConcatSnoc(a.frames, a.now.frame);
    JoinConcat(Concat(a.frames), a.now.frame);
    JoinEmpty([]);
    TakeSize(c.now, m.unit);
    var r := Take(c.now, m.unit);
    ConcatSnoc(c.frames, r.frame);
    JoinConcat(Concat(c.frames), r.frame);
    hide Join, Take, Concat, UnitNals;
  }

  lemma {:induction false} StreamSize(a: Assembly, ms: seq<Marked>, seqNo: nat, ssrc: Word32)
    requires AllOk(ms)
    ensures Size(Assemble(a, ms)) == Size(a) + AddsAll(PacketsOf(ms, seqNo, ssrc))
  {
    hide Receive, Size, UnitPackets, Adds, UnitOk;
    if ms != [] {
      var k := |ms| - 1;
      StreamSize(a, ms[..k], seqNo, ssrc);
      var front := PacketsOf(ms[..k], seqNo, ssrc);
      ReceiveSize(Assemble(a, ms[..k]), ms[k]);
      UnitAdds(ms[k].unit, seqNo + |front|, ssrc, ms[k].marker);
      AddsConcat(front, UnitPackets(ms[k].unit, seqNo + |front|, ssrc, ms[k].marker));
    }
  }

  lemma {:induction false} TotalOfFrames(frames: seq<seq<Nal>>)
    ensures Total(JoinEach(frames)) == |Join(Concat(frames))|
  {
    if frames != [] {
      var k := |frames| - 1;
      TotalOfFrames(frames[..k]);
      JoinConcat(Concat(frames[..k]), frames[k]);
      assert JoinEach(frames)[..k] == JoinEach(frames[..k]) by { JoinEachLength(frames[..k]); }
      JoinEachLength(frames[..k]);
      hide Join;
    }
  }

  lemma {:induction false} JoinEachLength(frames: seq<seq<Nal>>)
    ensures |JoinEach(frames)| == |frames|
  {
    hide Join;
    if frames != [] { JoinEachLength(frames[..|frames| - 1]); }
  }

  // ----- What is lost -----

  /** The form of a packet that carries a unit. */
  ghost predicate CarriesUnit(p: Rtp)
  {
    && p.payload != []
    && var nalType := PayloadType(p.payload);
       || 1 <= nalType <= 23
       || (nalType == 28 && |p.payload| >= 2)
       || (nalType == 24 && exists nals :: StapOf(p, nals))
  }

  ghost predicate StapOf(p: Rtp, nals: seq<Nal>)
    requires p.payload != []
  {
    (forall n :: n in nals ==> |n| < 0x1_0000) && p.payload[1..] == StapBody(nals)
  }

  lemma {:induction false} CutStap(nals: seq<Nal>, c: nat)
    requires (forall n :: n in nals ==> |n| < 0x1_0000) && c < |StapBody(nals)|
    ensures |Join(StapElements(StapBody(nals)[..c]))| < |Join(nals)|
  {
    JoinCons(nals);
    var nal, rest, body := nals[0], StapBody(nals[1..]), StapBody(nals)[..c];
    if c < 2 + |nal| {
      U16HiLo(|nal|);
      assert c >= 2 ==> U16(body[0], body[1]) == |nal|;
      JoinEmpty([]);
    } else {
      var d := c - 2 - |nal|;
      assert body == [Hi(|nal|), Lo(|nal|)] + nal + rest[..d];
      StapElementsCons(nal, rest[..d]);
      CutStap(nals[1..], d);
      JoinCons([nal] + StapElements(rest[..d]));
      assert ([nal] + StapElements(rest[..d]))[1..] == StapElements(rest[..d]);
      hide Join, StapElements;
    }
  }

  /** A packet that does not fit adds less than it should. */
  lemma CutAddsLess(os: Platform, p: Rtp)
    requires CarriesUnit(p) && !PacketFits(p)
    ensures var q := Arrived(os, p); (if q.None? then 0 else Adds(q.value)) < Adds(p)
  {
    var c := BUFFER_SIZE - RTP_HEADER_SIZE;
    var nalType := PayloadType(p.payload);
    if nalType == 24 {
      var nals :| StapOf(p, nals);
      StapElementsBody(nals);
      CutStap(nals, c - 1);
      assert p.payload[..c][1..] == p.payload[1..][..c - 1];
      assert p.payload[1..][0..] == p.payload[1..] && p.payload[..c][1..][0..] == p.payload[..c][1..];
    }
  }

  lemma UnitCarries(u: Unit, seqNo: nat, ssrc: Word32, marker: bool, i: nat)
    requires UnitOk(u) && i < |UnitPackets(u, seqNo, ssrc, marker)|
    ensures CarriesUnit(UnitPackets(u, seqNo, ssrc, marker)[i])
  {
    var p := UnitPackets(u, seqNo, ssrc, marker)[i];
    if u.Aggregate? {
      assert p.payload[1..] == StapBody(u.nals);
      assert StapOf(p, u.nals);
    } else if u.Fragments? {
      FragmentBits(u.header, u.pieces, i);
    }
  }

  ghost predicate AllCarry(ps: seq<Rtp>) { forall i :: 0 <= i < |ps| ==> CarriesUnit(ps[i]) }

  lemma {:induction false} StreamCarries(ms: seq<Marked>, seqNo: nat, ssrc: Word32)
    requires AllOk(ms)
    ensures AllCarry(PacketsOf(ms, seqNo, ssrc))
  {
    hide UnitPackets, CarriesUnit, UnitOk;
    if ms != [] {
      var k := |ms| - 1;
      StreamCarries(ms[..k], seqNo, ssrc);
      var front := PacketsOf(ms[..k], seqNo, ssrc);
      var ps := UnitPackets(ms[k].unit, seqNo + |front|, ssrc, ms[k].marker);
      forall i | 0 <= i < |ps|
        ensures CarriesUnit(ps[i])
      {
        UnitCarries(ms[k].unit, seqNo + |front|, ssrc, ms[k].marker, i);
      }
    }
  }

  lemma {:induction false} ArrivedAddLess(os: Platform, ps: seq<Rtp>)
    requires AllCarry(ps)
    ensures AddsAll(ArrivedAll(os, ps)) <= AddsAll(ps)
    ensures !AllFit(ps) ==> AddsAll(ArrivedAll(os, ps)) < AddsAll(ps)
  {
    hide *;
    if ps == [] {
      NothingAdded(os);
    } else {
      var k := |ps| - 1;
      CarrySplit(ps);
      FitSplit(ps);
      ArrivedAddLess(os, ps[..k]);
      ArrivedAdds(os, ps);
      if PacketFits(ps[k]) { WholeAdds(os, ps[k]); } else { CutAddsLess(os, ps[k]); }
    }
  }

  lemma NothingAdded(os: Platform)
    ensures AddsAll(ArrivedAll(os, [])) == AddsAll([]) == 0 && AllFit([])
  {
  }

  lemma CarrySplit(ps: seq<Rtp>)
    requires ps != [] && AllCarry(ps)
    ensures AllCarry(ps[..|ps| - 1]) && CarriesUnit(ps[|ps| - 1])
  {
  }

  lemma FitSplit(ps: seq<Rtp>)
    requires ps != []
    ensures AllFit(ps) <==> AllFit(ps[..|ps| - 1]) && PacketFits(ps[|ps| - 1])
  {
    assert forall i :: 0 <= i < |ps| - 1 ==> ps[..|ps| - 1][i] == ps[i];
  }

  lemma WholeAdds(os: Platform, p: Rtp)
    requires PacketFits(p)
    ensures Arrived(os, p) == Some(p)
  {
  }

  lemma ArrivedAdds(os: Platform, ps: seq<Rtp>)
    requires ps != []
    ensures var (k, q) := (|ps| - 1, Arrived(os, ps[|ps| - 1]));
            && AddsAll(ArrivedAll(os, ps)) == AddsAll(ArrivedAll(os, ps[..k])) + (if q.None? then 0 else Adds(q.value))
            && AddsAll(ps) == AddsAll(ps[..k]) + Adds(ps[k])
  {
    hide Adds, Arrived;
    var (k, q) := (|ps| - 1, Arrived(os, ps[|ps| - 1]));
    if q.Some? {
      AddsConcat(ArrivedAll(os, ps[..k]), [q.value]);
      AddsOne(q.value);
    } else {
      assert ArrivedAll(os, ps) == ArrivedAll(os, ps[..k]);
    }
  }

  // ----- Main result -----

  /** The receiver has put out the frames of `a` and holds what `a` has under way. */
  ghost predicate CameOut(os: Platform, s: State, ds: seq<seq<Byte>>, a: Assembly, ssrc: Word32)
  {
    var (t, frames) := RunDatagrams(os, s, ds);
    frames == JoinEach(a.frames) && Ready(t, a.now, ssrc)
  }

  /** No fragments begun, and nothing of another source. */
  predicate Settled(s: State, ssrc: Word32)
  {
    !s.fu.active && HeldFrame(s, ssrc) == s.frameBuf && HeldParams(s, ssrc) == s.pendingParams
  }

  /** Depacketizer round trip over the socket: a loss-free stream of units, in any order, comes out as
      the frames it should exactly when every packet fits the receive buffer. */
  lemma StreamArrives(os: Platform, s: State, pend: seq<Nal>, ms: seq<Marked>, seqNo: nat, ssrc: Word32, timestamp: Word32)
    requires AllOk(ms) && Ready(s, Rendering([], pend), ssrc) && Settled(s, ssrc)
    ensures CameOut(os, s, Datagrams(PacketsOf(ms, seqNo, ssrc), timestamp), Assemble(Waiting(pend), ms), ssrc)
       <==> AllFit(PacketsOf(ms, seqNo, ssrc))
  {
    hide *;
    var ps, a := PacketsOf(ms, seqNo, ssrc), Assemble(Waiting(pend), ms);
    var ds := Datagrams(ps, timestamp);
    RunDatagramsIsRun(os, s, ds);
    PacketsArrive(os, ps, timestamp);
    CameOutIs(os, s, ds, a, ssrc);
    if AllFit(ps) {
      ArrivedSame(os, ps);
      WaitingOnly(pend);
      StreamDelivered(s, Rendering([], pend), ms, seqNo, ssrc);
    } else {
      StreamCarries(ms, seqNo, ssrc);
      ArrivedAddLess(os, ps);
      RunWeighs(s, ArrivedAll(os, ps));
      StreamSize(Waiting(pend), ms, seqNo, ssrc);
      StartSize(s, pend, ssrc);
      if CameOut(os, s, ds, a, ssrc) {
        EndSize(Run(s, ArrivedAll(os, ps)).0, a, ssrc);
      }
    }
  }

  lemma CameOutIs(os: Platform, s: State, ds: seq<seq<Byte>>, a: Assembly, ssrc: Word32)
    ensures CameOut(os, s, ds, a, ssrc)
       <==> RunDatagrams(os, s, ds).1 == JoinEach(a.frames) && Ready(RunDatagrams(os, s, ds).0, a.now, ssrc)
  {
  }

  lemma StartSize(s: State, pend: seq<Nal>, ssrc: Word32)
    requires Ready(s, Rendering([], pend), ssrc) && Settled(s, ssrc)
    ensures Weight(s) == Size(Waiting(pend))
  {
    JoinEmpty([]);
    hide Join;
  }

  lemma EndSize(t: State, a: Assembly, ssrc: Word32)
    requires Ready(t, a.now, ssrc)
    ensures Weight(t) + Total(JoinEach(a.frames)) >= Size(a)
  {
    TotalOfFrames(a.frames);
    hide Join, Concat, Total, JoinEach;
  }

  /** A slice sent whole in one packet longer than the buffer: a fresh receiver hands over a frame that
      lacks its end, or none at all. */
  lemma LongSliceDamaged(nal: Nal, ssrc: Word32, timestamp: Word32)
    requires |nal| > 8180 && NalType(nal) == 5
    ensures var ds := Datagrams(PacketsOf([Marked(Single(nal), true)], 0, ssrc), timestamp);
            && RunDatagrams(Posix, INITIAL_STATE, ds).1 == [[0, 0, 0, 1] + nal[..8180]]
            && RunDatagrams(Windows, INITIAL_STATE, ds).1 == []
  {
    var ms, p := [Marked(Single(nal), true)], Rtp(true, 0, ssrc, nal);
    var q := p.(payload := nal[..BUFFER_SIZE - RTP_HEADER_SIZE]);
    OnlyOne(Marked(Single(nal), true), ssrc);
    var ds := Datagrams([p], timestamp);
    RunDatagramsIsRun(Posix, INITIAL_STATE, ds);
    RunDatagramsIsRun(Windows, INITIAL_STATE, ds);
    PacketsArrive(Posix, [p], timestamp);
    PacketsArrive(Windows, [p], timestamp);
    assert [p][..0] == [];
    assert ArrivedAll(Posix, [p]) == [q] && ArrivedAll(Windows, [p]) == [];
    hide Datagrams;
    RunOne(INITIAL_STATE, q);
    RunNothing(INITIAL_STATE);
    assert [] + START_CODE + q.payload == START_CODE + q.payload;
  }

  lemma OnlyOne(m: Marked, ssrc: Word32)
    requires MarkedOk(m)
    ensures PacketsOf([m], 0, ssrc) == UnitPackets(m.unit, 0, ssrc, m.marker)
  {
    assert [m][..0] == [];
  }
}
