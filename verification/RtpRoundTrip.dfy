/** Loss-free transport of H.264 access units: packetization as RFC 6184 prescribes (and as
    RtpSender.kt performs), undone by the depacketizer. */
module RtpRoundTrip {
  import opened Bytes
  import opened AnnexB
  import opened RtpDepacketizer

  // ----- Access units and their packets -----

  /** What one packet, or one run of fragments, carries (sections 5.6, 5.8 and 5.7.1 of RFC 6184). */
  datatype Unit =
    | Single(nal: Nal)
    | Fragments(header: Byte, pieces: seq<seq<Byte>>)
    | Aggregate(nri: nat, nals: seq<Nal>)

  predicate UnitOk(u: Unit)
  {
    match u
    case Single(nal) => nal != [] && 1 <= NalType(nal) <= 23
    case Fragments(header, pieces) => header < 128 && pieces != []
    case Aggregate(nri, nals) => nri < 4 && nals != [] && forall n :: n in nals ==> |n| < 0x1_0000
  }

  predicate IsParamUnit(u: Unit)
  {
    u.Single? && u.nal != [] && IsParam(NalType(u.nal))
  }

  predicate IsIdrUnit(u: Unit)
  {
    (u.Single? && u.nal != [] && NalType(u.nal) == 5) || (u.Fragments? && u.header % 32 == 5)
  }

  function Flatten(pieces: seq<seq<Byte>>): seq<Byte>
  {
    if pieces == [] then [] else Flatten(pieces[..|pieces| - 1]) + pieces[|pieces| - 1]
  }

  function UnitNals(u: Unit): seq<Nal>
  {
    match u
    case Single(nal) => [nal]
    case Fragments(header, pieces) => [[header] + Flatten(pieces)]
    case Aggregate(_, nals) => nals
  }

  function FragmentPayload(header: Byte, pieces: seq<seq<Byte>>, i: nat): seq<Byte>
    requires i < |pieces|
  {
    var start: Byte := if i == 0 then 128 else 0;
    var end: Byte := if i == |pieces| - 1 then 64 else 0;
    [header / 32 % 4 * 32 + 28, start + end + header % 32] + pieces[i]
  }

  function StapBody(nals: seq<Nal>): seq<Byte>
    requires forall n :: n in nals ==> |n| < 0x1_0000
  {
    if nals == [] then [] else [Hi(|nals[0]|), Lo(|nals[0]|)] + nals[0] + StapBody(nals[1..])
  }

  function UnitPackets(u: Unit, seqNo: nat, ssrc: Word32, marker: bool): seq<Rtp>
    requires u.Aggregate? ==> UnitOk(u)
  {
    match u
    case Single(nal) => [Rtp(marker, seqNo % 0x1_0000, ssrc, nal)]
    case Aggregate(nri, nals) => [Rtp(marker, seqNo % 0x1_0000, ssrc, [nri * 32 + 24] + StapBody(nals))]
    case Fragments(header, pieces) =>
      seq(|pieces|, i requires 0 <= i < |pieces| =>
        Rtp(marker && i == |pieces| - 1, (seqNo + i) % 0x1_0000, ssrc, FragmentPayload(header, pieces, i)))
  }

  // ----- What should come out -----

  /** NAL units of the frame so far and parameter sets still waiting for an IDR unit. */
  datatype Rendering = Rendering(frame: seq<Nal>, pend: seq<Nal>)

  function Take(r: Rendering, u: Unit): Rendering
  {
    if IsParamUnit(u) then r.(pend := r.pend + [u.nal])
    else if IsIdrUnit(u) then Rendering(r.frame + r.pend + UnitNals(u), [])
    else r.(frame := r.frame + UnitNals(u))
  }

  /** The first k units of an access unit. */
  function Render(pend: seq<Nal>, units: seq<Unit>, k: nat): Rendering
    requires k <= |units|
  {
    if k == 0 then Rendering([], pend) else Take(Render(pend, units, k - 1), units[k - 1])
  }

  // ----- The receiver between units -----

  /** What the receiver holds when a packet of a source arrives: a packet of another source than before drops it. */
  function HeldFrame(s: State, ssrc: Word32): seq<Byte>
  {
    if !s.firstPacket && s.lastSsrc != ssrc then [] else s.frameBuf
  }

  function HeldParams(s: State, ssrc: Word32): seq<Byte>
  {
    if !s.firstPacket && s.lastSsrc != ssrc then [] else s.pendingParams
  }

  /** The receiver holds the frame and the parameter sets of `r`, whatever fragments it has begun to gather. */
  predicate Ready(s: State, r: Rendering, ssrc: Word32)
  {
    HeldParams(s, ssrc) == Join(r.pend) && HeldFrame(s, ssrc) == Join(r.frame)
  }

  /** The usual state once a packet of the stream has been seen. */
  predicate Open(s: State, ssrc: Word32) { !s.firstPacket && s.lastSsrc == ssrc }

  /** Units whose packets leave begun fragments alone. */
  predicate KeepsFragments(u: Unit) { IsParamUnit(u) || u.Aggregate? }

  /** What a whole unit makes of any state: a parameter set waits; another unit stands behind what was there, with
      the waiting parameter sets before it if it is an IDR unit; a fragmented unit begins a frame of its own. */
  predicate Recovers(s: State, u: Unit, ssrc: Word32, marker: bool, t: (State, seq<seq<Byte>>))
  {
    var (frame, params) := (HeldFrame(s, ssrc), HeldParams(s, ssrc));
    var cut := u.Fragments? && frame != [];
    && Open(t.0, ssrc) && (t.0.fu.active ==> s.fu.active && KeepsFragments(u))
    && if IsParamUnit(u) then
         t.1 == [] && t.0.frameBuf == frame && t.0.pendingParams == params + Join(UnitNals(u))
       else
         var now := (if cut then [] else frame) + (if IsIdrUnit(u) then params else []) + Join(UnitNals(u));
         && t.1 == (if cut then [frame] else []) + (if marker then [now] else [])
         && t.0.frameBuf == (if marker then [] else now)
         && t.0.pendingParams == if IsIdrUnit(u) then [] else params
  }

  lemma RunOne(s: State, p: Rtp)
    ensures Run(s, [p]) == Step(s, p)
  {
    assert [p][..0] == [];
    assert Run(s, []) == (s, []);
    var (u, frames) := Step(s, p);
    assert [] + frames == frames;
  }

  lemma AfterSsrc(s: State, p: Rtp)
    ensures var t := OnSsrc(s, p);
            && Open(t, p.ssrc) && t.frameBuf == HeldFrame(s, p.ssrc) && t.pendingParams == HeldParams(s, p.ssrc)
            && (t.fu.active ==> s.fu.active && t.fu == s.fu)
  {
  }

  lemma JoinOne(nal: Nal)
    ensures Join([nal]) == START_CODE + nal
  {
    JoinCons([nal]);
    JoinEmpty([]);
    hide Join;
    assert [nal][1..] == [];
    assert START_CODE + nal + [] == START_CODE + nal;
  }

  // ----- A unit in one packet -----

  lemma SingleRecovered(s: State, nal: Nal, seqNo: nat, ssrc: Word32, marker: bool)
    requires UnitOk(Single(nal))
    ensures Recovers(s, Single(nal), ssrc, marker, Run(s, UnitPackets(Single(nal), seqNo, ssrc, marker)))
  {
    var p := Rtp(marker, seqNo % 0x1_0000, ssrc, nal);
    RunOne(s, p);
    AfterSsrc(s, p);
    JoinOne(nal);
    hide Join, OnSsrc, Run, HeldFrame, HeldParams;
    var t := OnSsrc(s, p);
    if IsParam(NalType(nal)) {
      assert t.pendingParams + START_CODE + nal == t.pendingParams + (START_CODE + nal);
    } else {
      assert Step(s, p) == Flush(OnSingle(t, nal), marker);
      SingleAppended(t, nal);
    }
  }

  lemma SingleAppended(t: State, nal: Nal)
    requires nal != []
    ensures var (u, idr) := (OnSingle(t, nal), NalType(nal) == 5);
            && u.frameBuf == t.frameBuf + (if idr then t.pendingParams else []) + (START_CODE + nal) && u.frameBuf != []
            && u.pendingParams == (if idr then [] else t.pendingParams)
            && !u.fu.active && u.firstPacket == t.firstPacket && u.lastSsrc == t.lastSsrc
  {
    Appended(t.frameBuf + if NalType(nal) == 5 then t.pendingParams else [], nal);
    assert t.frameBuf + [] == t.frameBuf;
  }

  lemma Appended(front: seq<Byte>, nal: Nal)
    ensures front + START_CODE + nal == front + (START_CODE + nal)
  {
  }

  lemma StapElementsCons(nal: Nal, rest: seq<Byte>)
    requires |nal| < 0x1_0000
    ensures StapElements([Hi(|nal|), Lo(|nal|)] + nal + rest) == [nal] + StapElements(rest)
  {
    var body := [Hi(|nal|), Lo(|nal|)] + nal + rest;
    U16HiLo(|nal|);
    assert U16(body[0], body[1]) == |nal|;
    assert body[2..2 + |nal|] == nal && body[2 + |nal|..] == rest;
  }

  lemma {:induction false} StapElementsBody(nals: seq<Nal>)
    requires forall n :: n in nals ==> |n| < 0x1_0000
    ensures StapElements(StapBody(nals)) == nals
  {
    if nals != [] {
      StapElementsBody(nals[1..]);
      StapElementsCons(nals[0], StapBody(nals[1..]));
      hide StapElements;
      assert nals == [nals[0]] + nals[1..];
    }
  }

  lemma AggregateStep(s: State, p: Rtp, header: Byte, nals: seq<Nal>)
    requires forall n :: n in nals ==> |n| < 0x1_0000
    requires header % 32 == 24 && p.payload == [header] + StapBody(nals)
    ensures var t := OnSsrc(s, p); Step(s, p) == Flush(t.(frameBuf := t.frameBuf + Join(nals)), p.marker)
  {
    StapElementsBody(nals);
    assert p.payload[1..] == StapBody(nals) && p.payload[1..][0..] == p.payload[1..];
    hide Join, OnSsrc, StapElements, StapBody, Flush;
  }

  lemma AggregateRecovered(s: State, u: Unit, seqNo: nat, ssrc: Word32, marker: bool)
    requires UnitOk(u) && u.Aggregate?
    ensures Recovers(s, u, ssrc, marker, Run(s, UnitPackets(u, seqNo, ssrc, marker)))
  {
    var p := Rtp(marker, seqNo % 0x1_0000, ssrc, [u.nri * 32 + 24] + StapBody(u.nals));
    assert UnitPackets(u, seqNo, ssrc, marker) == [p] && UnitNals(u) == u.nals;
    AggregateStep(s, p, u.nri * 32 + 24, u.nals);
    hide Join, StapBody, Run, Step, HeldFrame, HeldParams, OnSsrc;
    RunOne(s, p);
    AfterSsrc(s, p);
    JoinEmpty(u.nals);
    var t := OnSsrc(s, p);
    assert t.frameBuf + [] + Join(u.nals) == t.frameBuf + Join(u.nals);
  }

  // ----- A fragmented unit -----

  lemma FragmentBits(header: Byte, pieces: seq<seq<Byte>>, i: nat)
    requires i < |pieces|
    ensures var payload := FragmentPayload(header, pieces, i);
            && PayloadType(payload) == 28 && payload[2..] == pieces[i]
            && (FuStart(payload) <==> i == 0) && (FuEnd(payload) <==> i == |pieces| - 1)
            && FuNalHeader(payload) == header % 128
  {
    FuHeaderBits(header, if i == 0 then 1 else 0, if i == |pieces| - 1 then 1 else 0);
  }

  lemma FuHeaderBits(header: Byte, start: nat, end: nat)
    requires start <= 1 && end <= 1
    ensures var indicator, fu := header / 32 % 4 * 32 + 28, 128 * start + 64 * end + header % 32;
            && indicator % 32 == 28 && indicator / 32 % 4 * 32 + fu % 32 == header % 128
            && (fu >= 128 <==> start == 1) && (fu / 64 % 2 == 1 <==> end == 1)
  {
    var high, low := header / 32 % 4, header % 32;
    assert header % 128 == 32 * high + low;
    assert (high * 32 + 28) / 32 == high;
  }

  /** After the first i fragments. */
  predicate Gathering(s: State, u: Unit, params: seq<Byte>, i: nat, seqNo: nat, ssrc: Word32)
    requires u.Fragments? && 0 < i <= |u.pieces|
  {
    && s.pendingParams == params && s.frameBuf == [] && Open(s, ssrc)
    && s.fu.active && s.fu.nalHeader == u.header && s.fu.expectedSeq == (seqNo + i) % 0x1_0000
    && s.fu.payload == [u.header] + Flatten(u.pieces[..i])
  }

  /** With no frame under way, a fragment packet only feeds the reassembly. */
  lemma FragmentOnly(v: State, p: Rtp, fu: Fu)
    requires |p.payload| >= 2 && PayloadType(p.payload) == 28 && v.frameBuf == []
    requires OnFragment(v, p.seqNo, p.payload) == Some(fu)
    ensures var t := v.(fu := fu);
            StepPayload(v, p) == Flush(if FuEnd(p.payload) then FinishFragment(t) else t, p.marker)
  {
    hide OnFragment, FinishFragment, FuStart, FuEnd;
    var t := v.(fu := fu);
    var w := if FuEnd(p.payload) then FinishFragment(t) else t;
    assert [] + Flush(w, p.marker).1 == Flush(w, p.marker).1;
  }

  lemma FragmentFits(v: State, u: Unit, i: nat, seqNo: nat, p: Rtp)
    requires UnitOk(u) && u.Fragments? && i < |u.pieces|
    requires p.seqNo == (seqNo + i) % 0x1_0000 && p.payload == FragmentPayload(u.header, u.pieces, i)
    requires i > 0 ==> v.fu.active && v.fu.nalHeader == u.header && v.fu.expectedSeq == p.seqNo
                       && v.fu.payload == [u.header] + Flatten(u.pieces[..i])
    ensures var fu := OnFragment(v, p.seqNo, p.payload);
            && fu.Some? && fu.value.active && fu.value.nalHeader == u.header
            && fu.value.expectedSeq == (seqNo + i + 1) % 0x1_0000
            && fu.value.payload == [u.header] + Flatten(u.pieces[..i + 1])
  {
    FragmentBits(u.header, u.pieces, i);
    FlattenNext(u.pieces, i);
    NextWraps(seqNo + i, p.seqNo);
    hide Flatten, FragmentPayload, FuStart, FuEnd, FuNalHeader, Next;
  }

  /** The fragment is taken into the reassembly; what it completes comes after. */
  lemma FragmentTaken(s: State, params: seq<Byte>, u: Unit, i: nat, seqNo: nat, p: Rtp) returns (t: State)
    requires UnitOk(u) && u.Fragments? && i < |u.pieces|
    requires p.seqNo == (seqNo + i) % 0x1_0000 && p.payload == FragmentPayload(u.header, u.pieces, i)
    requires if i == 0 then HeldFrame(s, p.ssrc) == [] && HeldParams(s, p.ssrc) == params
             else Gathering(s, u, params, i, seqNo, p.ssrc)
    ensures Gathering(t, u, params, i + 1, seqNo, p.ssrc)
    ensures Step(s, p) == Flush(if i == |u.pieces| - 1 then FinishFragment(t) else t, p.marker)
  {
    AfterSsrc(s, p);
    var v := OnSsrc(s, p);
    assert Open(v, p.ssrc) && v.frameBuf == [] && v.pendingParams == params;
    assert i > 0 ==> v.fu == s.fu;
    hide OnSsrc, HeldFrame, HeldParams, Flatten, FragmentPayload, FuStart, FuEnd, FuNalHeader, OnFragment, UnitOk, StepPayload;
    FragmentBits(u.header, u.pieces, i);
    FragmentFits(v, u, i, seqNo, p);
    var fu := OnFragment(v, p.seqNo, p.payload).value;
    t := v.(fu := fu);
    FragmentOnly(v, p, fu);
  }

  lemma FlattenNext(pieces: seq<seq<Byte>>, i: nat)
    requires i < |pieces|
    ensures Flatten(pieces[..i + 1]) == Flatten(pieces[..i]) + pieces[i]
    ensures i == 0 ==> Flatten(pieces[..1]) == pieces[0]
  {
    assert pieces[..i + 1][..i] == pieces[..i];
  }

  lemma NextWraps(n: nat, seqNo: Word16)
    requires seqNo == n % 0x1_0000
    ensures Next(seqNo) == (n + 1) % 0x1_0000
  {
  }

  lemma {:induction false} FragmentsGathered(s: State, params: seq<Byte>, u: Unit, i: nat, seqNo: nat, ssrc: Word32, marker: bool)
    requires UnitOk(u) && u.Fragments? && 0 < i < |u.pieces|
    requires HeldFrame(s, ssrc) == [] && HeldParams(s, ssrc) == params
    ensures var t := Run(s, UnitPackets(u, seqNo, ssrc, marker)[..i]);
            t.1 == [] && Gathering(t.0, u, params, i, seqNo, ssrc)
  {
    var ps := UnitPackets(u, seqNo, ssrc, marker);
    assert ps[..i][..i - 1] == ps[..i - 1] && ps[..i][i - 1] == ps[i - 1];
    var before := Run(s, ps[..i - 1]);
    if i > 1 {
      FragmentsGathered(s, params, u, i - 1, seqNo, ssrc, marker);
    } else {
      assert ps[..0] == [] && before == (s, []);
    }
    var t := FragmentTaken(before.0, params, u, i - 1, seqNo, ps[i - 1]);
    hide Gathering, Step, HeldFrame, HeldParams, FinishFragment, FragmentPayload;
  }

  lemma AllGathered(s: State, u: Unit, seqNo: nat, ssrc: Word32, marker: bool) returns (t: State)
    requires UnitOk(u) && u.Fragments? && HeldFrame(s, ssrc) == []
    ensures Gathering(t, u, HeldParams(s, ssrc), |u.pieces|, seqNo, ssrc)
    ensures Run(s, UnitPackets(u, seqNo, ssrc, marker)) == Flush(FinishFragment(t), marker)
  {
    var ps, params := UnitPackets(u, seqNo, ssrc, marker), HeldParams(s, ssrc);
    var k := |ps| - 1;
    var before := Run(s, ps[..k]);
    if k > 0 {
      FragmentsGathered(s, params, u, k, seqNo, ssrc, marker);
    } else {
      assert ps[..0] == [] && before == (s, []);
    }
    t := FragmentTaken(before.0, params, u, k, seqNo, ps[k]);
    hide Step, Gathering, FinishFragment, FragmentPayload, HeldFrame, HeldParams, Flush;
    assert [] + Step(before.0, ps[k]).1 == Step(before.0, ps[k]).1;
  }

  /** With no frame under way. */
  lemma FragmentsRecovered(s: State, u: Unit, seqNo: nat, ssrc: Word32, marker: bool)
    requires UnitOk(u) && u.Fragments? && HeldFrame(s, ssrc) == []
    ensures Recovers(s, u, ssrc, marker, Run(s, UnitPackets(u, seqNo, ssrc, marker)))
  {
    assert !IsParamUnit(u) && (IsIdrUnit(u) <==> u.header % 32 == 5);
    hide Gathering, FinishFragment, Join, HeldFrame, HeldParams, UnitNals, IsIdrUnit, IsParamUnit, UnitPackets, UnitOk, Run;
    var t := AllGathered(s, u, seqNo, ssrc, marker);
    Finished(t, HeldParams(s, ssrc), u, seqNo, ssrc);
  }

  lemma Finished(t: State, params: seq<Byte>, u: Unit, seqNo: nat, ssrc: Word32)
    requires UnitOk(u) && u.Fragments? && Gathering(t, u, params, |u.pieces|, seqNo, ssrc)
    ensures var (v, idr) := (FinishFragment(t), u.header % 32 == 5);
            && v.frameBuf == [] + (if idr then params else []) + Join(UnitNals(u)) && v.frameBuf != []
            && v.pendingParams == (if idr then [] else params) && !v.fu.active && Open(v, ssrc)
  {
    var nal := [u.header] + Flatten(u.pieces);
    assert u.pieces[..|u.pieces|] == u.pieces;
    JoinOne(nal);
    hide Join, Flatten;
    Appended(if u.header % 32 == 5 then [] + params else [], nal);
  }

  // ----- A fragmented unit after other units of the frame -----

  lemma StartFlushesFrame(s: State, p: Rtp)
    requires |p.payload| >= 2 && PayloadType(p.payload) == 28 && FuStart(p.payload)
    requires OnSsrc(s, p).frameBuf == s.frameBuf != []
    ensures var clean := Step(s.(frameBuf := []), p); Step(s, p) == (clean.0, [s.frameBuf] + clean.1)
  {
    var v, w := OnSsrc(s, p), OnSsrc(s.(frameBuf := []), p);
    assert w == v.(frameBuf := []);
    hide OnSsrc, FuStart, FuEnd, FinishFragment;
    assert StepPayload(v, p).0 == StepPayload(w, p).0;
    assert StepPayload(v, p).1 == [s.frameBuf] + StepPayload(w, p).1;
  }

  lemma {:induction false} StartFlushesFrameInRun(s: State, ps: seq<Rtp>)
    requires ps != []
    requires |ps[0].payload| >= 2 && PayloadType(ps[0].payload) == 28 && FuStart(ps[0].payload)
    requires OnSsrc(s, ps[0]).frameBuf == s.frameBuf != []
    ensures var clean := Run(s.(frameBuf := []), ps); Run(s, ps) == (clean.0, [s.frameBuf] + clean.1)
  {
    hide Step, PayloadType, FuStart, OnSsrc;
    if |ps| == 1 {
      assert ps == [ps[0]];
      RunOne(s, ps[0]);
      RunOne(s.(frameBuf := []), ps[0]);
      StartFlushesFrame(s, ps[0]);
    } else {
      StartFlushesFrameInRun(s, ps[..|ps| - 1]);
      assert Run(s, ps).1 == [s.frameBuf] + Run(s.(frameBuf := []), ps).1;
    }
  }

  /** A fragmented unit that meets a frame cuts it: what came before leaves at once as a frame of its own. */
  lemma LaterFragmentsRecovered(s: State, u: Unit, seqNo: nat, ssrc: Word32, marker: bool)
    requires UnitOk(u) && u.Fragments? && HeldFrame(s, ssrc) != []
    ensures Recovers(s, u, ssrc, marker, Run(s, UnitPackets(u, seqNo, ssrc, marker)))
  {
    hide *;
    FrameTaken(s, ssrc);
    CutInRun(s, u, seqNo, ssrc, marker);
    FragmentsRecovered(s.(frameBuf := []), u, seqNo, ssrc, marker);
    var clean := Run(s.(frameBuf := []), UnitPackets(u, seqNo, ssrc, marker));
    CutRecovered(s, u, ssrc, marker, clean);
  }

  lemma CutInRun(s: State, u: Unit, seqNo: nat, ssrc: Word32, marker: bool)
    requires UnitOk(u) && u.Fragments? && HeldFrame(s, ssrc) == s.frameBuf != []
    ensures var clean := Run(s.(frameBuf := []), UnitPackets(u, seqNo, ssrc, marker));
            Run(s, UnitPackets(u, seqNo, ssrc, marker)) == (clean.0, [s.frameBuf] + clean.1)
  {
    var ps := UnitPackets(u, seqNo, ssrc, marker);
    FragmentBits(u.header, u.pieces, 0);
    AfterSsrc(s, ps[0]);
    hide Run, OnSsrc, FuStart, FragmentPayload, HeldFrame;
    StartFlushesFrameInRun(s, ps);
  }

  lemma CutRecovered(s: State, u: Unit, ssrc: Word32, marker: bool, clean: (State, seq<seq<Byte>>))
    requires u.Fragments? && HeldFrame(s, ssrc) == s.frameBuf != [] && HeldFrame(s.(frameBuf := []), ssrc) == []
    requires HeldParams(s.(frameBuf := []), ssrc) == HeldParams(s, ssrc)
    requires Recovers(s.(frameBuf := []), u, ssrc, marker, clean)
    ensures Recovers(s, u, ssrc, marker, (clean.0, [s.frameBuf] + clean.1))
  {
    hide HeldFrame, HeldParams, Join, UnitNals, IsIdrUnit;
  }

  lemma FrameTaken(s: State, ssrc: Word32)
    requires HeldFrame(s, ssrc) != []
    ensures var clean := s.(frameBuf := []);
            && HeldFrame(s, ssrc) == s.frameBuf && HeldFrame(clean, ssrc) == [] && HeldParams(clean, ssrc) == HeldParams(s, ssrc)
            && clean.fu == s.fu
  {
  }

  // ----- Any unit, any state -----

  /** Whatever was lost or came before - begun fragments, a frame under way, parameter sets that wait, another
      source - a unit whose packets all arrive is recovered. */
  lemma UnitRecovered(s: State, u: Unit, seqNo: nat, ssrc: Word32, marker: bool)
    requires UnitOk(u)
    ensures Recovers(s, u, ssrc, marker, Run(s, UnitPackets(u, seqNo, ssrc, marker)))
  {
    match u
    case Single(nal) => SingleRecovered(s, nal, seqNo, ssrc, marker);
    case Aggregate(_, _) => AggregateRecovered(s, u, seqNo, ssrc, marker);
    case Fragments(_, _) =>
      if HeldFrame(s, ssrc) == [] {
        FragmentsRecovered(s, u, seqNo, ssrc, marker);
      } else {
        LaterFragmentsRecovered(s, u, seqNo, ssrc, marker);
      }
  }

  // ----- In NAL units -----

  predicate Delivered(t: (State, seq<seq<Byte>>), r: Rendering, ssrc: Word32, marker: bool)
  {
    if marker then t.1 == [Join(r.frame)] && Ready(t.0, r.(frame := []), ssrc)
    else t.1 == [] && Ready(t.0, r, ssrc)
  }

  lemma UnitDelivered(s: State, r: Rendering, u: Unit, seqNo: nat, ssrc: Word32, marker: bool)
    requires UnitOk(u) && Ready(s, r, ssrc) && (marker ==> !IsParamUnit(u)) && (u.Fragments? ==> r.frame == [])
    ensures Delivered(Run(s, UnitPackets(u, seqNo, ssrc, marker)), Take(r, u), ssrc, marker)
  {
    hide Run, UnitPackets, UnitOk, Join, Take, UnitNals, IsParamUnit, IsIdrUnit;
    UnitRecovered(s, u, seqNo, ssrc, marker);
    JoinTaken(r, u);
    JoinEmpty(r.frame);
    JoinEmpty([]);
  }

  lemma JoinTaken(r: Rendering, u: Unit)
    ensures var t := Take(r, u);
            if IsParamUnit(u) then
              Join(t.frame) == Join(r.frame) && Join(t.pend) == Join(r.pend) + Join(UnitNals(u))
            else
              && Join(t.frame) == Join(r.frame) + (if IsIdrUnit(u) then Join(r.pend) else []) + Join(UnitNals(u))
              && Join(t.pend) == if IsIdrUnit(u) then [] else Join(r.pend)
  {
    JoinConcat(r.frame, r.pend);
    JoinConcat(r.frame + r.pend, UnitNals(u));
    JoinConcat(r.frame, UnitNals(u));
    JoinConcat(r.pend, UnitNals(u));
    JoinEmpty([]);
    hide Join;
    assert Join(r.frame) + [] == Join(r.frame);
  }

  /** A fragmented unit behind other units of its frame makes two frames. */
  lemma LaterFragmentsSplit(s: State, r: Rendering, u: Unit, seqNo: nat, ssrc: Word32, marker: bool)
    requires UnitOk(u) && u.Fragments? && r.frame != [] && Ready(s, r, ssrc)
    ensures var t := Run(s, UnitPackets(u, seqNo, ssrc, marker));
            var second := Take(Rendering([], r.pend), u);
            && t.1 == [Join(r.frame)] + (if marker then [Join(second.frame)] else [])
            && Ready(t.0, if marker then second.(frame := []) else second, ssrc)
  {
    assert !IsParamUnit(u);
    hide Run, UnitPackets, UnitOk, Join, Take, UnitNals, IsParamUnit, IsIdrUnit;
    UnitRecovered(s, u, seqNo, ssrc, marker);
    JoinTaken(Rendering([], r.pend), u);
    JoinEmpty(r.frame);
    JoinEmpty([]);
  }
}
