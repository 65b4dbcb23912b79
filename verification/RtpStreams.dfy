/** What a loss-free stream of H.264 units comes out as: frames end at the marker, and where a fragmented
    unit meets a frame under way. */
module RtpStreams {
  import opened Bytes
  import opened AnnexB
  import opened RtpDepacketizer
  import opened RtpRoundTrip

  // ----- Units in any order -----

  /** A unit, and whether its last packet carries the marker. */
  datatype Marked = Marked(unit: Unit, marker: bool)

  /** A packet with a parameter set never completes a frame, so it carries no marker. */
  predicate MarkedOk(m: Marked)
  {
    UnitOk(m.unit) && (m.marker ==> !IsParamUnit(m.unit))
  }

  predicate AllOk(ms: seq<Marked>) { forall i :: 0 <= i < |ms| ==> MarkedOk(ms[i]) }

  /** The packets of all units, with consecutive sequence numbers. */
  function PacketsOf(ms: seq<Marked>, seqNo: nat, ssrc: Word32): seq<Rtp>
    requires AllOk(ms)
  {
    if ms == [] then []
    else
      var front, m := PacketsOf(ms[..|ms| - 1], seqNo, ssrc), ms[|ms| - 1];
      front + UnitPackets(m.unit, seqNo + |front|, ssrc, m.marker)
  }

  lemma PacketsSnoc(ms: seq<Marked>, m: Marked, seqNo: nat, ssrc: Word32)
    requires AllOk(ms) && MarkedOk(m)
    ensures AllOk(ms + [m])
    ensures var front := PacketsOf(ms, seqNo, ssrc);
            PacketsOf(ms + [m], seqNo, ssrc) == front + UnitPackets(m.unit, seqNo + |front|, ssrc, m.marker)
  {
    hide PacketsOf, UnitPackets, UnitOk, MarkedOk, AllOk;
    OkSnoc(ms, m);
    assert (ms + [m])[..|ms|] == ms && (ms + [m])[|ms|] == m;
    LastPackets(ms + [m], seqNo, ssrc);
  }

  lemma OkSnoc(ms: seq<Marked>, m: Marked)
    requires AllOk(ms) && MarkedOk(m)
    ensures AllOk(ms + [m])
  {
    hide MarkedOk;
  }

  lemma LastPackets(ms: seq<Marked>, seqNo: nat, ssrc: Word32)
    requires AllOk(ms) && ms != []
    ensures AllOk(ms[..|ms| - 1]) && MarkedOk(ms[|ms| - 1])
    ensures var (front, m) := (PacketsOf(ms[..|ms| - 1], seqNo, ssrc), ms[|ms| - 1]);
            PacketsOf(ms, seqNo, ssrc) == front + UnitPackets(m.unit, seqNo + |front|, ssrc, m.marker)
  {
    hide UnitPackets, UnitOk, AllOk, MarkedOk;
    OkFront(ms);
  }

  lemma OkFront(ms: seq<Marked>)
    requires AllOk(ms) && ms != []
    ensures AllOk(ms[..|ms| - 1]) && MarkedOk(ms[|ms| - 1])
  {
    hide MarkedOk;
  }

  /** The frames that are complete, and the one under way. */
  datatype Assembly = Assembly(frames: seq<seq<Nal>>, now: Rendering)

  predicate Cuts(r: Rendering, u: Unit) { u.Fragments? && r.frame != [] }

  function Receive(a: Assembly, m: Marked): Assembly
  {
    var c := if Cuts(a.now, m.unit) then Assembly(a.frames + [a.now.frame], a.now.(frame := [])) else a;
    var r := Take(c.now, m.unit);
    if m.marker then Assembly(c.frames + [r.frame], r.(frame := [])) else c.(now := r)
  }

  function Assemble(a: Assembly, ms: seq<Marked>): Assembly
  {
    if ms == [] then a else Receive(Assemble(a, ms[..|ms| - 1]), ms[|ms| - 1])
  }

  function Waiting(pend: seq<Nal>): Assembly { Assembly([], Rendering([], pend)) }

  lemma WaitingOnly(pend: seq<Nal>)
    ensures Waiting(pend) == Assembly([], Rendering([], pend))
  {
  }

  function JoinEach(frames: seq<seq<Nal>>): seq<seq<Byte>>
  {
    if frames == [] then [] else JoinEach(frames[..|frames| - 1]) + [Join(frames[|frames| - 1])]
  }

  lemma {:induction false} JoinEachConcat(a: seq<seq<Nal>>, b: seq<seq<Nal>>)
    ensures JoinEach(a + b) == JoinEach(a) + JoinEach(b)
  {
    if b == [] {
      assert a + b == a;
    } else {
      hide Join;
      var k := |b| - 1;
      assert (a + b)[..|a + b| - 1] == a + b[..k] && (a + b)[|a + b| - 1] == b[k];
      JoinEachConcat(a, b[..k]);
    }
  }

  lemma JoinEachOne(frame: seq<Nal>)
    ensures JoinEach([frame]) == [Join(frame)] && JoinEach([]) == []
  {
    assert [frame][..0] == [];
  }

  /** One unit, whether or not it meets a frame under way. */
  lemma AnyUnitDelivered(s: State, r: Rendering, m: Marked, seqNo: nat, ssrc: Word32)
    requires MarkedOk(m) && Ready(s, r, ssrc)
    ensures var (t, frames) := Run(s, UnitPackets(m.unit, seqNo, ssrc, m.marker));
            var a := Receive(Assembly([], r), m);
            frames == JoinEach(a.frames) && Ready(t, a.now, ssrc)
  {
    if Cuts(r, m.unit) {
      JoinEmpty(r.frame);
      hide UnitPackets, Run, Take, Join, UnitOk;
      LaterFragmentsSplit(s, r, m.unit, seqNo, ssrc, m.marker);
      var second := Take(Rendering([], r.pend), m.unit);
      JoinEachConcat([r.frame], [second.frame]);
      JoinEachOne(r.frame);
      JoinEachOne(second.frame);
    } else {
      hide UnitPackets, Run, Take, Join, UnitOk, Ready;
      UnitDelivered(s, r, m.unit, seqNo, ssrc, m.marker);
      JoinEachOne(Take(r, m.unit).frame);
    }
  }

  lemma ReceiveAfter(a: Assembly, m: Marked)
    ensures Receive(a, m).frames == a.frames + Receive(Assembly([], a.now), m).frames
    ensures Receive(a, m).now == Receive(Assembly([], a.now), m).now
  {
    hide Take;
  }

  /** Depacketizer round trip. A loss-free stream of units, of any length, in any order and with sequence
      numbers wrapping at 2^16, comes out as the frames of `Assemble`, whatever the receiver holds. */
  lemma {:induction false} StreamDelivered(s: State, r: Rendering, ms: seq<Marked>, seqNo: nat, ssrc: Word32)
    requires AllOk(ms) && Ready(s, r, ssrc)
    ensures var (t, frames) := Run(s, PacketsOf(ms, seqNo, ssrc));
            var a := Assemble(Assembly([], r), ms);
            frames == JoinEach(a.frames) && Ready(t, a.now, ssrc)
  {
    hide Run, Receive, Ready, Join, UnitOk, UnitPackets;
    if ms == [] {
      RunNothing(s);
    } else {
      var k := |ms| - 1;
      StreamDelivered(s, r, ms[..k], seqNo, ssrc);
      var front, a := PacketsOf(ms[..k], seqNo, ssrc), Assemble(Assembly([], r), ms[..k]);
      var ps := UnitPackets(ms[k].unit, seqNo + |front|, ssrc, ms[k].marker);
      AnyUnitDelivered(Run(s, front).0, a.now, ms[k], seqNo + |front|, ssrc);
      RunConcat(s, front, ps);
      ReceiveAfter(a, ms[k]);
      JoinEachConcat(a.frames, Receive(Assembly([], a.now), ms[k]).frames);
    }
  }

  lemma RunNothing(s: State)
    ensures Run(s, []) == (s, [])
  {
  }

  // ----- Access units -----

  predicate UnitsOk(units: seq<Unit>) { forall i :: 0 <= i < |units| ==> UnitOk(units[i]) }

  /** An access unit ends in a unit whose last packet can carry the marker. */
  predicate AccessUnitOk(au: seq<Unit>)
  {
    au != [] && !IsParamUnit(au[|au| - 1]) && UnitsOk(au)
  }

  /** The units before position k, none of them with the marker. */
  function Unmarked(units: seq<Unit>, k: nat): seq<Marked>
    requires k <= |units|
  {
    seq(k, i requires 0 <= i < k => Marked(units[i], false))
  }

  function Mark(au: seq<Unit>): seq<Marked>
    requires au != []
  {
    Unmarked(au, |au| - 1) + [Marked(au[|au| - 1], true)]
  }

  /** Unit i is fragmented and is not the first that is not a parameter set. */
  predicate CutsAt(units: seq<Unit>, i: nat)
    requires i < |units|
  {
    units[i].Fragments? && exists j :: 0 <= j < i && !IsParamUnit(units[j])
  }

  predicate FragmentsFirst(units: seq<Unit>)
  {
    forall i :: 0 <= i < |units| ==> !CutsAt(units, i)
  }

  function CutCount(units: seq<Unit>, k: nat): (n: nat)
    requires k <= |units|
    ensures n <= k
  {
    if k == 0 then 0 else CutCount(units, k - 1) + (if CutsAt(units, k - 1) then 1 else 0)
  }

  /** The last unit before position k that cuts, or the beginning. */
  function LastCut(units: seq<Unit>, k: nat): (c: nat)
    requires k <= |units|
    ensures c <= k && (c > 0 ==> c < k && CutsAt(units, c)) && forall i :: c < i < k ==> !CutsAt(units, i)
  {
    if k == 0 then 0 else if CutsAt(units, k - 1) then k - 1 else LastCut(units, k - 1)
  }

  function Concat(frames: seq<seq<Nal>>): seq<Nal>
  {
    if frames == [] then [] else Concat(frames[..|frames| - 1]) + frames[|frames| - 1]
  }

  lemma ConcatSnoc(frames: seq<seq<Nal>>, frame: seq<Nal>)
    ensures Concat(frames + [frame]) == Concat(frames) + frame
  {
    assert (frames + [frame])[..|frames|] == frames;
  }

  /** What the first k units have come to. */
  function CutUp(pend: seq<Nal>, units: seq<Unit>, k: nat): Assembly
    requires k <= |units|
  {
    if k == 0 then Waiting(pend) else Receive(CutUp(pend, units, k - 1), Marked(units[k - 1], false))
  }

  /** Where frames are cut: there is a frame under way exactly after the first unit that is not a
      parameter set. */
  lemma {:induction false} FrameUnderWay(pend: seq<Nal>, units: seq<Unit>, k: nat)
    requires k <= |units| && UnitsOk(units)
    ensures CutUp(pend, units, k).now.frame != [] <==> exists j :: 0 <= j < k && !IsParamUnit(units[j])
  {
    if k > 0 {
      FrameUnderWay(pend, units, k - 1);
      assert UnitOk(units[k - 1]);
      TakeGrows(CutUp(pend, units, k - 1).now, units[k - 1]);
      TakeGrows(CutUp(pend, units, k - 1).now.(frame := []), units[k - 1]);
      hide Take, UnitOk, IsParamUnit;
    }
  }

  lemma TakeGrows(r: Rendering, u: Unit)
    requires UnitOk(u)
    ensures Take(r, u).frame != [] <==> r.frame != [] || !IsParamUnit(u)
  {
  }

  /** The frames of an access unit in any order of units. Every fragmented unit that comes after a unit
      that is not a parameter set cuts: there is one frame for each such unit, the frames together
      hold what came before the last of them, and nothing is dropped or moved. */
  lemma {:induction false} FramesAreCuts(pend: seq<Nal>, units: seq<Unit>, k: nat)
    requires k <= |units| && UnitsOk(units)
    ensures var (a, r) := (CutUp(pend, units, k), Render(pend, units, k));
            && |a.frames| == CutCount(units, k)
            && Concat(a.frames) == Render(pend, units, LastCut(units, k)).frame
            && Concat(a.frames) + a.now.frame == r.frame && a.now.pend == r.pend
  {
    hide *;
    OneMore(pend, units, k);
    if k > 0 {
      FramesAreCuts(pend, units, k - 1);
      FrameUnderWay(pend, units, k - 1);
      CutsAtIs(units, k - 1);
      CutsIs(CutUp(pend, units, k - 1).now, units[k - 1]);
      CutStep(CutUp(pend, units, k - 1), Render(pend, units, k - 1), units[k - 1]);
    }
  }

  lemma OneMore(pend: seq<Nal>, units: seq<Unit>, k: nat)
    requires k <= |units|
    ensures k > 0 ==> CutUp(pend, units, k) == Receive(CutUp(pend, units, k - 1), Marked(units[k - 1], false))
    ensures k > 0 ==> Render(pend, units, k) == Take(Render(pend, units, k - 1), units[k - 1])
    ensures k > 0 ==> CutCount(units, k) == CutCount(units, k - 1) + (if CutsAt(units, k - 1) then 1 else 0)
    ensures k > 0 ==> LastCut(units, k) == if CutsAt(units, k - 1) then k - 1 else LastCut(units, k - 1)
    ensures CutUp(pend, units, 0) == Waiting(pend) == Assembly([], Rendering([], pend))
    ensures Render(pend, units, 0) == Rendering([], pend) && CutCount(units, 0) == 0 && LastCut(units, 0) == 0
    ensures Concat([]) == []
  {
    hide Take, CutsAt;
  }

  lemma CutsIs(r: Rendering, u: Unit)
    ensures Cuts(r, u) <==> u.Fragments? && r.frame != []
  {
  }

  lemma CutsAtIs(units: seq<Unit>, i: nat)
    requires i < |units|
    ensures CutsAt(units, i) <==> units[i].Fragments? && exists j :: 0 <= j < i && !IsParamUnit(units[j])
  {
  }

  lemma CutStep(a: Assembly, r: Rendering, u: Unit)
    requires Concat(a.frames) + a.now.frame == r.frame && a.now.pend == r.pend
    ensures var b := Receive(a, Marked(u, false));
            && |b.frames| == |a.frames| + (if Cuts(a.now, u) then 1 else 0)
            && Concat(b.frames) == (if Cuts(a.now, u) then r.frame else Concat(a.frames))
            && Concat(b.frames) + b.now.frame == Take(r, u).frame && b.now.pend == Take(r, u).pend
  {
    ConcatSnoc(a.frames, a.now.frame);
    TakeAppends(Concat(a.frames), a.now, u);
    TakeAppends(r.frame, a.now.(frame := []), u);
    assert Rendering(r.frame + [], r.pend) == r;
    hide Take, Concat;
  }

  lemma TakeAppends(front: seq<Nal>, r: Rendering, u: Unit)
    ensures Take(Rendering(front + r.frame, r.pend), u).frame == front + Take(r, u).frame
    ensures Take(Rendering(front + r.frame, r.pend), u).pend == Take(r, u).pend
  {
  }

  /** An access unit makes exactly one frame when, and only when, no fragmented unit comes after a unit
      that is not a parameter set. */
  lemma OneFrame(pend: seq<Nal>, au: seq<Unit>)
    requires AccessUnitOk(au)
    ensures |Assemble(Waiting(pend), Mark(au)).frames| == 1 + CutCount(au, |au|)
    ensures |Assemble(Waiting(pend), Mark(au)).frames| == 1 <==> FragmentsFirst(au)
    ensures FragmentsFirst(au) ==> Assemble(Waiting(pend), Mark(au)).frames == [Render(pend, au, |au|).frame]
    ensures Concat(Assemble(Waiting(pend), Mark(au)).frames) == Render(pend, au, |au|).frame
    ensures Assemble(Waiting(pend), Mark(au)).now == Rendering([], Render(pend, au, |au|).pend)
  {
    MarkedLast(pend, au);
    FramesAreCuts(pend, au, |au|);
    CountNone(au, |au|);
    var a := CutUp(pend, au, |au|);
    ConcatSnoc(a.frames, a.now.frame);
    NoCutNoFrames(a);
    hide Concat, CutUp, Render, Assemble, CutCount, LastCut, CutsAt, AccessUnitOk;
  }

  lemma NoCutNoFrames(a: Assembly)
    ensures |a.frames| == 0 ==> Concat(a.frames) + a.now.frame == a.now.frame && a.frames + [a.now.frame] == [a.now.frame]
  {
  }

  lemma {:induction false} CountNone(units: seq<Unit>, k: nat)
    requires k <= |units|
    ensures CutCount(units, k) == 0 <==> forall i :: 0 <= i < k ==> !CutsAt(units, i)
  {
    if k > 0 {
      CountNone(units, k - 1);
      hide CutsAt;
    }
  }

  /** The marker hands over the frame under way. */
  lemma MarkedLast(pend: seq<Nal>, au: seq<Unit>)
    requires au != []
    ensures var a := CutUp(pend, au, |au|);
            Assemble(Waiting(pend), Mark(au)) == Assembly(a.frames + [a.now.frame], a.now.(frame := []))
  {
    var k := |au| - 1;
    UnmarkedIsCutUp(pend, au, k);
    assert Mark(au)[..k] == Unmarked(au, k);
    hide Take, Unmarked, CutUp;
    CutUpNext(pend, au, k);
  }

  lemma CutUpNext(pend: seq<Nal>, units: seq<Unit>, k: nat)
    requires k < |units|
    ensures CutUp(pend, units, k + 1) == Receive(CutUp(pend, units, k), Marked(units[k], false))
  {
  }

  lemma {:induction false} UnmarkedIsCutUp(pend: seq<Nal>, units: seq<Unit>, k: nat)
    requires k <= |units|
    ensures Assemble(Waiting(pend), Unmarked(units, k)) == CutUp(pend, units, k)
  {
    hide Receive;
    if k > 0 {
      UnmarkedIsCutUp(pend, units, k - 1);
      assert Unmarked(units, k)[..k - 1] == Unmarked(units, k - 1);
    }
  }

  // ----- Streams of access units -----

  predicate StreamOk(aus: seq<seq<Unit>>)
  {
    forall i :: 0 <= i < |aus| ==> AccessUnitOk(aus[i])
  }

  function MarkAll(aus: seq<seq<Unit>>): (ms: seq<Marked>)
    requires StreamOk(aus)
    ensures AllOk(ms)
  {
    if aus == [] then []
    else
      MarkOk(aus[|aus| - 1]);
      MarkAll(aus[..|aus| - 1]) + Mark(aus[|aus| - 1])
  }

  lemma MarkOk(au: seq<Unit>)
    requires AccessUnitOk(au)
    ensures AllOk(Mark(au))
  {
  }

  /** The frames of all access units, one group after the other, and the parameter sets left waiting. */
  function StreamFrames(pend: seq<Nal>, aus: seq<seq<Unit>>): (seq<seq<Nal>>, seq<Nal>)
    requires StreamOk(aus)
  {
    if aus == [] then ([], pend)
    else
      var (frames, waiting) := StreamFrames(pend, aus[..|aus| - 1]);
      var a := Assemble(Waiting(waiting), Mark(aus[|aus| - 1]));
      (frames + a.frames, a.now.pend)
  }

  lemma {:induction false} AssembleConcat(a: Assembly, x: seq<Marked>, y: seq<Marked>)
    ensures Assemble(a, x + y) == Assemble(Assemble(a, x), y)
  {
    hide Receive;
    if y == [] {
      assert x + y == x;
    } else {
      var k := |y| - 1;
      assert (x + y)[..|x + y| - 1] == x + y[..k] && (x + y)[|x + y| - 1] == y[k];
      AssembleConcat(a, x, y[..k]);
    }
  }

  lemma {:induction false} AssembleAfter(a: Assembly, ms: seq<Marked>)
    ensures var b := Assemble(Assembly([], a.now), ms); Assemble(a, ms) == Assembly(a.frames + b.frames, b.now)
  {
    hide Receive;
    if ms != [] {
      var front, m := ms[..|ms| - 1], ms[|ms| - 1];
      AssembleAfter(a, front);
      var b := Assemble(Assembly([], a.now), front);
      ReceiveAfter(Assembly(a.frames + b.frames, b.now), m);
      ReceiveAfter(b, m);
    }
  }

  /** Access units do not mix: a frame never holds units of two of them. */
  lemma {:induction false} AccessUnitsApart(pend: seq<Nal>, aus: seq<seq<Unit>>)
    requires StreamOk(aus)
    ensures var (frames, waiting) := StreamFrames(pend, aus);
            Assemble(Waiting(pend), MarkAll(aus)) == Assembly(frames, Rendering([], waiting))
  {
    hide Receive, Mark, Assemble, UnitsOk, IsParamUnit;
    if aus == [] {
      AssembleNothing(Waiting(pend));
    } else {
      var front, au := aus[..|aus| - 1], aus[|aus| - 1];
      AccessUnitsApart(pend, front);
      var (frames, waiting) := StreamFrames(pend, front);
      AssembleConcat(Waiting(pend), MarkAll(front), Mark(au));
      AssembleAfter(Assembly(frames, Rendering([], waiting)), Mark(au));
      OneFrame(waiting, au);
    }
  }

  lemma AssembleNothing(a: Assembly)
    ensures Assemble(a, []) == a
  {
  }

  /** Any loss-free stream of access units, with the units of each in any order. */
  lemma AccessUnitsDelivered(s: State, pend: seq<Nal>, aus: seq<seq<Unit>>, seqNo: nat, ssrc: Word32)
    requires StreamOk(aus) && Ready(s, Rendering([], pend), ssrc)
    ensures var (t, frames) := Run(s, PacketsOf(MarkAll(aus), seqNo, ssrc));
            var (expected, waiting) := StreamFrames(pend, aus);
            frames == JoinEach(expected) && Ready(t, Rendering([], waiting), ssrc)
  {
    hide Run, PacketsOf, Assemble, StreamFrames, Ready;
    StreamDelivered(s, Rendering([], pend), MarkAll(aus), seqNo, ssrc);
    AccessUnitsApart(pend, aus);
  }

  /** A slice of one packet, then a slice in fragments: two frames where the encoder made one. */
  lemma LaterFragmentCuts(first: Nal, header: Byte, pieces: seq<seq<Byte>>)
    requires first != [] && NalType(first) == 1 && header % 32 == 1 && header < 128 && pieces != []
    ensures var au := [Single(first), Fragments(header, pieces)];
            && AccessUnitOk(au) && !FragmentsFirst(au)
            && Assemble(Waiting([]), Mark(au)).frames == [[first], [[header] + Flatten(pieces)]]
  {
    var (u, v) := (Single(first), Fragments(header, pieces));
    var (a, b) := (Marked(u, false), Marked(v, true));
    assert !IsParamUnit([u, v][0]) && CutsAt([u, v], 1);
    MarkTwo(u, v);
    hide Flatten, Unmarked, Mark;
    assert [a, b][..1] == [a] && [a][..0] == [];
    assert Take(Rendering([], []), u) == Rendering([first], []);
    assert Take(Rendering([], []), v) == Rendering([[header] + Flatten(pieces)], []);
    assert Assemble(Waiting([]), [a]) == Assembly([], Rendering([first], []));
  }

  lemma MarkTwo(first: Unit, second: Unit)
    ensures Mark([first, second]) == [Marked(first, false), Marked(second, true)]
  {
    var before := Unmarked([first, second], 1);
    assert |before| == 1 && before[0] == Marked(first, false);
  }

  /** A stream comes out as one frame per access unit exactly when no access unit is cut. */
  lemma {:induction false} OneFrameEach(pend: seq<Nal>, aus: seq<seq<Unit>>)
    requires StreamOk(aus)
    ensures |StreamFrames(pend, aus).0| >= |aus|
    ensures |StreamFrames(pend, aus).0| == |aus| <==> forall i :: 0 <= i < |aus| ==> FragmentsFirst(aus[i])
  {
    hide Assemble, Mark, UnitsOk, IsParamUnit, FragmentsFirst;
    if aus != [] {
      var front := aus[..|aus| - 1];
      OneFrameEach(pend, front);
      OneFrame(StreamFrames(pend, front).1, aus[|aus| - 1]);
    }
  }

  // ----- Where the parameter sets end up -----

  /** NAL units of the units k, ..., m - 1 that are parameter sets, or that are not. */
  function NalsBetween(units: seq<Unit>, k: nat, m: nat, params: bool): seq<Nal>
    requires k <= m <= |units|
  {
    if k == m then []
    else NalsBetween(units, k, m - 1, params) + (if IsParamUnit(units[m - 1]) == params then UnitNals(units[m - 1]) else [])
  }

  lemma {:induction false} NoIdrBetween(pend: seq<Nal>, units: seq<Unit>, k: nat, m: nat)
    requires k <= m <= |units| && forall i :: k <= i < m ==> !IsIdrUnit(units[i])
    ensures var r := Render(pend, units, k);
            Render(pend, units, m)
            == Rendering(r.frame + NalsBetween(units, k, m, false), r.pend + NalsBetween(units, k, m, true))
  {
    hide IsIdrUnit, IsParamUnit, UnitNals, Take;
    if k < m {
      NoIdrBetween(pend, units, k, m - 1);
      TakeNoIdr(Render(pend, units, m - 1), units[m - 1]);
    }
  }

  lemma TakeNoIdr(r: Rendering, u: Unit)
    requires !IsIdrUnit(u)
    ensures Take(r, u) == Rendering(r.frame + (if IsParamUnit(u) then [] else UnitNals(u)),
                                    r.pend + (if IsParamUnit(u) then UnitNals(u) else []))
  {
  }

  /** Between one IDR unit (or the start) and the next, the slices go out in order, and exactly the
      parameter sets received meanwhile, once and in order, stand immediately before the IDR unit. */
  lemma ParamsPrecedeIdr(pend: seq<Nal>, units: seq<Unit>, k: nat, m: nat)
    requires k <= m < |units| && IsIdrUnit(units[m]) && forall i :: k <= i < m ==> !IsIdrUnit(units[i])
    requires UnitOk(units[m])
    ensures var r := Render(pend, units, k);
            Render(pend, units, m + 1)
            == Rendering(r.frame + NalsBetween(units, k, m, false)
                         + (r.pend + NalsBetween(units, k, m, true)) + UnitNals(units[m]), [])
  {
    NoIdrBetween(pend, units, k, m);
  }

  // An IDR slice by itself, in fragments or aggregated

  predicate HoldsIdr(u: Unit)
  {
    exists i :: 0 <= i < |UnitNals(u)| && UnitNals(u)[i] != [] && NalType(UnitNals(u)[i]) == 5
  }

  /** A parameter set came before unit m, or was there at the start, and no unit since then took it along. */
  predicate ParamsWaiting(pend: seq<Nal>, units: seq<Unit>, m: nat)
    requires m <= |units|
  {
    || (pend != [] && forall i :: 0 <= i < m ==> !IsIdrUnit(units[i]))
    || exists j :: 0 <= j < m && IsParamUnit(units[j]) && forall i :: j < i < m ==> !IsIdrUnit(units[i])
  }

  /** What waits before unit m goes immediately in front of it, and nothing is left waiting. */
  predicate Served(pend: seq<Nal>, units: seq<Unit>, m: nat)
    requires m < |units|
  {
    var r := Render(pend, units, m);
    Render(pend, units, m + 1) == Rendering(r.frame + r.pend + UnitNals(units[m]), [])
  }

  lemma {:induction false} WaitingIs(pend: seq<Nal>, units: seq<Unit>, m: nat)
    requires m <= |units|
    ensures Render(pend, units, m).pend != [] <==> ParamsWaiting(pend, units, m)
  {
    if m > 0 {
      WaitingIs(pend, units, m - 1);
      TakeWaits(Render(pend, units, m - 1), units[m - 1]);
      hide IsIdrUnit, IsParamUnit, Take;
    }
  }

  lemma TakeWaits(r: Rendering, u: Unit)
    ensures Take(r, u).pend != [] <==> IsParamUnit(u) || (r.pend != [] && !IsIdrUnit(u))
    ensures IsParamUnit(u) ==> !IsIdrUnit(u)
  {
  }

  lemma ServedIff(pend: seq<Nal>, units: seq<Unit>, m: nat)
    requires m < |units| && UnitOk(units[m]) && HoldsIdr(units[m])
    ensures Served(pend, units, m) <==> (units[m].Aggregate? ==> !ParamsWaiting(pend, units, m))
  {
    WaitingIs(pend, units, m);
    hide ParamsWaiting;
    var (u, r) := (units[m], Render(pend, units, m));
    var i :| 0 <= i < |UnitNals(u)| && UnitNals(u)[i] != [] && NalType(UnitNals(u)[i]) == 5;
    if u.Aggregate? {
      assert r.pend == [] ==> r.frame + r.pend + u.nals == r.frame + u.nals;
    }
  }

  /** Every IDR slice, however it is packetized, has the parameter sets that wait for it immediately in front of
      it exactly when no aggregated one comes while parameter sets wait: a STAP-A takes none along. */
  lemma EveryIdrServed(pend: seq<Nal>, units: seq<Unit>)
    requires UnitsOk(units)
    ensures (forall m :: 0 <= m < |units| && HoldsIdr(units[m]) ==> Served(pend, units, m))
       <==> forall m :: 0 <= m < |units| && HoldsIdr(units[m]) && units[m].Aggregate? ==> !ParamsWaiting(pend, units, m)
  {
    hide HoldsIdr, Served, ParamsWaiting, UnitOk;
    forall m | 0 <= m < |units| && HoldsIdr(units[m])
      ensures Served(pend, units, m) <==> (units[m].Aggregate? ==> !ParamsWaiting(pend, units, m))
    {
      ServedIff(pend, units, m);
    }
  }

  /** A parameter set, then an IDR slice in a STAP-A: the slice goes out without it. */
  lemma AggregatedIdrUnserved(param: Nal, idr: Nal)
    requires param != [] && NalType(param) == 7 && idr != [] && NalType(idr) == 5
    ensures var units := [Single(param), Aggregate(3, [idr])];
            Render([], units, 2) == Rendering([idr], [param]) && HoldsIdr(units[1]) && !Served([], units, 1)
  {
    var units := [Single(param), Aggregate(3, [idr])];
    assert UnitNals(units[1])[0] == idr;
    assert Render([], units, 1) == Rendering([], [param]);
    assert Render([], units, 2) == Rendering([idr], [param]);
  }

  function AllNals(units: seq<Unit>, k: nat): multiset<Nal>
    requires k <= |units|
  {
    if k == 0 then multiset{} else AllNals(units, k - 1) + multiset(UnitNals(units[k - 1]))
  }

  lemma {:induction false} RenderConserves(pend: seq<Nal>, units: seq<Unit>, k: nat)
    requires k <= |units|
    ensures var r := Render(pend, units, k);
            multiset(r.frame) + multiset(r.pend) == multiset(pend) + AllNals(units, k)
  {
    hide Take, UnitNals;
    if k > 0 {
      RenderConserves(pend, units, k - 1);
      TakeConserves(Render(pend, units, k - 1), units[k - 1]);
    }
  }

  lemma TakeConserves(r: Rendering, u: Unit)
    ensures var t := Take(r, u);
            multiset(t.frame) + multiset(t.pend) == multiset(r.frame) + multiset(r.pend) + multiset(UnitNals(u))
  {
    if IsParamUnit(u) {
      assert multiset(r.pend + [u.nal]) == multiset(r.pend) + multiset([u.nal]);
    } else if IsIdrUnit(u) {
      assert multiset(r.frame + r.pend + UnitNals(u)) == multiset(r.frame) + multiset(r.pend) + multiset(UnitNals(u));
    } else {
      assert multiset(r.frame + UnitNals(u)) == multiset(r.frame) + multiset(UnitNals(u));
    }
  }

  function StreamNals(aus: seq<seq<Unit>>): multiset<Nal>
  {
    if aus == [] then multiset{}
    else StreamNals(aus[..|aus| - 1]) + AllNals(aus[|aus| - 1], |aus[|aus| - 1]|)
  }

  /** Conservation over a whole stream: every NAL unit sent is in exactly one frame, once, or is a
      parameter set still waiting. */
  lemma {:induction false} StreamConserves(pend: seq<Nal>, aus: seq<seq<Unit>>)
    requires StreamOk(aus)
    ensures var (frames, waiting) := StreamFrames(pend, aus);
            multiset(Concat(frames)) + multiset(waiting) == multiset(pend) + StreamNals(aus)
  {
    hide Assemble, Mark, UnitsOk, IsParamUnit, Render, AllNals, FragmentsFirst, CutCount;
    if aus == [] {
      ConcatNothing();
    } else {
      var front, au := aus[..|aus| - 1], aus[|aus| - 1];
      StreamConserves(pend, front);
      var (frames, waiting) := StreamFrames(pend, front);
      OneFrame(waiting, au);
      RenderConserves(waiting, au, |au|);
      var r := Render(waiting, au, |au|);
      var a := Assemble(Waiting(waiting), Mark(au));
      ConcatConcat(frames, a.frames);
      BalanceMoves(multiset(Concat(frames)), multiset(waiting), multiset(pend), StreamNals(front),
                   multiset(r.frame), multiset(r.pend), AllNals(au, |au|));
    }
  }

  lemma ConcatNothing()
    ensures Concat([]) == []
  {
  }

  lemma {:induction false} ConcatConcat(a: seq<seq<Nal>>, b: seq<seq<Nal>>)
    ensures Concat(a + b) == Concat(a) + Concat(b)
  {
    if b == [] {
      assert a + b == a;
    } else {
      var k := |b| - 1;
      assert (a + b)[..|a + b| - 1] == a + b[..k] && (a + b)[|a + b| - 1] == b[k];
      ConcatConcat(a, b[..k]);
    }
  }

  lemma BalanceMoves(out: multiset<Nal>, waiting: multiset<Nal>, pend: multiset<Nal>, sent: multiset<Nal>,
                     frame: multiset<Nal>, left: multiset<Nal>, unit: multiset<Nal>)
    requires out + waiting == pend + sent && frame + left == waiting + unit
    ensures out + frame + left == pend + (sent + unit)
  {
    assert out + frame + left == out + (frame + left);
    assert out + (waiting + unit) == out + waiting + unit;
  }
}
