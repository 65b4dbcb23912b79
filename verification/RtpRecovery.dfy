/** What comes out after a loss: a stream received whole behind any history of packets. */
module RtpRecovery {
  import opened Bytes
  import opened AnnexB
  import opened RtpDepacketizer
  import opened RtpRoundTrip
  import opened RtpStreams
  import opened RtpLossSafety

  /** Whatever packets came before, lost, reordered or of other sources, the receiver holds whole units of the
      history, and a stream that arrives whole is assembled behind them. */
  lemma StreamRecovered(s: State, h: History, ms: seq<Marked>, seqNo: nat, ssrc: Word32) returns (r: Rendering)
    requires Restarted(s) && AllOk(ms)
    ensures AllWhole(h, ssrc, r.frame) && AllWhole(h, ssrc, r.pend)
    ensures Run(s, h + PacketsOf(ms, seqNo, ssrc)).1 == Run(s, h).1 + JoinEach(Assemble(Assembly([], r), ms).frames)
  {
    r := HeldAfter(s, h, ssrc);
    RunConcat(s, h, PacketsOf(ms, seqNo, ssrc));
    StreamDelivered(Run(s, h).0, r, ms, seqNo, ssrc);
  }

  lemma HeldAfter(s: State, h: History, ssrc: Word32) returns (r: Rendering)
    requires Restarted(s)
    ensures AllWhole(h, ssrc, r.frame) && AllWhole(h, ssrc, r.pend) && Ready(Run(s, h).0, r, ssrc)
  {
    var a := RunExplained(s, h);
    var t := Run(s, h).0;
    r := if h == [] || t.lastSsrc != ssrc then Rendering([], []) else Rendering(a.frame, a.pend);
    JoinEmpty([]);
    hide Run, Whole, Join;
    if h == [] { RunNothing(s); }
  }

  // ----- Losses are forgotten -----

  predicate HasIdr(ms: seq<Marked>) { exists i :: 0 <= i < |ms| && IsIdrUnit(ms[i].unit) }

  /** After an IDR unit the parameter sets that wait no longer depend on what waited before. */
  lemma {:induction false} WaitingForgets(a: Rendering, b: Rendering, ms: seq<Marked>)
    ensures HasIdr(ms) ==> Assemble(Assembly([], a), ms).now.pend == Assemble(Assembly([], b), ms).now.pend
  {
    if HasIdr(ms) {
      var front, m := ms[..|ms| - 1], ms[|ms| - 1];
      WaitingForgets(a, b, front);
      assert IsIdrUnit(m.unit) || HasIdr(front) by {
        var i :| 0 <= i < |ms| && IsIdrUnit(ms[i].unit);
        if i < |front| { assert IsIdrUnit(front[i].unit); }
      }
      hide Assemble, UnitNals;
      AssembleLast(Assembly([], a), ms);
      AssembleLast(Assembly([], b), ms);
    }
  }

  lemma AssembleLast(a: Assembly, ms: seq<Marked>)
    requires ms != []
    ensures Assemble(a, ms) == Receive(Assemble(a, ms[..|ms| - 1]), ms[|ms| - 1])
  {
  }

  /** A stream whose first part ends in a marker and holds an IDR unit: from there on the frames are those of a
      receiver that began with it, whatever came before and whatever of that was lost. */
  lemma LossForgotten(s: State, h: History, first: seq<Marked>, rest: seq<Marked>, seqNo: nat, ssrc: Word32)
    requires Restarted(s) && AllOk(first) && AllOk(rest) && HasIdr(first) && first[|first| - 1].marker
    ensures var (p, q) := (PacketsOf(first, seqNo, ssrc), PacketsOf(rest, seqNo + |PacketsOf(first, seqNo, ssrc)|, ssrc));
            Run(s, h + p + q).1
            == Run(s, h + p).1 + JoinEach(Assemble(Assembly([], Assemble(Waiting([]), first).now), rest).frames)
  {
    hide *;
    var p := PacketsOf(first, seqNo, ssrc);
    var q := PacketsOf(rest, seqNo + |p|, ssrc);
    var r := HeldAfter(s, h, ssrc);
    RunConcat(s, h, p);
    RunConcat(s, h + p, q);
    StreamDelivered(Run(s, h).0, r, first, seqNo, ssrc);
    SameFromThere(r, first);
    StreamDelivered(Run(s, h + p).0, Assemble(Waiting([]), first).now, rest, seqNo + |p|, ssrc);
  }

  lemma SameFromThere(r: Rendering, first: seq<Marked>)
    requires HasIdr(first) && first[|first| - 1].marker
    ensures Assemble(Assembly([], r), first).now == Assemble(Waiting([]), first).now
  {
    WaitingForgets(r, Rendering([], []), first);
    AssembleLast(Assembly([], r), first);
    AssembleLast(Waiting([]), first);
    hide Assemble, Take;
  }

  // ----- What is dropped -----

  /** A fragment that does not begin a unit and does not carry the next number of a unit under way: nothing comes out,
      and the unit under way is given up, so that no later fragment of it is taken. */
  lemma GapEnds(s: State, p: Rtp)
    requires |p.payload| >= 2 && p.payload[0] % 32 == 28 && p.payload[1] < 128
    requires HeldFragments(s, p.ssrc) ==> p.seqNo != s.fu.expectedSeq
    ensures var t := Step(s, p);
            t.1 == [] && !t.0.fu.active && t.0.frameBuf == HeldFrame(s, p.ssrc) && t.0.pendingParams == HeldParams(s, p.ssrc)
  {
  }

  /** Fragments of the source are being gathered. */
  predicate HeldFragments(s: State, ssrc: Word32) { s.fu.active && (s.firstPacket || s.lastSsrc == ssrc) }

  /** Other payload types - 0, and 25 to 31 but for fragments - and empty payloads change nothing but the source. */
  lemma OthersIgnored(s: State, p: Rtp)
    requires p.payload == [] || p.payload[0] % 32 == 0 || (p.payload[0] % 32 >= 25 && (p.payload[0] % 32 == 28 ==> |p.payload| == 1))
    ensures Step(s, p) == (OnSsrc(s, p), [])
    ensures OnSsrc(s, p).frameBuf == HeldFrame(s, p.ssrc) && OnSsrc(s, p).pendingParams == HeldParams(s, p.ssrc)
  {
  }

  /** An aggregate that is cut off gives the units before the cut. */
  lemma {:induction false} TruncatedAggregate(nals: seq<Nal>, tail: seq<Byte>)
    requires forall n :: n in nals ==> |n| < 0x1_0000
    requires |tail| < 2 || 2 + (0x100 * tail[0] as int + tail[1] as int) > |tail|
    ensures StapElements(StapBody(nals) + tail) == nals
  {
    if nals == [] {
      if |tail| >= 2 { U16Value(tail[0], tail[1]); }
      assert StapBody(nals) + tail == tail;
    } else {
      TruncatedAggregate(nals[1..], tail);
      StapElementsCons(nals[0], StapBody(nals[1..]) + tail);
      hide StapElements;
      assert StapBody(nals) + tail == [Hi(|nals[0]|), Lo(|nals[0]|)] + nals[0] + (StapBody(nals[1..]) + tail);
      assert nals == [nals[0]] + nals[1..];
    }
  }
}
