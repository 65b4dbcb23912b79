/** What the depacketizer guarantees for every packet sequence, however lossy, reordered, duplicated
    or mixed: a frame it hands out is made of whole NAL units of one source. */
module RtpLossSafety {
  import opened Bytes
  import opened AnnexB
  import opened RtpDepacketizer

  type History = seq<Rtp>

  // ----- Where a NAL unit may come from -----

  predicate IsSingle(p: Rtp, ssrc: Word32, nal: Nal)
  {
    p.ssrc == ssrc && p.payload == nal && nal != [] && 1 <= NalType(nal) <= 23
  }

  predicate IsElement(p: Rtp, ssrc: Word32, nal: Nal)
  {
    p.ssrc == ssrc && p.payload != [] && PayloadType(p.payload) == 24 && nal in StapElements(p.payload[1..])
  }

  predicate Fragment(p: Rtp, ssrc: Word32)
  {
    p.ssrc == ssrc && |p.payload| >= 2 && PayloadType(p.payload) == 28
  }

  /** Packets of `a` occur in `h`, in this order. */
  predicate Subsequence(a: seq<Rtp>, h: History)
  {
    if h == [] then a == []
    else
      var front := h[..|h| - 1];
      Subsequence(a, front) || (a != [] && a[|a| - 1] == h[|h| - 1] && Subsequence(a[..|a| - 1], front))
  }

  /** Fragments of one source with sequence numbers s, s+1, ... mod 2^16, the first and only the first
      of which has the S bit, and of which only the last may have the E bit. */
  predicate Chain(frags: seq<Rtp>, ssrc: Word32, ended: bool)
  {
    && frags != []
    && (forall n :: 0 <= n < |frags| ==> Fragment(frags[n], ssrc))
    && (forall n :: 0 <= n < |frags| ==> (FuStart(frags[n].payload) <==> n == 0))
    && (forall n :: 0 <= n < |frags| ==> (FuEnd(frags[n].payload) <==> ended && n == |frags| - 1))
    && (forall n :: 0 <= n < |frags| ==> frags[n].seqNo == (frags[0].seqNo + n) % 0x1_0000)
  }

  function Bodies(frags: seq<Rtp>): seq<Byte>
    requires forall n :: 0 <= n < |frags| ==> |frags[n].payload| >= 2
  {
    if frags == [] then [] else Bodies(frags[..|frags| - 1]) + frags[|frags| - 1].payload[2..]
  }

  /** The NAL unit that section 5.8 of RFC 6184 assembles from the fragments. */
  function Reassembled(frags: seq<Rtp>, ssrc: Word32, ended: bool): Nal
    requires Chain(frags, ssrc, ended)
  {
    [FuNalHeader(frags[0].payload)] + Bodies(frags)
  }

  ghost predicate IsReassembly(h: History, ssrc: Word32, nal: Nal)
  {
    exists frags :: Subsequence(frags, h) && Chain(frags, ssrc, true) && nal == Reassembled(frags, ssrc, true)
  }

  ghost predicate Whole(h: History, ssrc: Word32, nal: Nal)
  {
    || (exists p :: p in h && IsSingle(p, ssrc, nal))
    || (exists p :: p in h && IsElement(p, ssrc, nal))
    || IsReassembly(h, ssrc, nal)
  }

  ghost predicate AllWhole(h: History, ssrc: Word32, nals: seq<Nal>)
  {
    forall n :: 0 <= n < |nals| ==> Whole(h, ssrc, nals[n])
  }

  ghost predicate WholeFrame(h: History, ssrc: Word32, frame: seq<Byte>)
  {
    exists nals :: nals != [] && frame == Join(nals) && AllWhole(h, ssrc, nals)
  }

  // ----- More history never hurts -----

  lemma SubsequenceExtends(a: seq<Rtp>, h: History, p: Rtp)
    requires Subsequence(a, h)
    ensures Subsequence(a, h + [p]) && Subsequence(a + [p], h + [p])
  {
    assert (h + [p])[..|h|] == h && (a + [p])[..|a|] == a;
  }

  lemma {:induction false} EmptySubsequence(h: History)
    ensures Subsequence([], h)
  {
    if h != [] { EmptySubsequence(h[..|h| - 1]); }
  }

  lemma WholeExtends(h: History, p: Rtp, ssrc: Word32, nal: Nal)
    requires Whole(h, ssrc, nal)
    ensures Whole(h + [p], ssrc, nal)
  {
    hide Subsequence, Chain, Reassembled, IsSingle, IsElement;
    if IsReassembly(h, ssrc, nal) {
      var frags :| Subsequence(frags, h) && Chain(frags, ssrc, true) && nal == Reassembled(frags, ssrc, true);
      SubsequenceExtends(frags, h, p);
    }
  }

  lemma AllWholeExtends(h: History, p: Rtp, ssrc: Word32, nals: seq<Nal>)
    requires AllWhole(h, ssrc, nals)
    ensures AllWhole(h + [p], ssrc, nals)
  {
    forall n | 0 <= n < |nals|
      ensures Whole(h + [p], ssrc, nals[n])
    {
      WholeExtends(h, p, ssrc, nals[n]);
    }
  }

  // ----- The invariant -----

  /** A ghost account of the receiver's byte buffers in terms of received packets. */
  datatype Account = Account(pend: seq<Nal>, frame: seq<Nal>, frags: seq<Rtp>)

  ghost predicate Explains(h: History, s: State, a: Account)
  {
    && s.pendingParams == Join(a.pend) && AllWhole(h, s.lastSsrc, a.pend)
    && s.frameBuf == Join(a.frame) && AllWhole(h, s.lastSsrc, a.frame)
    && (s.fu.active ==> Gathered(h, s.fu, s.lastSsrc, a.frags, false))
  }

  /** `fu` holds what the fragments `frags` carried. */
  ghost predicate Gathered(h: History, fu: Fu, ssrc: Word32, frags: seq<Rtp>, ended: bool)
  {
    && Subsequence(frags, h) && Chain(frags, ssrc, ended)
    && fu.payload == Reassembled(frags, ssrc, ended)
    && fu.expectedSeq == (frags[0].seqNo + |frags|) % 0x1_0000
  }

  predicate Restarted(s: State)
  {
    s.firstPacket && s.frameBuf == [] && s.pendingParams == [] && !s.fu.active
  }

  lemma ExplainsExtends(h: History, p: Rtp, s: State, a: Account)
    requires Explains(h, s, a)
    ensures Explains(h + [p], s, a)
  {
    AllWholeExtends(h, p, s.lastSsrc, a.pend);
    AllWholeExtends(h, p, s.lastSsrc, a.frame);
    if s.fu.active { SubsequenceExtends(a.frags, h, p); }
  }

  lemma SsrcStep(h: History, s: State, p: Rtp, a: Account) returns (b: Account)
    requires Restarted(s) || (!s.firstPacket && Explains(h, s, a))
    ensures Explains(h + [p], OnSsrc(s, p), b)
    ensures OnSsrc(s, p).fu.active ==> Subsequence(b.frags, h)
  {
    if s.firstPacket || p.ssrc != s.lastSsrc {
      b := Account([], [], []);
    } else {
      b := a;
      ExplainsExtends(h, p, s, a);
    }
  }

  /** Taking in one unit, with the buffered parameter sets in front of it if it is an IDR unit. */
  lemma AppendUnitStep(h: History, s: State, a: Account, nalType: nat, nal: Nal) returns (b: Account)
    requires Explains(h, s, a) && Whole(h, s.lastSsrc, nal)
    ensures Explains(h, AppendUnit(s, nalType, nal), b) && b.frame != []
  {
    hide Whole;
    if nalType == 5 {
      JoinConcat(a.frame, a.pend);
      JoinSnoc(a.frame + a.pend, nal);
      b := Account([], a.frame + a.pend + [nal], a.frags);
    } else {
      JoinSnoc(a.frame, nal);
      b := a.(frame := a.frame + [nal]);
    }
  }

  lemma FlushStep(h: History, s: State, a: Account, flush: bool) returns (b: Account)
    requires Explains(h, s, a)
    ensures Explains(h, Flush(s, flush).0, b)
    ensures forall f :: f in Flush(s, flush).1 ==> WholeFrame(h, s.lastSsrc, f)
  {
    b := if flush then a.(frame := []) else a;
    JoinEmpty(a.frame);
  }

  lemma StartFragment(h: History, s: State, p: Rtp)
    requires Fragment(p, s.lastSsrc) && FuStart(p.payload)
    ensures Gathered(h + [p], OnFragment(s, p.seqNo, p.payload).value, s.lastSsrc, [p], FuEnd(p.payload))
  {
    EmptySubsequence(h);
    SubsequenceExtends([], h, p);
    assert [] + [p] == [p] && [p][..0] == [];
    assert Bodies([p]) == [] + p.payload[2..] == p.payload[2..];
  }

  lemma ContinueFragment(h: History, s: State, p: Rtp, frags: seq<Rtp>)
    requires Fragment(p, s.lastSsrc) && !FuStart(p.payload)
    requires Gathered(h, s.fu, s.lastSsrc, frags, false) && s.fu.active && p.seqNo == s.fu.expectedSeq
    ensures Gathered(h + [p], OnFragment(s, p.seqNo, p.payload).value, s.lastSsrc, frags + [p], FuEnd(p.payload))
  {
    var fu := OnFragment(s, p.seqNo, p.payload).value;
    assert fu.payload == s.fu.payload + p.payload[2..] && fu.expectedSeq == Next(p.seqNo);
    NextWraps(frags[0].seqNo + |frags|, p.seqNo);
    hide OnFragment, FuStart, FuEnd, Next;
    SubsequenceExtends(frags, h, p);
    ChainGrows(frags, p, s.lastSsrc);
    assert (frags + [p])[0] == frags[0];
    hide Subsequence, Chain, Reassembled, Fragment;
  }

  lemma NextWraps(n: nat, seqNo: Word16)
    requires seqNo == n % 0x1_0000
    ensures Next(seqNo) == (n + 1) % 0x1_0000
  {
  }

  lemma ChainGrows(frags: seq<Rtp>, p: Rtp, ssrc: Word32)
    requires Chain(frags, ssrc, false) && Fragment(p, ssrc) && !FuStart(p.payload)
    requires p.seqNo == (frags[0].seqNo + |frags|) % 0x1_0000
    ensures Chain(frags + [p], ssrc, FuEnd(p.payload))
    ensures Reassembled(frags + [p], ssrc, FuEnd(p.payload)) == Reassembled(frags, ssrc, false) + p.payload[2..]
  {
    assert (frags + [p])[..|frags|] == frags;
    hide FuStart, FuEnd, FuNalHeader;
  }

  lemma ParamStep(h: History, s: State, a: Account, nal: Nal) returns (b: Account)
    requires Explains(h, s, a) && Whole(h, s.lastSsrc, nal)
    ensures Explains(h, s.(pendingParams := s.pendingParams + START_CODE + nal), b)
  {
    hide Whole, Gathered;
    JoinSnoc(a.pend, nal);
    b := a.(pend := a.pend + [nal]);
  }

  lemma SingleStep(h: History, s: State, p: Rtp, a: Account) returns (b: Account)
    requires Explains(h, s, a) && Whole(h, s.lastSsrc, p.payload) && p.payload != []
    ensures Explains(h, Flush(OnSingle(s, p.payload), p.marker).0, b)
    ensures forall f :: f in Flush(OnSingle(s, p.payload), p.marker).1 ==> WholeFrame(h, s.lastSsrc, f)
  {
    hide Whole, WholeFrame;
    var t := if s.fu.active then s.(fu := ResetFu(s.fu)) else s;
    assert Explains(h, t, a) by { hide Gathered, AllWhole; }
    hide Explains;
    b := AppendUnitStep(h, t, a, PayloadType(p.payload), p.payload);
    b := FlushStep(h, OnSingle(s, p.payload), b, p.marker);
  }

  lemma PayloadStep(h: History, s: State, p: Rtp, a: Account) returns (b: Account)
    requires h != [] && h[|h| - 1] == p && p.ssrc == s.lastSsrc
    requires Explains(h, s, a) && (s.fu.active ==> Subsequence(a.frags, h[..|h| - 1]))
    ensures Explains(h, StepPayload(s, p).0, b)
    ensures forall f :: f in StepPayload(s, p).1 ==> WholeFrame(h, p.ssrc, f)
  {
    hide Explains, WholeFrame, OnSingle, OnFragment, FinishFragment, StapBytes;
    b := a;
    if p.payload != [] {
      var nalType := PayloadType(p.payload);
      if 1 <= nalType <= 23 {
        assert IsSingle(p, p.ssrc, p.payload) && p in h;
        if IsParam(nalType) {
          b := ParamStep(h, s, a, p.payload);
        } else {
          b := SingleStep(h, s, p, a);
        }
      } else if nalType == 28 && |p.payload| >= 2 {
        b := FragmentPacketStep(h, s, p, a);
      } else if nalType == 24 {
        b := StapStep(h, s, p, a);
      }
    }
  }

  lemma StapStep(h: History, s: State, p: Rtp, a: Account) returns (b: Account)
    requires h != [] && h[|h| - 1] == p && p.ssrc == s.lastSsrc && Explains(h, s, a)
    requires p.payload != [] && PayloadType(p.payload) == 24
    ensures Explains(h, StepPayload(s, p).0, b)
    ensures forall f :: f in StepPayload(s, p).1 ==> WholeFrame(h, p.ssrc, f)
  {
    var nals := StapElements(p.payload[1..]);
    forall n | 0 <= n < |nals|
      ensures Whole(h, p.ssrc, nals[n])
    {
      assert IsElement(p, p.ssrc, nals[n]) && p in h;
    }
    JoinConcat(a.frame, nals);
    assert p.payload[1..][0..] == p.payload[1..];
    var t := s.(frameBuf := s.frameBuf + StapBytes(p.payload[1..], 0));
    b := FlushStep(h, t, a.(frame := a.frame + nals), p.marker);
  }

  lemma FragmentPacketStep(h: History, s: State, p: Rtp, a: Account) returns (b: Account)
    requires h != [] && h[|h| - 1] == p && Fragment(p, s.lastSsrc)
    requires Explains(h, s, a) && (s.fu.active ==> Subsequence(a.frags, h[..|h| - 1]))
    ensures Explains(h, StepPayload(s, p).0, b)
    ensures forall f :: f in StepPayload(s, p).1 ==> WholeFrame(h, p.ssrc, f)
  {
    var (t, early) := Flush(s, FuStart(p.payload));
    b := FlushStep(h, s, a, FuStart(p.payload));
    b := b.(frags := a.frags);
    var g := h[..|h| - 1];
    assert h == g + [p];
    var accepted := OnFragment(t, p.seqNo, p.payload);
    if accepted.Some? {
      if FuStart(p.payload) {
        StartFragment(g, t, p);
        b := FragmentAccepted(h, t, p, b.(frags := [p]));
      } else {
        ContinueFragment(g, t, p, a.frags);
        b := FragmentAccepted(h, t, p, b.(frags := a.frags + [p]));
      }
    }
  }

  lemma FragmentAccepted(h: History, t: State, p: Rtp, a: Account) returns (b: Account)
    requires Fragment(p, t.lastSsrc) && OnFragment(t, p.seqNo, p.payload).Some?
    requires Explains(h, t.(fu := ResetFu(t.fu)), a)
    requires Gathered(h, OnFragment(t, p.seqNo, p.payload).value, t.lastSsrc, a.frags, FuEnd(p.payload))
    ensures var u := t.(fu := OnFragment(t, p.seqNo, p.payload).value);
            var v := if FuEnd(p.payload) then FinishFragment(u) else u;
            && Explains(h, Flush(v, p.marker).0, b)
            && forall f :: f in Flush(v, p.marker).1 ==> WholeFrame(h, p.ssrc, f)
  {
    var u := t.(fu := OnFragment(t, p.seqNo, p.payload).value);
    b := a;
    if FuEnd(p.payload) {
      assert IsReassembly(h, p.ssrc, u.fu.payload) && Whole(h, p.ssrc, u.fu.payload);
      hide Whole, WholeFrame, Gathered;
      b := AppendUnitStep(h, u.(fu := ResetFu(u.fu)), b, u.fu.nalHeader % 32, u.fu.payload);
      b := FlushStep(h, FinishFragment(u), b, p.marker);
    } else {
      b := FlushStep(h, u, b, p.marker);
    }
  }

  // ----- Main result -----

  lemma {:induction false} RunExplained(s: State, h: History) returns (a: Account)
    requires Restarted(s)
    ensures h == [] || (!Run(s, h).0.firstPacket && Explains(h, Run(s, h).0, a))
    ensures forall f :: f in Run(s, h).1 ==> exists ssrc :: WholeFrame(h, ssrc, f)
  {
    a := Account([], [], []);
    if h != [] {
      var g, p := h[..|h| - 1], h[|h| - 1];
      a := RunExplained(s, g);
      var t := Run(s, g).0;
      assert h == g + [p];
      var b := SsrcStep(g, t, p, a);
      a := PayloadStep(h, OnSsrc(t, p), p, b);
      WholeFramesExtend(g, p, Run(s, g).1);
      hide Explains, WholeFrame, StepPayload, OnSsrc;
      assert !Step(t, p).0.firstPacket by { StepSeen(t, p); }
    }
  }

  lemma StepSeen(s: State, p: Rtp)
    ensures !Step(s, p).0.firstPacket
  {
  }

  lemma WholeFramesExtend(h: History, p: Rtp, frames: seq<seq<Byte>>)
    requires forall f :: f in frames ==> exists ssrc :: WholeFrame(h, ssrc, f)
    ensures forall f :: f in frames ==> exists ssrc :: WholeFrame(h + [p], ssrc, f)
  {
    forall f | f in frames
      ensures exists ssrc :: WholeFrame(h + [p], ssrc, f)
    {
      var ssrc :| WholeFrame(h, ssrc, f);
      var nals :| nals != [] && f == Join(nals) && AllWhole(h, ssrc, nals);
      AllWholeExtends(h, p, ssrc, nals);
      assert WholeFrame(h + [p], ssrc, f);
    }
  }

  /** Loss safety. Whatever datagrams arrive after a (re)start, every frame ever completed is a
      non-empty list of NAL units of a single source, each a whole single-unit payload, a whole STAP-A
      element, or the reassembly of fragments s, s+1, ..., s+k (mod 2^16) from S bit to E bit, of the
      packets that came out of the receive buffer. */
  lemma FramesAreWhole(os: Platform, s: State, ds: seq<seq<Byte>>)
    requires Restarted(s)
    ensures forall f :: f in RunDatagrams(os, s, ds).1 ==> exists ssrc :: WholeFrame(Packets(os, ds), ssrc, f)
  {
    RunDatagramsIsRun(os, s, ds);
    var a := RunExplained(s, Packets(os, ds));
  }
}
