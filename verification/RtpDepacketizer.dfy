/** The H.264 RTP depacketizer (rtp-receiver.cpp): single NAL unit, STAP-A and FU-A packets,
    parameter-set buffering, SSRC changes and the marker bit. */
module RtpDepacketizer {
  import opened Bytes
  import opened AnnexB

  const RTP_HEADER_SIZE := 12
  /** The receive buffer. */
  const BUFFER_SIZE: nat := 8192

  /** The part of an RTP packet the receiver looks at. */
  datatype Rtp = Rtp(marker: bool, seqNo: Word16, ssrc: Word32, payload: seq<Byte>)

  /** None when the datagram is skipped before any state changes. */
  function Parse(d: seq<Byte>): Option<Rtp>
  {
    if |d| < RTP_HEADER_SIZE || d[0] / 64 != 2 then None
    else Some(Rtp(d[1] >= 128, U16(d[2], d[3]), U32(d[8..12]), d[RTP_HEADER_SIZE..]))
  }

  datatype Fu = Fu(active: bool, nalHeader: Byte, startSeq: Word16, expectedSeq: Word16, payload: seq<Byte>)

  datatype State = State(
    pendingParams: seq<Byte>,
    frameBuf: seq<Byte>,
    fu: Fu,
    lastSsrc: Word32,
    lastSeq: Word16,
    firstPacket: bool)

  // ----- Payload structures of RFC 6184 -----

  function Next(seqNo: Word16): Word16 { (seqNo + 1) % 0x1_0000 }

  function PayloadType(payload: seq<Byte>): nat
    requires payload != []
  {
    payload[0] % 32
  }

  predicate IsParam(nalType: nat) { nalType == 7 || nalType == 8 }

  predicate FuStart(payload: seq<Byte>) requires |payload| >= 2 { payload[1] >= 128 }

  predicate FuEnd(payload: seq<Byte>) requires |payload| >= 2 { payload[1] / 64 % 2 == 1 }

  /** The NAL unit header rebuilt from the FU indicator and the FU header (section 5.8). */
  function FuNalHeader(payload: seq<Byte>): Byte
    requires |payload| >= 2
  {
    payload[0] / 32 % 4 * 32 + payload[1] % 32
  }

  /** The NAL units aggregated in a STAP-A payload (section 5.7.1); a truncated unit ends the list. */
  function StapElements(body: seq<Byte>): seq<Nal>
    decreases |body|
  {
    if |body| < 2 then []
    else
      var size := U16(body[0], body[1]);
      if 2 + size > |body| then [] else [body[2..2 + size]] + StapElements(body[2 + size..])
  }

  /** What the elements from position `p` on contribute to the frame. */
  function StapBytes(body: seq<Byte>, p: nat): seq<Byte>
    requires p <= |body|
  {
    Join(StapElements(body[p..]))
  }

  lemma ConcatAssociates(a: seq<Byte>, b: seq<Byte>, c: seq<Byte>, d: seq<Byte>)
    ensures a + (b + c + d) == a + b + c + d
  {
  }

  lemma StapUnfold(body: seq<Byte>, p: nat)
    requires p <= |body|
    ensures StapBytes(body, p) ==
            if p + 2 > |body| || p + 2 + U16(body[p], body[p + 1]) > |body| then []
            else
              var q := p + 2 + U16(body[p], body[p + 1]);
              START_CODE + body[p + 2..q] + StapBytes(body, q)
  {
    if p + 2 <= |body| {
      var q := p + 2 + U16(body[p], body[p + 1]);
      if q <= |body| {
        assert body[p..][2..q - p] == body[p + 2..q] && body[p..][q - p..] == body[q..];
        JoinCons([body[p + 2..q]] + StapElements(body[q..]));
      }
    }
  }

  // ----- One packet -----

  function ResetFu(fu: Fu): Fu
  {
    fu.(active := false, nalHeader := 0, startSeq := 0, payload := [])
  }

  function Append(s: State, nal: Nal): State
  {
    s.(frameBuf := s.frameBuf + START_CODE + nal)
  }

  /** An IDR unit takes the buffered parameter sets with it. */
  function AppendUnit(s: State, nalType: nat, nal: Nal): State
  {
    if nalType == 5 then Append(s.(frameBuf := s.frameBuf + s.pendingParams, pendingParams := []), nal)
    else Append(s, nal)
  }

  function OnSsrc(s: State, p: Rtp): State
  {
    var t := if !s.firstPacket && p.ssrc != s.lastSsrc
             then s.(frameBuf := [], pendingParams := [], fu := ResetFu(s.fu)) else s;
    t.(lastSsrc := p.ssrc, firstPacket := false, lastSeq := p.seqNo)
  }

  function Flush(s: State, flush: bool): (State, seq<seq<Byte>>)
  {
    if flush && s.frameBuf != [] then (s.(frameBuf := []), [s.frameBuf]) else (s, [])
  }

  /** The frame the caller of `ReceiveFrame` is left with. */
  function Latest(frames: seq<seq<Byte>>, otherwise: seq<Byte>): seq<Byte>
  {
    if frames == [] then otherwise else frames[|frames| - 1]
  }

  function OnSingle(s: State, payload: seq<Byte>): State
    requires payload != []
  {
    AppendUnit(if s.fu.active then s.(fu := ResetFu(s.fu)) else s, PayloadType(payload), payload)
  }

  /** A fragment accepted into the running reassembly; None when it does not continue it. */
  function OnFragment(s: State, seqNo: Word16, payload: seq<Byte>): Option<Fu>
    requires |payload| >= 2
  {
    var body := payload[2..];
    if FuStart(payload) then
      var header := FuNalHeader(payload);
      Some(Fu(true, header, seqNo, Next(seqNo), [header] + body))
    else if s.fu.active && seqNo == s.fu.expectedSeq then
      Some(s.fu.(expectedSeq := Next(seqNo), payload := s.fu.payload + body))
    else None
  }

  function FinishFragment(s: State): State
  {
    var t := AppendUnit(s, s.fu.nalHeader % 32, s.fu.payload);
    t.(fu := ResetFu(t.fu))
  }

  /** The state after one packet and the frames it completes, in order. */
  function Step(s: State, p: Rtp): (State, seq<seq<Byte>>)
  {
    StepPayload(OnSsrc(s, p), p)
  }

  function StepPayload(s: State, p: Rtp): (State, seq<seq<Byte>>)
  {
    if p.payload == [] then (s, [])
    else
      var nalType := PayloadType(p.payload);
      if IsParam(nalType) then (s.(pendingParams := s.pendingParams + START_CODE + p.payload), [])
      else if 1 <= nalType <= 23 then Flush(OnSingle(s, p.payload), p.marker)
      else if nalType == 28 then
        if |p.payload| < 2 then (s, [])
        else
          var (t, early) := Flush(s, FuStart(p.payload));
          match OnFragment(t, p.seqNo, p.payload)
          case None => (if t.fu.active then t.(fu := ResetFu(t.fu)) else t, early)
          case Some(fu) =>
            var u := t.(fu := fu);
            var v := if FuEnd(p.payload) then FinishFragment(u) else u;
            var (w, late) := Flush(v, p.marker);
            (w, early + late)
      else if nalType == 24 then Flush(s.(frameBuf := s.frameBuf + StapBytes(p.payload[1..], 0)), p.marker)
      else (s, [])
  }

  /** What was received of one datagram. */
  function PacketStep(s: State, d: seq<Byte>): (State, seq<seq<Byte>>)
  {
    match Parse(d)
    case None => (s, [])
    case Some(p) => Step(s, p)
  }

  /** One datagram, as far as it comes into the buffer. */
  function StepDatagram(os: Platform, s: State, d: seq<Byte>): (State, seq<seq<Byte>>)
  {
    PacketStep(s, Received(os, d, BUFFER_SIZE))
  }

  /** The whole run: final state and every frame ever completed. */
  function Run(s: State, ps: seq<Rtp>): (State, seq<seq<Byte>>)
  {
    if ps == [] then (s, [])
    else
      var (t, log) := Run(s, ps[..|ps| - 1]);
      var (u, frames) := Step(t, ps[|ps| - 1]);
      (u, log + frames)
  }

  function RunDatagrams(os: Platform, s: State, ds: seq<seq<Byte>>): (State, seq<seq<Byte>>)
  {
    if ds == [] then (s, [])
    else
      var (t, log) := RunDatagrams(os, s, ds[..|ds| - 1]);
      var (u, frames) := StepDatagram(os, t, ds[|ds| - 1]);
      (u, log + frames)
  }

  lemma RunDatagramsNext(os: Platform, s: State, ds: seq<seq<Byte>>, i: nat)
    requires i < |ds|
    ensures var t := RunDatagrams(os, s, ds[..i]);
            var u := StepDatagram(os, t.0, ds[i]);
            RunDatagrams(os, s, ds[..i + 1]) == (u.0, t.1 + u.1)
  {
    assert ds[..i + 1][..i] == ds[..i];
  }

  /** The packets that come out of some datagrams. */
  function Packets(os: Platform, ds: seq<seq<Byte>>): seq<Rtp>
  {
    if ds == [] then []
    else
      var p := Parse(Received(os, ds[|ds| - 1], BUFFER_SIZE));
      Packets(os, ds[..|ds| - 1]) + (if p.None? then [] else [p.value])
  }

  /** Skipped datagrams leave no trace. */
  lemma {:induction false} RunDatagramsIsRun(os: Platform, s: State, ds: seq<seq<Byte>>)
    ensures RunDatagrams(os, s, ds) == Run(s, Packets(os, ds))
  {
    if ds != [] {
      var front, p := ds[..|ds| - 1], Parse(Received(os, ds[|ds| - 1], BUFFER_SIZE));
      RunDatagramsIsRun(os, s, front);
      if p.Some? {
        assert Packets(os, ds)[..|Packets(os, ds)| - 1] == Packets(os, front);
      } else {
        assert Packets(os, ds) == Packets(os, front);
        assert RunDatagrams(os, s, front).1 + [] == RunDatagrams(os, s, front).1;
      }
    }
  }

  /** How many datagrams one call takes: all, or those up to the first that is empty or refused. */
  function Drained(os: Platform, ds: seq<seq<Byte>>): (n: nat)
    ensures n <= |ds| && (ds != [] ==> n > 0)
    ensures forall i :: 0 <= i < n - 1 ==> Received(os, ds[i], BUFFER_SIZE) != []
    ensures n < |ds| ==> Received(os, ds[n - 1], BUFFER_SIZE) == []
  {
    if ds == [] then 0
    else if Received(os, ds[0], BUFFER_SIZE) == [] then 1
    else 1 + Drained(os, ds[1..])
  }

  /** One call after the other until everything that arrived is taken. */
  function RunCalls(os: Platform, s: State, ds: seq<seq<Byte>>): (State, seq<seq<Byte>>)
    decreases |ds|
  {
    if ds == [] then (s, [])
    else
      var n := Drained(os, ds);
      var (t, log) := RunDatagrams(os, s, ds[..n]);
      var (u, frames) := RunCalls(os, t, ds[n..]);
      (u, log + frames)
  }

  lemma {:induction false} RunDatagramsConcat(os: Platform, s: State, a: seq<seq<Byte>>, b: seq<seq<Byte>>)
    ensures RunDatagrams(os, s, a + b).0 == RunDatagrams(os, RunDatagrams(os, s, a).0, b).0
    ensures RunDatagrams(os, s, a + b).1 == RunDatagrams(os, s, a).1 + RunDatagrams(os, RunDatagrams(os, s, a).0, b).1
  {
    hide StepDatagram;
    if b == [] {
      assert a + b == a;
    } else {
      var k := |b| - 1;
      assert (a + b)[..|a + b| - 1] == a + b[..k] && (a + b)[|a + b| - 1] == b[k];
      RunDatagramsConcat(os, s, a, b[..k]);
    }
  }

  /** An empty datagram ends a call early but loses nothing: the next call goes on behind it. */
  lemma {:induction false} CallsCoverRun(os: Platform, s: State, ds: seq<seq<Byte>>)
    ensures RunCalls(os, s, ds) == RunDatagrams(os, s, ds)
    decreases |ds|
  {
    hide StepDatagram;
    if ds != [] {
      var n := Drained(os, ds);
      assert ds == ds[..n] + ds[n..];
      RunDatagramsConcat(os, s, ds[..n], ds[n..]);
      CallsCoverRun(os, RunDatagrams(os, s, ds[..n]).0, ds[n..]);
    }
  }

  lemma {:induction false} RunConcat(s: State, a: seq<Rtp>, b: seq<Rtp>)
    ensures Run(s, a + b).0 == Run(Run(s, a).0, b).0
    ensures Run(s, a + b).1 == Run(s, a).1 + Run(Run(s, a).0, b).1
  {
    hide Step;
    if b == [] {
      assert a + b == a;
    } else {
      var k := |b| - 1;
      assert (a + b)[..|a + b| - 1] == a + b[..k] && (a + b)[|a + b| - 1] == b[k];
      RunConcat(s, a, b[..k]);
    }
  }

  const INITIAL_STATE := State([], [], Fu(false, 0, 0, 0, []), 0, 0, true)

  // ----- The receiver -----

  class RtpReceiver {
    var pendingParams: seq<Byte>
    var frameBuf: seq<Byte>
    var fu: Fu
    var lastSsrc: Word32
    var lastSeq: Word16
    var firstPacket: bool
    /** Every frame completed since `Start`, including those a later one in the same call replaced. */
    ghost var log: seq<seq<Byte>>

    ghost function Snapshot(): State
      reads this
    {
      State(pendingParams, frameBuf, fu, lastSsrc, lastSeq, firstPacket)
    }

    constructor ()
      ensures Snapshot() == INITIAL_STATE && log == []
    {
      pendingParams, frameBuf, fu := [], [], Fu(false, 0, 0, 0, []);
      lastSsrc, lastSeq, firstPacket := 0, 0, true;
      log := [];
    }

    /** Restarting drops everything half-received; `lastSsrc` survives but `firstPacket` masks it. */
    method Start()
      modifies this
      ensures Snapshot() == State([], [], ResetFu(old(fu)), old(lastSsrc), old(lastSeq), true)
      ensures log == []
    {
      firstPacket := true;
      pendingParams := [];
      frameBuf := [];
      ResetFuState();
      log := [];
    }

    method ResetFuState()
      modifies this`fu
      ensures fu == ResetFu(old(fu))
    {
      fu := fu.(active := false);
      fu := fu.(nalHeader := 0);
      fu := fu.(startSeq := 0);
      fu := fu.(payload := []);
    }

    method AppendAnnexB(nal: Nal)
      modifies this`frameBuf
      ensures frameBuf == old(frameBuf) + START_CODE + nal
    {
      frameBuf := frameBuf + START_CODE;
      frameBuf := frameBuf + nal;
    }

    method TakeParams(nalType: nat)
      modifies this`frameBuf, this`pendingParams
      ensures frameBuf == old(frameBuf) + (if nalType == 5 then old(pendingParams) else [])
      ensures pendingParams == if nalType == 5 then [] else old(pendingParams)
    {
      if nalType == 5 && pendingParams != [] {
        frameBuf := frameBuf + pendingParams;
        pendingParams := [];
      }
    }

    method AppendStap(body: seq<Byte>)
      modifies this`frameBuf
      ensures frameBuf == old(frameBuf) + StapBytes(body, 0)
    {
      hide Join, StapElements;
      var p := 0;
      assert body[0..] == body;
      while p + 2 <= |body|
        invariant p <= |body|
        invariant frameBuf + StapBytes(body, p) == old(frameBuf) + StapBytes(body, 0)
      {
        var size := U16(body[p], body[p + 1]);
        StapUnfold(body, p);
        p := p + 2;
        if p + size > |body| { return; }
        var nal := body[p..p + size];
        p := p + size;
        ConcatAssociates(frameBuf, START_CODE, nal, StapBytes(body, p));
        hide StapBytes;
        AppendAnnexB(nal);
      }
      StapUnfold(body, p);
    }

    /** Hands the accumulated frame over, when there is one. */
    method FlushFrame(frameData: seq<Byte>) returns (produced: bool, out: seq<Byte>)
      modifies this`frameBuf, this`log
      ensures Snapshot() == Flush(old(Snapshot()), true).0
      ensures log == old(log) + Flush(old(Snapshot()), true).1
      ensures produced <==> old(frameBuf) != []
      ensures out == Latest(Flush(old(Snapshot()), true).1, frameData)
    {
      produced, out := false, frameData;
      if frameBuf != [] {
        out := frameBuf;
        log := log + [frameBuf];
        frameBuf := [];
        produced := true;
      }
    }

    method HandleSingle(payload: seq<Byte>)
      requires payload != []
      modifies this
      ensures Snapshot() == OnSingle(old(Snapshot()), payload) && log == old(log)
    {
      if fu.active { ResetFuState(); }
      TakeParams(payload[0] % 32);
      AppendAnnexB(payload);
    }

    /** One fragment; `go` is false when it is discarded, and then the marker is not looked at. */
    method HandleFragment(seqNo: Word16, payload: seq<Byte>) returns (go: bool)
      requires |payload| >= 2
      requires FuStart(payload) ==> frameBuf == []
      modifies this
      ensures log == old(log)
      ensures var s := old(Snapshot());
              match OnFragment(s, seqNo, payload)
              case None => !go && Snapshot() == if s.fu.active then s.(fu := ResetFu(s.fu)) else s
              case Some(f) => go && Snapshot() == if FuEnd(payload) then FinishFragment(s.(fu := f)) else s.(fu := f)
    {
      var body := payload[2..];
      go := true;
      if FuStart(payload) {
        ResetFuState();
        fu := fu.(active := true);
        fu := fu.(startSeq := seqNo);
        fu := fu.(expectedSeq := Next(seqNo));
        fu := fu.(nalHeader := FuNalHeader(payload));
        fu := fu.(payload := [fu.nalHeader]);
        fu := fu.(payload := fu.payload + body);
      } else if fu.active {
        if seqNo != fu.expectedSeq {
          ResetFuState();
          return false;
        }
        fu := fu.(expectedSeq := Next(seqNo), payload := fu.payload + body);
      } else {
        return false;
      }
      if FuEnd(payload) && fu.active {
        TakeParams(fu.nalHeader % 32);
        AppendAnnexB(fu.payload);
        ResetFuState();
      }
    }

    /** What was received, as far as it came into the buffer. */
    method HandlePacket(d: seq<Byte>, frameData: seq<Byte>) returns (produced: bool, out: seq<Byte>)
      modifies this
      ensures var step := PacketStep(old(Snapshot()), d);
              && Snapshot() == step.0 && log == old(log) + step.1
              && (produced <==> step.1 != []) && out == Latest(step.1, frameData)
    {
      produced, out := false, frameData;
      if |d| < RTP_HEADER_SIZE { return; }
      var ssrc := U32(d[8..12]);
      if d[0] / 64 != 2 { return; }
      var marker, seqNo := d[1] >= 128, U16(d[2], d[3]);
      if !firstPacket && ssrc != lastSsrc {
        frameBuf := [];
        pendingParams := [];
        ResetFuState();
      }
      lastSsrc := ssrc;
      firstPacket := false;
      lastSeq := seqNo;
      var p := Rtp(marker, seqNo, ssrc, d[RTP_HEADER_SIZE..]);
      assert Parse(d) == Some(p) && Snapshot() == OnSsrc(old(Snapshot()), p);
      produced, out := HandlePayload(p, out);
    }

    method HandlePayload(p: Rtp, frameData: seq<Byte>) returns (produced: bool, out: seq<Byte>)
      modifies this
      ensures Snapshot() == StepPayload(old(Snapshot()), p).0
      ensures log == old(log) + StepPayload(old(Snapshot()), p).1
      ensures produced <==> StepPayload(old(Snapshot()), p).1 != []
      ensures out == Latest(StepPayload(old(Snapshot()), p).1, frameData)
    {
      hide OnSingle, OnFragment, FinishFragment, StapBytes;
      produced, out := false, frameData;
      if p.payload == [] { return; }
      var nalType := p.payload[0] % 32;
      if nalType == 7 || nalType == 8 {
        pendingParams := pendingParams + START_CODE;
        pendingParams := pendingParams + p.payload;
        return;
      }
      if 1 <= nalType <= 23 {
        HandleSingle(p.payload);
      } else if nalType == 28 {
        if |p.payload| < 2 { return; }
        if FuStart(p.payload) { produced, out := FlushFrame(out); }
        var go := HandleFragment(p.seqNo, p.payload);
        if !go { return; }
      } else if nalType == 24 {
        AppendStap(p.payload[1..]);
      } else {
        return;
      }
      if p.marker {
        var late;
        late, out := FlushFrame(out);
        produced := produced || late;
      }
    }

    /** Takes what has arrived, up to an empty or refused datagram; what lies behind it is left for the
        next call. All completed frames are logged; the caller gets the last. */
    method ReceiveFrame(os: Platform, datagrams: seq<seq<Byte>>, frameData: seq<Byte>)
      returns (produced: bool, out: seq<Byte>, rest: seq<seq<Byte>>)
      modifies this
      ensures rest == datagrams[Drained(os, datagrams)..]
      ensures var (s, frames) := RunDatagrams(os, old(Snapshot()), datagrams[..Drained(os, datagrams)]);
              && Snapshot() == s && log == old(log) + frames
              && (produced <==> frames != []) && out == Latest(frames, frameData)
    {
      hide *;
      produced, out, rest := false, frameData, datagrams;
      ghost var s, n, i, frames := Snapshot(), Drained(os, datagrams), 0, [];
      DrainingStarts(os, s, datagrams, frameData);
      while rest != []
        invariant i <= |datagrams| && rest == datagrams[i..] && n == i + Drained(os, rest)
        invariant Draining(os, s, datagrams, i, Snapshot(), frames, produced, out, frameData)
        invariant log == old(log) + frames
        decreases |rest|
      {
        var received := Received(os, rest[0], BUFFER_SIZE);
        DrainingNext(os, s, datagrams, i, Snapshot(), frames, produced, out, frameData);
        DrainedNext(os, rest);
        rest := rest[1..];
        i := i + 1;
        if received == [] { break; }
        var one;
        ghost var before := Snapshot();
        one, out := HandlePacket(received, out);
        frames := frames + PacketStep(before, received).1;
        produced := produced || one;
      }
      DrainedNone(os);
      DrainingEnds(os, s, datagrams, i, Snapshot(), frames, produced, out, frameData);
    }
  }

  lemma DrainedNext(os: Platform, ds: seq<seq<Byte>>)
    requires ds != []
    ensures Drained(os, ds) == if Received(os, ds[0], BUFFER_SIZE) == [] then 1 else 1 + Drained(os, ds[1..])
  {
  }

  lemma DrainedNone(os: Platform)
    ensures Drained(os, []) == 0
  {
  }

  /** How far one call has come after `i` datagrams. */
  ghost predicate Draining(os: Platform, s: State, ds: seq<seq<Byte>>, i: nat, now: State, frames: seq<seq<Byte>>,
                           produced: bool, out: seq<Byte>, frameData: seq<Byte>)
    requires i <= |ds|
  {
    && RunDatagrams(os, s, ds[..i]) == (now, frames)
    && (produced <==> frames != []) && out == Latest(frames, frameData)
  }

  lemma DrainingStarts(os: Platform, s: State, ds: seq<seq<Byte>>, frameData: seq<Byte>)
    ensures Draining(os, s, ds, 0, s, [], false, frameData, frameData)
  {
  }

  lemma DrainingNext(os: Platform, s: State, ds: seq<seq<Byte>>, i: nat, now: State, frames: seq<seq<Byte>>,
                     produced: bool, out: seq<Byte>, frameData: seq<Byte>)
    requires i < |ds| && Draining(os, s, ds, i, now, frames, produced, out, frameData)
    ensures var received := Received(os, ds[i], BUFFER_SIZE);
            var step := PacketStep(now, received);
            && Draining(os, s, ds, i + 1, step.0, frames + step.1, produced || step.1 != [], Latest(step.1, out), frameData)
            && (received == [] ==> Draining(os, s, ds, i + 1, now, frames, produced, out, frameData))
  {
    hide Step, Received;
    RunDatagramsNext(os, s, ds, i);
    assert frames + [] == frames;
  }

  lemma DrainingEnds(os: Platform, s: State, ds: seq<seq<Byte>>, i: nat, now: State, frames: seq<seq<Byte>>,
                     produced: bool, out: seq<Byte>, frameData: seq<Byte>)
    requires i <= |ds| && Draining(os, s, ds, i, now, frames, produced, out, frameData)
    ensures RunDatagrams(os, s, ds[..i]) == (now, frames)
    ensures (produced <==> frames != []) && out == Latest(frames, frameData)
  {
  }
}
