/** Replay protection over whole runs of a session: received packets of any streams, updates between them, and
    the template standing in for a stream that is not there yet. */
module SessionReplay {
  import opened Bytes
  import opened ReplayWindow
  import opened SrtpStream
  import opened StreamMemory
  import opened StreamList
  import opened SessionMemory
  import opened UpdateMemory
  import opened SrtpPacket
  import opened SrtpTransform
  import opened StreamPackets
  import opened SrtpSession
  import opened SessionRuns

  // ----- Runs -----

  /** A packet is handed to srtp_unprotect, or an update succeeds. */
  datatype Event = Packet(packet: Octets, capacity: nat, room: bool) | Update(policy: Policy)

  datatype Sessions = Sessions(streams: seq<Stream>, template: Option<Stream>)

  /** `results` is what srtp_unprotect said, `after` what each event left. */
  ghost predicate EventRun(w: Crypto, events: seq<Event>, results: seq<Outcome>, after: seq<Sessions>)
  {
    && |results| == |events| && |after| == |events| + 1
    && forall i :: 0 <= i < |events| ==> Step(w, events[i], after[i], results[i], after[i + 1])
  }

  ghost predicate Step(w: Crypto, e: Event, s: Sessions, result: Outcome, t: Sessions)
  {
    match e
    case Packet(packet, capacity, room) =>
      Unprotected(w, packet, capacity, room, s.streams, s.template, result, t.streams, t.template)
    case Update(p) => Updated(p, s, t)
  }

  /** A successful update of a session whose SSRCs are distinct. */
  ghost predicate Updated(p: Policy, s: Sessions, t: Sessions)
  {
    && Distinct(s.streams) && Related(s.streams, s.template)
    && if Wildcard(p) then TemplateUpdated(p, s.streams, s.template, Ok, t.streams, t.template)
       else p.target.Specific? && t.template == s.template && StreamUpdated(p, s.streams, Ok, t.streams)
  }

  predicate Accepts(e: Event, result: Outcome, ssrc: Ssrc)
  {
    e.Packet? && result.status == Ok && ValidRtp(e.packet) && RtpSsrc(e.packet) == ssrc
  }

  /** What an event is to the window of one SSRC: a packet that is accepted, an update of the stream, an update
      of the template it was cloned from or will be cloned from, or nothing. */
  ghost function NoteOf(e: Event, result: Outcome, s: Sessions, t: Sessions, ssrc: Ssrc): seq<Note>
  {
    match e
    case Packet(packet, _, _) => if Accepts(e, result, ssrc) then SeenIn(packet) else []
    case Update(p) =>
      if p.target == Specific(ssrc) then [Renewed(WindowLength(p.settings.window))]
      else if Wildcard(p) && t.template.Some? && !OwnStream(s, ssrc) then [Renewed(|t.template.value.rdbx.bits|)]
      else []
  }

  function SeenIn(packet: Octets): seq<Note>
  {
    if |packet| >= FIXED_HEADER then [Seen(RtpSeq(packet))] else []
  }

  /** The SSRC has a stream that shares nothing with the template. */
  ghost predicate OwnStream(s: Sessions, ssrc: Ssrc)
  {
    s.template.Some? && Get(s.streams, ssrc).Some? && Apart(Get(s.streams, ssrc).value, s.template.value)
  }

  /** What the window of one SSRC goes through in the first k events. */
  ghost function Notes(events: seq<Event>, results: seq<Outcome>, after: seq<Sessions>, ssrc: Ssrc, k: nat): seq<Note>
    requires |results| == |events| && |after| == |events| + 1 && k <= |events|
  {
    if k == 0 then []
    else Notes(events, results, after, ssrc, k - 1) + NoteOf(events[k - 1], results[k - 1], after[k - 1], after[k], ssrc)
  }

  /** No packet went through the stream yet: it is there and unused, or the template will bring it. */
  predicate Untouched(s: Sessions, ssrc: Ssrc, length: nat)
  {
    length > 0
    && match Get(s.streams, ssrc)
       case Some(stream) => stream.rdbx == Cleared(0, length) && stream.pendingRoc == 0
       case None => s.template.Some? ==> |s.template.value.rdbx.bits| == length
  }

  /** The stream holds the window, or the template will bring a stream that does. */
  predicate Holds(s: Sessions, ssrc: Ssrc, win: Window)
  {
    match Get(s.streams, ssrc)
    case Some(stream) => stream.rdbx == win && stream.pendingRoc == 0
    case None => win == Cleared(0, |win.bits|) && (s.template.Some? ==> |s.template.value.rdbx.bits| == |win.bits|)
  }

  /** Every sequence number among the notes was let through. */
  predicate AllTaken(length: nat, notes: seq<Note>)
    requires length > 0 && NotesOk(notes)
  {
    forall j :: 0 <= j < |notes| && notes[j].Seen? ==> NoteIndex(length, notes, j).Taken?
  }

  // ----- One note more -----

  lemma {:induction false} AfterPrefix(length: nat, notes: seq<Note>, more: seq<Note>, k: nat)
    requires length > 0 && NotesOk(notes + more) && k <= |notes| && NotesOk(notes)
    ensures After(length, notes + more, k) == After(length, notes, k)
  {
    hide TakeIndex;
    if k > 0 {
      AfterPrefix(length, notes, more, k - 1);
      assert (notes + more)[k - 1] == notes[k - 1];
    }
  }

  /** Where the window stands after one more note, if it is one that can come. */
  predicate Comes(win: Window, n: Note) { n.Seen? ==> TakeIndex(win, 0, n.s, false).Taken? }

  function Next(win: Window, n: Note): Window
    requires Comes(win, n) && (n.Renewed? ==> n.length > 0)
  {
    match n
    case Renewed(l) => Cleared(win.index, l)
    case Seen(s) => TakeIndex(win, 0, s, false).window
  }

  lemma OneMore(length: nat, notes: seq<Note>, n: Note)
    requires length > 0 && NotesOk(notes) && AllTaken(length, notes) && (n.Renewed? ==> n.length > 0)
    requires Comes(After(length, notes, |notes|).0, n)
    ensures var all := notes + [n];
            NotesOk(all) && AllTaken(length, all) && After(length, all, |all|).0 == Next(After(length, notes, |notes|).0, n)
  {
    hide TakeIndex, After;
    var all := notes + [n];
    assert NotesOk(all);
    AfterPrefix(length, notes, [n], |notes|);
    AfterNext(length, all, |notes|);
    forall j | 0 <= j < |all| && all[j].Seen?
      ensures NoteIndex(length, all, j).Taken?
    {
      AfterPrefix(length, notes, [n], j);
      if j < |notes| { assert NoteIndex(length, notes, j).Taken?; }
    }
  }

  lemma AfterNext(length: nat, notes: seq<Note>, k: nat)
    requires length > 0 && NotesOk(notes) && k < |notes| && Comes(After(length, notes, k).0, notes[k])
    ensures After(length, notes, k + 1).0 == Next(After(length, notes, k).0, notes[k])
  {
    hide TakeIndex;
  }

  // ----- One event -----

  lemma NoRoc(win: Window, s: Word16)
    ensures var r := TakeIndex(win, 0, s, false); r.Taken? ==> r.pendingRoc == 0
  {
    hide Estimate, Check, Noted;
  }

  /** The first packet through the template is the first packet through a cleared window. */
  lemma FirstIsTaken(length: nat, s: Word16)
    requires length > 0
    ensures TakeIndex(Cleared(0, length), 0, s, false) == FirstIndex(length, s)
  {
  }

  lemma OtherWritten(xs: seq<Stream>, n: nat, s: Stream, k: Ssrc)
    requires n < |xs| && s.ssrc == xs[n].ssrc != k
    ensures Get(xs[n := s], k) == Get(xs, k)
  {
    var ys := xs[n := s];
    assert forall m :: 0 <= m < |ys| ==> ys[m].ssrc == xs[m].ssrc;
    SameFirst(xs, ys, k, 0);
  }

  lemma {:induction false} OtherAppended(xs: seq<Stream>, s: Stream, k: Ssrc, i: nat)
    requires s.ssrc != k && i <= |xs|
    ensures FirstFrom(xs + [s], k, i) == FirstFrom(xs, k, i)
    decreases |xs| - i
  {
    if i < |xs| {
      assert (xs + [s])[i] == xs[i];
      OtherAppended(xs, s, k, i + 1);
    } else {
      assert (xs + [s])[i] == s;
    }
  }

  lemma SameGet(xs: seq<Stream>, s: Stream, k: Ssrc)
    requires s.ssrc != k
    ensures Get(xs + [s], k) == Get(xs, k)
  {
    OtherAppended(xs, s, k, 0);
  }

  /** A packet of another stream, or one that is refused, leaves the stream and its template's window length. */
  lemma OtherPacket(w: Crypto, e: Event, s: Sessions, result: Outcome, t: Sessions, ssrc: Ssrc, win: Window)
    requires e.Packet? && Step(w, e, s, result, t) && !Accepts(e, result, ssrc) && Holds(s, ssrc, win)
    ensures Holds(t, ssrc, win)
  {
    hide CloneOf, CryptoOk, ValidRtp, UnprotectOn, TakeIndex, FirstIndex;
    if ValidRtp(e.packet) && result.status == Ok {
      HasHeader(e.packet);
      match FirstFrom(s.streams, RtpSsrc(e.packet), 0) {
        case Some(n) => if t.streams != s.streams { OtherWritten(s.streams, n, t.streams[n], ssrc); }
        case None => SameGet(s.streams, Last(t.streams), ssrc);
      }
    }
  }

  /** A packet that is accepted was let through by the window, and is in it afterwards. */
  lemma OwnPacket(w: Crypto, e: Event, s: Sessions, result: Outcome, t: Sessions, ssrc: Ssrc, win: Window)
    requires e.Packet? && Step(w, e, s, result, t) && Accepts(e, result, ssrc) && Holds(s, ssrc, win)
    ensures SeenIn(e.packet) == [Seen(RtpSeq(e.packet))] && Comes(win, Seen(RtpSeq(e.packet)))
    ensures Holds(t, ssrc, Next(win, Seen(RtpSeq(e.packet))))
  {
    hide CloneOf, CryptoOk, ValidRtp, UnprotectCtr, TakeIndex, FirstIndex;
    HasHeader(e.packet);
    var seqNo := RtpSeq(e.packet);
    match FirstFrom(s.streams, ssrc, 0) {
      case Some(n) =>
        FirstWritten(s.streams, ssrc, n, t.streams[n]);
        NoRoc(s.streams[n].rdbx, seqNo);
      case None =>
        FirstAppended(s.streams, Last(t.streams));
        FirstIsTaken(|win.bits|, seqNo);
        NoRoc(win, seqNo);
    }
  }

  /** An update of one stream renews its window and leaves the others. */
  lemma StreamUpdateHolds(p: Policy, s: Sessions, t: Sessions, ssrc: Ssrc, win: Window)
    requires Updated(p, s, t) && !Wildcard(p) && Holds(s, ssrc, win)
    ensures Holds(t, ssrc, if p.target == Specific(ssrc) then Cleared(win.index, WindowLength(p.settings.window)) else win)
  {
    hide ValidPolicy, WindowOk, Compatible, Related;
    var (k, m) := (p.target.ssrc, MapOf(s.streams));
    MapOfModels(s.streams);
    StreamUpdateConserves(p, s.streams, t.streams, m);
    if k == ssrc {
      StreamUpdateRenews(p, s.streams, t.streams, m);
    }
  }

  lemma StreamUpdateRenews(p: Policy, xs: seq<Stream>, ys: seq<Stream>, m: map<Ssrc, Stream>)
    requires p.target.Specific? && Models(xs, m) && StreamUpdated(p, xs, Ok, ys)
    ensures p.target.ssrc in m && Get(ys, p.target.ssrc).Some?
    ensures var u := Get(ys, p.target.ssrc).value;
            u.rdbx == Cleared(m[p.target.ssrc].rdbx.index, WindowLength(p.settings.window)) && u.pendingRoc == 0
  {
    hide ValidPolicy, WindowOk, Compatible;
    var k := p.target.ssrc;
    var rest := Removed(xs, k);
    assert Get(xs, k).Some?;
    var was := Get(xs, k).value;
    var s :| MadeFrom(s, p, k, Unknown) && Rewritten(rest + [s], was, ys);
    RemoveIsMinus(xs, m, k);
    assert Get(rest, k) == None;
    FirstAppended(rest, s);
    FirstWritten(rest + [s], k, |rest|, ys[|rest|]);
  }

  /** An update of the template renews the windows of its clones and leaves the other streams. */
  lemma TemplateUpdateHolds(p: Policy, s: Sessions, t: Sessions, ssrc: Ssrc, win: Window)
    requires Updated(p, s, t) && Wildcard(p) && Holds(s, ssrc, win)
    ensures s.template.Some? && t.template.Some?
    ensures Holds(t, ssrc, if OwnStream(s, ssrc) then win else Cleared(win.index, |t.template.value.rdbx.bits|))
  {
    hide ValidPolicy, WindowOk, Compatible, Apart, CloneOf;
    TemplateUpdateConserves(p, s.streams, s.template, t.streams, t.template);
    SameFirst(s.streams, t.streams, ssrc, 0);
    match FirstFrom(s.streams, ssrc, 0) {
      case Some(n) =>
        assert RelatedTo(s.streams[n], s.template) && Carried(s.streams[n], t.streams[n], s.template.value, t.template.value);
      case None =>
    }
  }

  lemma EventHolds(w: Crypto, e: Event, s: Sessions, result: Outcome, t: Sessions, ssrc: Ssrc, win: Window)
    requires Step(w, e, s, result, t) && Holds(s, ssrc, win)
    ensures var note := NoteOf(e, result, s, t, ssrc);
            && |note| <= 1
            && (note == [] ==> Holds(t, ssrc, win))
            && (note != [] ==> (note[0].Renewed? ==> note[0].length > 0) && Comes(win, note[0]) && Holds(t, ssrc, Next(win, note[0])))
  {
    hide Holds, Updated, Unprotected, OwnStream, TakeIndex, ValidRtp;
    match e {
      case Packet(_, _, _) =>
        if Accepts(e, result, ssrc) {
          OwnPacket(w, e, s, result, t, ssrc, win);
        } else {
          OtherPacket(w, e, s, result, t, ssrc, win);
        }
      case Update(p) =>
        if Wildcard(p) {
          TemplateUpdateHolds(p, s, t, ssrc, win);
        } else {
          StreamUpdateHolds(p, s, t, ssrc, win);
        }
    }
  }

  // ----- The run -----

  lemma {:induction false} WindowAlong(w: Crypto, events: seq<Event>, results: seq<Outcome>, after: seq<Sessions>,
                                       ssrc: Ssrc, length: nat, k: nat)
    requires EventRun(w, events, results, after) && Untouched(after[0], ssrc, length) && k <= |events|
    ensures var notes := Notes(events, results, after, ssrc, k);
            NotesOk(notes) && AllTaken(length, notes) && Holds(after[k], ssrc, After(length, notes, |notes|).0)
  {
    hide Step, NoteOf, After, TakeIndex, Get, Holds, AllTaken, NotesOk;
    if k == 0 {
      NothingYet(after[0], ssrc, length);
    } else {
      WindowAlong(w, events, results, after, ssrc, length, k - 1);
      var notes := Notes(events, results, after, ssrc, k - 1);
      var note := NoteOf(events[k - 1], results[k - 1], after[k - 1], after[k], ssrc);
      assert Step(w, events[k - 1], after[k - 1], results[k - 1], after[k]);
      EventHolds(w, events[k - 1], after[k - 1], results[k - 1], after[k], ssrc, After(length, notes, |notes|).0);
      if note == [] {
        assert notes + note == notes;
      } else {
        assert note == [note[0]];
        OneMore(length, notes, note[0]);
      }
    }
  }

  lemma NothingYet(s: Sessions, ssrc: Ssrc, length: nat)
    requires Untouched(s, ssrc, length)
    ensures NotesOk([]) && AllTaken(length, []) && Holds(s, ssrc, After(length, [], 0).0)
  {
  }

  /** Whatever packets arrive for whatever streams, in any order, repeated or forged, and whatever updates come
      between: the packets of one SSRC that srtp_unprotect accepts have different packet indices, until the
      rollover counter runs out, unless an update between them renewed the stream's window. */
  lemma NoReplay(w: Crypto, events: seq<Event>, results: seq<Outcome>, after: seq<Sessions>, ssrc: Ssrc, length: nat)
    requires EventRun(w, events, results, after) && Untouched(after[0], ssrc, length)
    ensures NeverRepeats(length, Notes(events, results, after, ssrc, |events|))
  {
    hide Step, Notes, After, TakeIndex, RenewedBetween, Repeats, Holds, AllTaken;
    WindowAlong(w, events, results, after, ssrc, length, |events|);
    var notes := Notes(events, results, after, ssrc, |events|);
    if EndsInRange(length, notes) {
      forall i, j | 0 <= i < j < |notes| && notes[i].Seen? && !RenewedBetween(notes, i, j)
        ensures !Repeats(length, notes, i, j)
      {
        NoRepeat(length, notes, i, j);
      }
    }
  }

  /** Each packet was let through with an index that no earlier one had since the last renewal. */
  predicate NeverRepeats(length: nat, notes: seq<Note>)
  {
    && length > 0 && NotesOk(notes) && AllTaken(length, notes)
    && (EndsInRange(length, notes) ==>
      forall i, j :: 0 <= i < j < |notes| && notes[i].Seen? && !RenewedBetween(notes, i, j) ==> !Repeats(length, notes, i, j))
  }

  predicate LetsThrough(s: Stream, seqNo: Word16) { TakeIndex(s.rdbx, s.pendingRoc, seqNo, false).Taken? }

  /** After an update of its stream a packet that was refused as a replay passes the replay check again exactly
      when its index lies within the new window. */
  lemma UpdateForgets(p: Policy, s: Sessions, t: Sessions, seqNo: Word16)
    requires Updated(p, s, t) && p.target.Specific? && Get(s.streams, p.target.ssrc).Some?
    requires var was := Get(s.streams, p.target.ssrc).value;
             was.pendingRoc == 0 && TakeIndex(was.rdbx, 0, seqNo, false) == Again
    ensures Get(t.streams, p.target.ssrc).Some?
    ensures LetsThrough(Get(t.streams, p.target.ssrc).value, seqNo)
       <==> Estimate(Get(s.streams, p.target.ssrc).value.rdbx.index, seqNo).delta + WindowLength(p.settings.window) > 0
  {
    hide ValidPolicy, WindowOk, Compatible, Related, TakeIndex, Estimate;
    var was := Get(s.streams, p.target.ssrc).value;
    MapOfModels(s.streams);
    StreamUpdateRenews(p, s.streams, t.streams, MapOf(s.streams));
    RenewalForgets(was.rdbx, seqNo, WindowLength(p.settings.window));
  }
}
