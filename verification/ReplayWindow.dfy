/** Packet indices and the replay window of a stream (rdbx.c, and srtp_get_est_pkt_index in srtp.c; sections
    3.3.1 and 3.3.2 of RFC 3711). */
module ReplayWindow {
  import opened Bytes

  const MEDIAN := 0x8000
  const SEQ_MAX := 0x1_0000
  const ROC_MAX := 0x1_0000_0000
  const DEFAULT_WINDOW := 128

  // ----- Guessing the index -----

  /** A guessed index and how far it lies from the local one. */
  datatype Guess = Guess(index: nat, delta: int)

  /** srtp_index_guess; the rollover counter has 32 bits. */
  function IndexGuess(local: nat, s: Word16): Guess
  {
    var roc, seqNo := local / SEQ_MAX % ROC_MAX, local % SEQ_MAX;
    if seqNo < MEDIAN && s - seqNo > MEDIAN then
      Guess((roc + ROC_MAX - 1) % ROC_MAX * SEQ_MAX + s, s - seqNo - SEQ_MAX)
    else if seqNo >= MEDIAN && seqNo - MEDIAN > s then
      Guess((roc + 1) % ROC_MAX * SEQ_MAX + s, s - seqNo + SEQ_MAX)
    else Guess(roc * SEQ_MAX + s, s - seqNo)
  }

  /** srtp_rdbx_estimate_index: near the start the rollover counter is taken to be zero. */
  function Estimate(local: nat, s: Word16): Guess
  {
    if local > MEDIAN then IndexGuess(local, s) else Guess(s, s - local)
  }

  /** How far the true index may be from the local one. */
  predicate Near(local: nat, i: nat)
  {
    if local <= MEDIAN then i < SEQ_MAX
    else if local % SEQ_MAX < MEDIAN then -MEDIAN < i - local <= MEDIAN
    else -MEDIAN <= i - local < MEDIAN
  }

  /** Both ends agree on the index exactly while the receiver is within half a sequence-number cycle of
      the packet. */
  lemma EstimateExact(local: nat, i: nat)
    requires i < SEQ_MAX * ROC_MAX && local + SEQ_MAX < SEQ_MAX * ROC_MAX
    ensures Estimate(local, i % SEQ_MAX) == Guess(i, i - local) <==> Near(local, i)
  {
    var roc, seqNo, r, s := local / SEQ_MAX, local % SEQ_MAX, i / SEQ_MAX, i % SEQ_MAX;
    assert local == roc * SEQ_MAX + seqNo && i == r * SEQ_MAX + s;
    assert roc + 1 < ROC_MAX && r < ROC_MAX;
  }

  /** The rollover counter has 32 bits: past its end the index begins again, and before its beginning there is its
      end. */
  lemma RollsOver(local: nat, s: Word16)
    requires 0x1_0000 <= local < 0x1_0000_0000_0000
    ensures local >= 0xFFFF_FFFF_8000 && s + 0x8000 < local % 0x1_0000 ==>
              Estimate(local, s) == Guess(s, s - local % 0x1_0000 + 0x1_0000)
    ensures local % 0x1_0000 + 0x8000 < s ==>
              Estimate(local, s) == Guess((local / 0x1_0000 - 1) * 0x1_0000 + s, s - local % 0x1_0000 - 0x1_0000)
  {
  }

  // ----- The window -----

  type Bits = b: seq<bool> | b != [] witness [false]

  /** The highest index taken, and a bit for each of the last |bits| indices: bit k stands for
      index - (|bits| - 1 - k). */
  datatype Window = Window(index: nat, bits: Bits)

  /** What bitvector_alloc makes of a size. */
  function Rounded(size: nat): (n: nat)
    ensures size <= n < size + 32 && n % 32 == 0
  {
    (size + 31) / 32 * 32
  }

  function Cleared(index: nat, length: nat): Window
    requires length > 0
  {
    Window(index, seq(length, _ => false))
  }

  datatype Verdict = Fine | TooOld | Replayed

  /** srtp_rdbx_check */
  function Check(w: Window, delta: int): Verdict
  {
    var at := |w.bits| - 1 + delta;
    if delta > 0 then Fine
    else if at < 0 then TooOld
    else if w.bits[at] then Replayed
    else Fine
  }

  /** Bits move down by n places; those that come in are clear. */
  function Shifted(bits: seq<bool>, n: nat): (r: seq<bool>)
    ensures |r| == |bits| && forall k :: 0 <= k < |bits| ==> r[k] == (k + n < |bits| && bits[k + n])
  {
    seq(|bits|, k requires 0 <= k < |bits| => k + n < |bits| && bits[k + n])
  }

  /** srtp_rdbx_add_index */
  function Noted(w: Window, delta: int): (r: Window)
    requires -|w.bits| < delta
    ensures |r.bits| == |w.bits|
  {
    var last := |w.bits| - 1;
    if delta > 0 then Window(w.index + delta % SEQ_MAX, Shifted(w.bits, delta)[last := true])
    else w.(bits := w.bits[last + delta := true])
  }

  // ----- Taking an index -----

  /** What a packet's sequence number comes to: a refusal, or the index and the replay state after it. */
  datatype Indexed =
    | Old                       // too far back for the rollover counter that was set
    | Stale                     // too far back for the window
    | Again                     // taken before
    | Taken(index: nat, window: Window, pendingRoc: nat)

  /** srtp_get_est_pkt_index, the check and the entry: `repeat` allows an index to be taken again. */
  function TakeIndex(w: Window, pendingRoc: nat, s: Word16, repeat: bool): Indexed
  {
    if pendingRoc == 0 then Enter(w, 0, Estimate(w.index, s), repeat)
    else
      var est := pendingRoc * SEQ_MAX + s;
      if est > w.index && est - w.index > MEDIAN then Taken(est, Noted(Cleared(est, |w.bits|), 0), 0)
      else if est < w.index && w.index - est > MEDIAN then Old
      else Enter(w, pendingRoc, Guess(est, est - w.index), repeat)
  }

  function Enter(w: Window, pendingRoc: nat, g: Guess, repeat: bool): Indexed
  {
    match Check(w, g.delta)
    case Fine => Taken(g.index, Noted(w, g.delta), pendingRoc)
    case TooOld => Stale
    case Replayed => if repeat then Taken(g.index, Noted(w, g.delta), pendingRoc) else Again
  }

  /** For a stream that is not there yet: its first packet gives the sequence number, the rollover counter
      is zero. */
  function FirstIndex(length: nat, s: Word16): Indexed
    requires length > 0
  {
    Taken(s, Noted(Cleared(0, length), s), 0)
  }

  // ----- No index twice -----

  lemma SetBit(w: Window, delta: int)
    requires -|w.bits| < delta < SEQ_MAX
    ensures Check(Noted(w, delta), if delta > 0 then 0 else delta) == Replayed
  {
  }

  lemma LowPart(q: nat, s: Word16)
    ensures (q * SEQ_MAX + s) % SEQ_MAX == s
  {
  }

  /** A guess ahead of the local index ends in the sequence number. */
  lemma GuessEndsIn(local: nat, s: Word16) returns (q: nat)
    requires Estimate(local, s).delta > 0
    ensures local + Estimate(local, s).delta == q * SEQ_MAX + s
  {
    var seqNo := local % SEQ_MAX;
    q := if local <= MEDIAN then 0 else local / SEQ_MAX + (if seqNo >= MEDIAN && seqNo - MEDIAN > s then 1 else 0);
  }

  lemma SmallDelta(local: nat, s: Word16)
    ensures Estimate(local, s).delta < SEQ_MAX
  {
  }

  /** Where the window stands after a packet, the same sequence number leads back to the same bit. */
  lemma EstimateAgain(local: nat, s: Word16)
    ensures Estimate(local, s).delta < SEQ_MAX
    ensures var g := Estimate(local, s);
            g.delta > 0 ==> Estimate(local + g.delta, s).delta == 0
  {
    hide Estimate;
    SmallDelta(local, s);
    if Estimate(local, s).delta > 0 {
      var q := GuessEndsIn(local, s);
      LowPart(q, s);
      EstimateSame(local + Estimate(local, s).delta, s);
    }
  }

  /** A packet whose index was taken is not let through again, whatever the rollover counter. */
  lemma NotTwice(w: Window, pendingRoc: nat, s: Word16, repeat: bool)
    requires TakeIndex(w, pendingRoc, s, repeat).Taken?
    ensures var r := TakeIndex(w, pendingRoc, s, repeat); TakeIndex(r.window, r.pendingRoc, s, false) == Again
  {
    var r := TakeIndex(w, pendingRoc, s, repeat);
    hide Estimate;
    if pendingRoc == 0 {
      EstimateAgain(w.index, s);
      SetBit(w, Estimate(w.index, s).delta);
    } else {
      var est := pendingRoc * SEQ_MAX + s;
      if est > w.index && est - w.index > MEDIAN {
        EstimateSame(est, s);
      } else {
        SetBit(w, est - w.index);
      }
    }
  }

  lemma EstimateSame(local: nat, s: Word16)
    requires local % SEQ_MAX == s
    ensures Estimate(local, s).delta == 0
  {
  }

  lemma FirstNotTwice(length: nat, s: Word16)
    requires length > 0
    ensures var r := FirstIndex(length, s); TakeIndex(r.window, r.pendingRoc, s, false) == Again
  {
    SetBit(Cleared(0, length), s);
    EstimateSame(s, s);
  }

  // ----- Runs -----

  /** The window remembers what was taken: nothing above its index, and of what it covers exactly the
      set bits. */
  ghost predicate Remembers(w: Window, taken: set<nat>)
  {
    (forall i :: i in taken ==> i <= w.index)
    && forall i: nat :: w.index - |w.bits| < i <= w.index ==> (i in taken <==> w.bits[|w.bits| - 1 - (w.index - i)])
  }

  /** An index is let through exactly when it is neither too old for the window nor taken before. */
  lemma CheckIsMembership(w: Window, taken: set<nat>, i: nat)
    requires Remembers(w, taken)
    ensures Check(w, i - w.index) == Fine <==> i > w.index - |w.bits| && i !in taken
  {
  }

  lemma AddRemembers(w: Window, taken: set<nat>, i: nat)
    requires Remembers(w, taken) && Check(w, i - w.index) == Fine && i - w.index < SEQ_MAX
    ensures Remembers(Noted(w, i - w.index), taken + {i})
  {
    var r, all, n, delta := Noted(w, i - w.index), taken + {i}, |w.bits|, i - w.index;
    forall j: nat | r.index - n < j <= r.index ensures j in all <==> r.bits[n - 1 - (r.index - j)] {
      if delta > 0 {
        assert j <= w.index ==> n - 1 - (r.index - j) + delta == n - 1 - (w.index - j);
      }
    }
  }

  /** With a rollover counter that was set from outside, the index is the one it names: it is refused when it lies
      more than half a cycle back; more than half a cycle ahead it begins the window anew; else it is let through
      exactly when the window says so, and remembered. */
  lemma RocTaken(w: Window, taken: set<nat>, roc: nat, s: Word16)
    requires Remembers(w, taken) && 0 < roc
    ensures var (i, r) := (0x1_0000 * roc + s, TakeIndex(w, roc, s, false));
            && (r.Old? <==> i + 0x8000 < w.index)
            && (r.Taken? <==> i > w.index + 0x8000 || (i + 0x8000 >= w.index && i + |w.bits| > w.index && i !in taken))
            && (r.Taken? ==> r.index == i && r.pendingRoc == (if i > w.index + 0x8000 then 0 else roc)
                             && Remembers(r.window, if i > w.index + 0x8000 then {i} else taken + {i}))
  {
    var i := SEQ_MAX * roc + s;
    hide Remembers, Check, Noted;
    CheckIsMembership(w, taken, i);
    if i > w.index + MEDIAN {
      NothingTaken(i, |w.bits|);
      StartsAnew(i, |w.bits|);
    } else if i + MEDIAN >= w.index && Check(w, i - w.index) == Fine {
      AddRemembers(w, taken, i);
    }
  }

  lemma StartsAnew(i: nat, length: nat)
    requires length > 0
    ensures Remembers(Noted(Cleared(i, length), 0), {i})
  {
  }

  /** What a window goes through: a sequence number arrives, or an update of the stream renews the window: it
      keeps the highest index and clears the bits. */
  datatype Note = Seen(s: Word16) | Renewed(length: nat)

  predicate NotesOk(notes: seq<Note>) { forall i :: 0 <= i < |notes| && notes[i].Renewed? ==> notes[i].length > 0 }

  /** The window after the first k notes, and the indices taken since it was last renewed. */
  function After(length: nat, notes: seq<Note>, k: nat): (r: (Window, set<nat>))
    requires length > 0 && k <= |notes| && NotesOk(notes)
  {
    if k == 0 then (Cleared(0, length), {})
    else
      var (w, taken) := After(length, notes, k - 1);
      match notes[k - 1]
      case Renewed(l) => (Cleared(w.index, l), {})
      case Seen(s) =>
        match TakeIndex(w, 0, s, false)
        case Taken(index, window, _) => (window, taken + {index})
        case _ => (w, taken)
  }

  /** The rollover counter has not run out. */
  predicate InRange(w: Window) { w.index + SEQ_MAX < SEQ_MAX * ROC_MAX }

  lemma GuessIsNear(local: nat, s: Word16)
    requires local + SEQ_MAX < SEQ_MAX * ROC_MAX
    ensures Estimate(local, s).index == local + Estimate(local, s).delta && Estimate(local, s).delta < SEQ_MAX
  {
    var roc, seqNo := local / SEQ_MAX, local % SEQ_MAX;
    assert local == roc * SEQ_MAX + seqNo && roc + 1 < ROC_MAX;
  }

  lemma {:induction false} RunRemembers(length: nat, notes: seq<Note>, k: nat)
    requires length > 0 && k <= |notes| && NotesOk(notes) && InRange(After(length, notes, k).0)
    ensures Remembers(After(length, notes, k).0, After(length, notes, k).1)
  {
    hide Estimate, Check, Noted, Remembers;
    if k == 0 {
      NothingTaken(0, length);
    } else {
      var (w, taken) := After(length, notes, k - 1);
      match notes[k - 1]
      case Renewed(l) =>
        RunRemembers(length, notes, k - 1);
        NothingTaken(w.index, l);
      case Seen(s) =>
        OnlyGrows(w, s);
        RunRemembers(length, notes, k - 1);
        GuessIsNear(w.index, s);
        var g := Estimate(w.index, s);
        if Check(w, g.delta) == Fine { AddRemembers(w, taken, g.index); }
    }
  }

  lemma NothingTaken(index: nat, length: nat)
    requires length > 0
    ensures Remembers(Cleared(index, length), {})
  {
  }

  lemma OnlyGrows(w: Window, s: Word16)
    ensures var r := TakeIndex(w, 0, s, false); r.Taken? ==> r.window.index >= w.index
  {
    hide Estimate;
  }

  /** What the k-th note, a sequence number, comes to. */
  function NoteIndex(length: nat, notes: seq<Note>, k: nat): Indexed
    requires length > 0 && NotesOk(notes) && k < |notes| && notes[k].Seen?
  {
    TakeIndex(After(length, notes, k).0, 0, notes[k].s, false)
  }

  /** Replay protection over every run, whatever the order and the repetitions, until the rollover counter
      runs out: a packet is let through exactly when its index was not taken since the window was last renewed
      and is not further back than the window reaches. */
  lemma NoIndexTwice(length: nat, notes: seq<Note>, k: nat)
    requires length > 0 && NotesOk(notes) && k < |notes| && notes[k].Seen? && InRange(After(length, notes, k).0)
    ensures var (w, taken) := After(length, notes, k);
            var (i, r) := (Estimate(w.index, notes[k].s).index, NoteIndex(length, notes, k));
            && (r.Taken? <==> i > w.index - |w.bits| && i !in taken)
            && (r.Taken? ==> r.index == i)
  {
    hide Estimate, Check, Noted, Remembers;
    RunRemembers(length, notes, k);
    var (w, taken) := After(length, notes, k);
    GuessIsNear(w.index, notes[k].s);
    CheckIsMembership(w, taken, Estimate(w.index, notes[k].s).index);
  }

  // ----- Renewals -----

  predicate RenewedBetween(notes: seq<Note>, i: nat, j: nat)
    requires i <= j <= |notes|
  {
    exists b :: i < b < j && notes[b].Renewed?
  }

  /** Both let through, with one index. */
  predicate Repeats(length: nat, notes: seq<Note>, i: nat, j: nat)
    requires length > 0 && NotesOk(notes) && i < j < |notes|
  {
    notes[i].Seen? && notes[j].Seen?
    && var (a, b) := (NoteIndex(length, notes, i), NoteIndex(length, notes, j));
       a.Taken? && b.Taken? && a.index == b.index
  }

  lemma {:induction false} GrowsAlong(length: nat, notes: seq<Note>, k: nat, m: nat)
    requires length > 0 && NotesOk(notes) && k <= m <= |notes|
    ensures After(length, notes, k).0.index <= After(length, notes, m).0.index
  {
    hide TakeIndex;
    if k < m {
      GrowsAlong(length, notes, k, m - 1);
      if notes[m - 1].Seen? { OnlyGrows(After(length, notes, m - 1).0, notes[m - 1].s); }
    }
  }

  lemma {:induction false} StaysTaken(length: nat, notes: seq<Note>, j: nat, k: nat)
    requires length > 0 && NotesOk(notes) && j < k <= |notes| && notes[j].Seen? && NoteIndex(length, notes, j).Taken?
    requires forall b :: j < b < k ==> notes[b].Seen?
    ensures NoteIndex(length, notes, j).index in After(length, notes, k).1
    decreases k
  {
    hide TakeIndex;
    if j < k - 1 { StaysTaken(length, notes, j, k - 1); }
  }

  /** While the window is not renewed, no index is let through twice. */
  lemma NoRepeat(length: nat, notes: seq<Note>, i: nat, j: nat)
    requires length > 0 && NotesOk(notes) && i < j < |notes| && notes[i].Seen? && !RenewedBetween(notes, i, j)
    requires EndsInRange(length, notes)
    ensures !Repeats(length, notes, i, j)
  {
    hide TakeIndex, After, Estimate;
    if Repeats(length, notes, i, j) {
      GrowsAlong(length, notes, j, |notes|);
      StaysTaken(length, notes, i, j);
      NoIndexTwice(length, notes, j);
      assert false;
    }
  }

  /** The same notes but for the sequence numbers. */
  predicate SameShape(a: seq<Note>, b: seq<Note>)
  {
    |a| == |b| && forall i :: 0 <= i < |a| ==> if a[i].Seen? then b[i].Seen? else b[i] == a[i]
  }

  predicate EndsInRange(length: nat, notes: seq<Note>)
    requires length > 0 && NotesOk(notes)
  {
    InRange(After(length, notes, |notes|).0)
  }

  /** Whatever sequence numbers arrive, none is let through with an index that was let through before. */
  ghost predicate ReplayFree(length: nat, shape: seq<Note>)
    requires length > 0 && NotesOk(shape)
  {
    forall notes, i, j :: SameShape(shape, notes) && NotesOk(notes) && EndsInRange(length, notes) && 0 <= i < j < |notes| ==>
                            !Repeats(length, notes, i, j)
  }

  function AllZero(shape: seq<Note>): (notes: seq<Note>)
    ensures SameShape(shape, notes) && (NotesOk(shape) ==> NotesOk(notes))
    ensures |notes| == |shape| && forall i :: 0 <= i < |notes| ==> notes[i] == if shape[i].Seen? then Seen(0) else shape[i]
  {
    seq(|shape|, i requires 0 <= i < |shape| => if shape[i].Seen? then Seen(0) else shape[i])
  }

  predicate OnlyZeros(notes: seq<Note>) { forall i :: 0 <= i < |notes| && notes[i].Seen? ==> notes[i].s == 0 }

  /** When only the number 0 arrives, it is in the window unless that was renewed since. */
  lemma {:induction false} ZeroAlong(length: nat, notes: seq<Note>, k: nat)
    requires length > 0 && NotesOk(notes) && OnlyZeros(notes) && k <= |notes|
    ensures After(length, notes, k).0.index == 0
    ensures Highest(After(length, notes, k).0) <==> k > 0 && notes[k - 1].Seen?
  {
    if k > 0 {
      ZeroAlong(length, notes, k - 1);
      TakeZero(After(length, notes, k - 1).0);
      hide TakeIndex;
    }
  }

  /** The bit of the highest index. */
  predicate Highest(w: Window) { w.bits[|w.bits| - 1] }

  lemma TakeZero(w: Window)
    requires w.index == 0
    ensures var r := TakeIndex(w, 0, 0, false);
            && (r.Taken? <==> !Highest(w))
            && (r.Taken? ==> r.index == 0 && r.window.index == 0 && Highest(r.window))
  {
  }

  lemma ZeroTaken(length: nat, notes: seq<Note>, k: nat)
    requires length > 0 && NotesOk(notes) && OnlyZeros(notes) && k < |notes| && notes[k].Seen?
    requires k == 0 || notes[k - 1].Renewed?
    ensures NoteIndex(length, notes, k).Taken? && NoteIndex(length, notes, k).index == 0
  {
    ZeroAlong(length, notes, k);
    TakeZero(After(length, notes, k).0);
    hide TakeIndex, After;
  }

  lemma {:induction false} FirstSeen(notes: seq<Note>, from: nat, last: nat) returns (k: nat)
    requires from <= last < |notes| && notes[last].Seen?
    ensures from <= k <= last && notes[k].Seen? && forall i :: from <= i < k ==> notes[i].Renewed?
    decreases last - from
  {
    k := from;
    if notes[from].Renewed? { k := FirstSeen(notes, from + 1, last); }
  }

  /** A stream cannot be made to take an index twice exactly when its window is never renewed between two
      packets. */
  lemma ReplayFreeIff(length: nat, shape: seq<Note>)
    requires length > 0 && NotesOk(shape)
    ensures ReplayFree(length, shape)
       <==> forall i, j :: 0 <= i < j < |shape| && shape[i].Seen? && shape[j].Seen? ==> !RenewedBetween(shape, i, j)
  {
    hide After, Repeats;
    if i, j :| 0 <= i < j < |shape| && shape[i].Seen? && shape[j].Seen? && RenewedBetween(shape, i, j) {
      RenewalRepeats(length, shape, i, j);
    } else {
      forall notes, i, j | SameShape(shape, notes) && NotesOk(notes) && EndsInRange(length, notes) && 0 <= i < j < |notes|
        ensures !Repeats(length, notes, i, j)
      {
        NeverBetween(length, shape, notes, i, j);
      }
    }
  }

  lemma NeverBetween(length: nat, shape: seq<Note>, notes: seq<Note>, i: nat, j: nat)
    requires length > 0 && NotesOk(notes) && SameShape(shape, notes) && i < j < |notes|
    requires shape[i].Seen? && shape[j].Seen? ==> !RenewedBetween(shape, i, j)
    requires EndsInRange(length, notes)
    ensures !Repeats(length, notes, i, j)
  {
    hide After, NoteIndex;
    if notes[i].Seen? && notes[j].Seen? {
      assert forall b :: i < b < j ==> shape[b].Seen? == notes[b].Seen?;
      NoRepeat(length, notes, i, j);
    }
  }

  lemma RenewalRepeats(length: nat, shape: seq<Note>, i: nat, j: nat)
    requires length > 0 && NotesOk(shape) && i < j < |shape| && shape[i].Seen? && shape[j].Seen?
    requires RenewedBetween(shape, i, j)
    ensures !ReplayFree(length, shape)
  {
    hide After, NoteIndex;
    var notes := AllZero(shape);
    var b :| i < b < j && shape[b].Renewed?;
    var first := FirstSeen(notes, 0, i);
    var again := FirstSeen(notes, b, j);
    ZeroTaken(length, notes, first);
    assert notes[b].Renewed?;
    ZeroTaken(length, notes, again);
    ZeroAlong(length, notes, |notes|);
    assert EndsInRange(length, notes);
    assert Repeats(length, notes, first, again);
  }

  /** What an update forgets: a sequence number that was refused as a replay is let through again exactly when
      its index lies in the new window. */
  lemma RenewalForgets(w: Window, s: Word16, length: nat)
    requires length > 0 && TakeIndex(w, 0, s, false) == Again
    ensures TakeIndex(Cleared(w.index, length), 0, s, false).Taken? <==> Estimate(w.index, s).delta + length > 0
  {
    hide Estimate;
  }
}
