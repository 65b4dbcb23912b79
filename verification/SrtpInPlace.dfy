/** The packet buffer operations of srtp.c, on one array, against the functions that specify them. */
module SrtpInPlace {
  import opened Bytes
  import opened SrtpPacket
  import opened SrtpHeaderExt

  /** Only the octets from `from` up to `to` differ. */
  predicate SameOutside(was: Octets, now: Octets, from: nat, to: nat)
  {
    |was| == |now| && from <= to <= |was| && now[..from] == was[..from] && now[to..] == was[to..]
  }

  // ----- Keystream -----

  /** srtp_cipher_encrypt and srtp_cipher_decrypt of a keystream cipher. */
  method XorInPlace(buf: array<Byte>, from: nat, to: nat, ks: Keystream, k: nat)
    requires from <= to <= buf.Length
    modifies buf
    ensures buf[..] == XorRange(old(buf[..]), from, to, ks, k)
  {
    ghost var was := buf[..];
    var i := from;
    while i < to
      invariant from <= i <= to
      invariant forall j :: 0 <= j < buf.Length ==> buf[j] == if from <= j < i then Xor(was[j], ks(k + j - from)) else was[j]
    {
      buf[i] := Xor(buf[i], ks(k + i - from));
      i := i + 1;
    }
    assert buf[..] == XorRange(was, from, to, ks, k);
  }

  // ----- Header extensions -----

  method SkipZeros(buf: array<Byte>, start: nat, end: nat) returns (j: nat)
    requires start <= end <= buf.Length
    ensures start <= j <= end && j - start == LeadingZeros(buf[start..end])
  {
    j := start;
    while j < end && buf[j] == 0
      invariant start <= j <= end
      invariant forall i :: start <= i < j ==> buf[i] == 0
    {
      j := j + 1;
    }
    ZerosAre(buf[start..end], j - start);
  }

  method Listed(ids: seq<Byte>, id: Byte) returns (found: bool)
    ensures found == (id in ids)
  {
    var n := 0;
    while n < |ids|
      invariant n <= |ids| && id !in ids[..n]
    {
      if ids[n] == id { return true; }
      n := n + 1;
    }
    assert ids[..n] == ids;
    return false;
  }

  /** A slice of the buffer around the region. */
  lemma XorRangeSlice(all: Octets, from: nat, to: nat, ks: Keystream, k: nat, lo: nat, hi: nat)
    requires lo <= from <= to <= hi <= |all|
    ensures XorRange(all, from, to, ks, k)[lo..hi] == XorRange(all[lo..hi], from - lo, to - lo, ks, k)
  {
    var a, b := XorRange(all, from, to, ks, k)[lo..hi], XorRange(all[lo..hi], from - lo, to - lo, ks, k);
    hide XorRange;
    forall m | 0 <= m < hi - lo ensures a[m] == b[m] {
      assert a[m] == XorRange(all, from, to, ks, k)[lo + m];
    }
  }

  /** What stands before and after the region. */
  lemma XorRangeOutside(all: Octets, from: nat, to: nat, ks: Keystream, k: nat, lo: nat, hi: nat)
    requires lo <= from <= to <= hi <= |all|
    ensures XorRange(all, from, to, ks, k)[..lo] == all[..lo] && XorRange(all, from, to, ks, k)[hi..] == all[hi..]
  {
  }

  /** What an element does to its own octets. */
  lemma XorOfElement(s: Octets, form: Form, ids: seq<Byte>, ks: Keystream, k: nat, all: Octets, i: nat, end: nat)
    requires Takes(s, form) && IdOf(s, form) in ids
    requires i + |s| == end <= |all| && all[i..end] == s
    ensures var h, n := ElementHeader(form), Size(s, form);
            var after := XorRange(all, i + h, i + n, ks, k + h);
            after[i..i + n] == Processed(s, form, ids, ks, k) && after[..i] == all[..i] && after[i + n..] == all[i + n..]
  {
    hide *;
    var h, n := ElementHeader(form), Size(s, form);
    ProcessedListed(s, form, ids, ks, k);
    SubSlice(all, i, end, n);
    XorRangeSlice(all, i + h, i + n, ks, k + h, i, i + n);
    XorRangeOutside(all, i + h, i + n, ks, k + h, i, i + n);
  }

  lemma ProcessedListed(s: Octets, form: Form, ids: seq<Byte>, ks: Keystream, k: nat)
    requires Takes(s, form) && IdOf(s, form) in ids
    ensures var h, n := ElementHeader(form), Size(s, form);
            Processed(s, form, ids, ks, k) == XorRange(s[..n], h, n, ks, k + h)
  {
  }

  lemma SubSlice(all: Octets, i: nat, end: nat, n: nat)
    requires i + n <= end <= |all|
    ensures all[i..end][..n] == all[i..i + n] && all[i..end][n..] == all[i + n..end]
  {
  }

  /** An element that is not encrypted. */
  lemma KeptElement(s: Octets, form: Form, ids: seq<Byte>, ks: Keystream, k: nat, all: Octets, i: nat, end: nat)
    requires Takes(s, form) && IdOf(s, form) !in ids
    requires i + |s| == end <= |all| && all[i..end] == s
    ensures all[i..i + Size(s, form)] == Processed(s, form, ids, ks, k)
  {
  }

  /** No data to encrypt. */
  lemma EmptyElement(all: Octets, at: nat, ks: Keystream, k: nat)
    requires at <= |all|
    ensures XorRange(all, at, at, ks, k) == all
  {
  }

  /** The element at i is processed and nothing else is touched. */
  predicate ElementDone(was: Octets, now: Octets, i: nat, end: nat, form: Form, ids: seq<Byte>, ks: Keystream, k: nat)
    requires i <= end <= |was| && Takes(was[i..end], form)
  {
    var s := was[i..end];
    SameOutside(was, now, i, i + Size(s, form)) && now[i..i + Size(s, form)] == Processed(s, form, ids, ks, k)
  }

  lemma ElementIsDone(was: Octets, i: nat, end: nat, form: Form, ids: seq<Byte>, ks: Keystream, k: nat)
    requires i <= end <= |was| && Takes(was[i..end], form)
    ensures var s := was[i..end];
            var h, n := ElementHeader(form), Size(s, form);
            ElementDone(was, if IdOf(s, form) in ids then XorRange(was, i + h, i + n, ks, k + h) else was, i, end, form, ids, ks, k)
            && (h == n ==> XorRange(was, i + h, i + n, ks, k + h) == was)
  {
    var s := was[i..end];
    var h, n := ElementHeader(form), Size(s, form);
    hide Size, Takes, IdOf, XorRange, Processed;
    if IdOf(s, form) in ids {
      XorOfElement(s, form, ids, ks, k, was, i, end);
    } else {
      KeptElement(s, form, ids, ks, k, was, i, end);
    }
    if h == n { EmptyElement(was, i + h, ks, k + h); }
  }

  method ReadElement(buf: array<Byte>, i: nat, end: nat, form: Form) returns (xid: Byte, xlen: nat)
    requires i <= end <= buf.Length && !AtEnd(buf[..][i..end], form)
    ensures xid == IdOf(buf[..][i..end], form) && xlen == DataLen(buf[..][i..end], form)
  {
    match form
    case OneByte => xid, xlen := buf[i] / 16, buf[i] % 16 + 1;
    case TwoByte => xid, xlen := buf[i], buf[i + 1];
  }

  /** The data of one element. */
  method ProcessData(buf: array<Byte>, i: nat, end: nat, form: Form, ids: seq<Byte>, ks: Keystream, k: nat)
      returns (stop: nat)
    requires i <= end <= buf.Length && Takes(buf[..][i..end], form)
    modifies buf
    ensures stop == i + Size(old(buf[..])[i..end], form)
    ensures ElementDone(old(buf[..]), buf[..], i, end, form, ids, ks, k)
  {
    hide *;
    ghost var all := buf[..];
    WhenTaken(all[i..end], form);
    var xid, xlen := ReadElement(buf, i, end, form);
    var header := ElementHeader(form);
    stop := i + header + xlen;
    ElementIsDone(all, i, end, form, ids, ks, k);
    var listed := Listed(ids, xid);
    if xlen > 0 && listed {
      XorInPlace(buf, i + header, stop, ks, k + header);
    }
  }

  /** One element and the padding after it. */
  method ProcessElement(buf: array<Byte>, i: nat, end: nat, form: Form, ids: seq<Byte>, ks: Keystream, k: nat)
      returns (next: nat)
    requires i <= end <= buf.Length && Takes(buf[..][i..end], form)
    modifies buf
    ensures next == i + Next(old(buf[..])[i..end], form)
    ensures ElementDone(old(buf[..]), buf[..], i, end, form, ids, ks, k)
  {
    ghost var all := buf[..];
    var stop := ProcessData(buf, i, end, form, ids, ks, k);
    next := SkipZeros(buf, stop, end);
    DoneTail(all, buf[..], i, end, form, ids, ks, k);
    NextIs(all[i..end], form);
    assert buf[stop..end] == buf[..][stop..end];
  }

  lemma DoneTail(was: Octets, now: Octets, i: nat, end: nat, form: Form, ids: seq<Byte>, ks: Keystream, k: nat)
    requires i <= end <= |was| && Takes(was[i..end], form) && ElementDone(was, now, i, end, form, ids, ks, k)
    ensures var n := Size(was[i..end], form); now[i + n..end] == was[i..end][n..]
  {
    var n := Size(was[i..end], form);
    SubSlice(was, i, end, n);
    TailSlice(now, was, i + n, end);
  }

  lemma TailSlice(a: Octets, b: Octets, from: nat, to: nat)
    requires from <= to <= |a| == |b| && a[from..] == b[from..]
    ensures a[from..to] == b[from..to]
  {
    assert a[from..to] == a[from..][..to - from];
    assert b[from..to] == b[from..][..to - from];
  }

  lemma NextIs(s: Octets, form: Form)
    requires Takes(s, form)
    ensures Next(s, form) == Size(s, form) + LeadingZeros(s[Size(s, form)..])
  {
  }

  /** The buffer once the walk has gone on from i, with the keystream at k, to `end`. */
  function Finished(all: Octets, i: nat, end: nat, form: Form, ids: seq<Byte>, ks: Keystream, k: nat): (r: Walked)
    requires i <= end <= |all|
    ensures |r.body| == |all|
  {
    var w := Walk(all[i..end], form, ids, ks, k);
    Walked(w.ok, all[..i] + w.body + all[end..])
  }

  lemma AfterElement(now: Octets, after: Octets, i: nat, end: nat, form: Form, ids: seq<Byte>, ks: Keystream, k: nat)
    requires i <= end <= |now| && Takes(now[i..end], form) && ElementDone(now, after, i, end, form, ids, ks, k)
    ensures |after| == |now| && after[end..] == now[end..]
    ensures var s := now[i..end];
            var n, next := Size(s, form), Next(s, form);
            after[..i + next] == now[..i] + Processed(s, form, ids, ks, k) + s[n..next]
            && after[i + next..end] == s[next..]
  {
    var s := now[i..end];
    hide Takes, Size, Next, Processed;
    SubSlice(now, i, end, Size(s, form));
    AfterParts(now, after, s, i, end, Size(s, form), Next(s, form), Processed(s, form, ids, ks, k));
  }

  lemma AfterParts(now: Octets, after: Octets, s: Octets, i: nat, end: nat, n: nat, next: nat, p: Octets)
    requires i <= end <= |now| && s == now[i..end] && n <= next <= |s|
    requires SameOutside(now, after, i, i + n) && after[i..i + n] == p
    ensures |after| == |now| && after[end..] == now[end..]
    ensures after[..i + next] == now[..i] + p + s[n..next] && after[i + next..end] == s[next..]
  {
    SubSlice(now, i, end, n);
    TailSlice(after, now, i + n, end);
    var rest := after[i + n..end];
    assert after[..i + next] == after[..i] + after[i..i + n] + rest[..next - n];
    assert after[i + next..end] == rest[next - n..];
    assert after[end..] == after[i + n..][end - i - n..] == now[i + n..][end - i - n..];
  }

  lemma FiveParts(a: Octets, b: Octets, c: Octets, d: Octets, e: Octets)
    ensures a + (b + c + d) + e == (a + b + c) + d + e
  {
  }

  /** Processing an element leaves less to walk and the same result. */
  lemma WalkGoesOn(now: Octets, after: Octets, i: nat, end: nat, form: Form, ids: seq<Byte>, ks: Keystream, k: nat)
    requires i <= end <= |now| && Takes(now[i..end], form) && ElementDone(now, after, i, end, form, ids, ks, k)
    ensures var n, next := Size(now[i..end], form), Next(now[i..end], form);
            |after| == |now| && i + next <= end
            && Finished(after, i + next, end, form, ids, ks, k + n) == Finished(now, i, end, form, ids, ks, k)
  {
    hide *;
    var s := now[i..end];
    NextInside(s, form);
    var n, next := Size(s, form), Next(s, form);
    AfterElement(now, after, i, end, form, ids, ks, k);
    WalkJoins(s, form, ids, ks, k);
    FinishedIs(now, i, end, form, ids, ks, k);
    FinishedIs(after, i + next, end, form, ids, ks, k + n);
    FiveParts(now[..i], Processed(s, form, ids, ks, k), s[n..next], Walk(s[next..], form, ids, ks, k + n).body, now[end..]);
  }

  lemma NextInside(s: Octets, form: Form)
    requires Takes(s, form)
    ensures 0 < Size(s, form) <= Next(s, form) <= |s|
  {
  }

  lemma FinishedIs(all: Octets, i: nat, end: nat, form: Form, ids: seq<Byte>, ks: Keystream, k: nat)
    requires i <= end <= |all|
    ensures var w := Walk(all[i..end], form, ids, ks, k);
            Finished(all, i, end, form, ids, ks, k) == Walked(w.ok, all[..i] + w.body + all[end..])
  {
  }

  lemma WalkJoins(s: Octets, form: Form, ids: seq<Byte>, ks: Keystream, k: nat)
    requires Takes(s, form)
    ensures var n, next := Size(s, form), Next(s, form);
            var rest := Walk(s[next..], form, ids, ks, k + n);
            Walk(s, form, ids, ks, k) == Walked(rest.ok, Processed(s, form, ids, ks, k) + s[n..next] + rest.body)
  {
  }

  lemma WalkEnds(now: Octets, i: nat, end: nat, form: Form, ids: seq<Byte>, ks: Keystream, k: nat)
    requires i <= end <= |now| && !Takes(now[i..end], form)
    ensures Finished(now, i, end, form, ids, ks, k) == Walked(!Overruns(now[i..end], form), now)
  {
    NoElement(now[i..end], form, ids, ks, 0, k);
    hide Walk, Takes, Overruns;
  }

  datatype Turn = Taken(next: nat, used: nat) | Halted(ok: bool)

  /** The body of the element loop. */
  method TakeElement(buf: array<Byte>, i: nat, end: nat, form: Form, ids: seq<Byte>, ks: Keystream, k: nat)
      returns (turn: Turn)
    requires i + ElementHeader(form) <= end <= buf.Length
    modifies buf
    ensures turn.Halted? ==> Walked(turn.ok, buf[..]) == Finished(old(buf[..]), i, end, form, ids, ks, k)
    ensures turn.Taken? ==> i < turn.next <= end
    ensures turn.Taken? ==> Finished(buf[..], turn.next, end, form, ids, ks, k + turn.used)
                            == Finished(old(buf[..]), i, end, form, ids, ks, k)
  {
    hide *;
    ghost var now := buf[..];
    WhenTaken(now[i..end], form);
    var xid, xlen := ReadElement(buf, i, end, form);
    if i + ElementHeader(form) + xlen > end {
      WalkEnds(now, i, end, form, ids, ks, k);
      return Halted(false);
    }
    if form.OneByte? && xid == 15 {
      WalkEnds(now, i, end, form, ids, ks, k);
      return Halted(true);
    }
    NextInside(now[i..end], form);
    var next := ProcessElement(buf, i, end, form, ids, ks, k);
    WalkGoesOn(now, buf[..], i, end, form, ids, ks, k);
    return Taken(next, ElementHeader(form) + xlen);
  }

  /** The element loop. */
  method WalkInPlace(buf: array<Byte>, at: nat, end: nat, form: Form, ids: seq<Byte>, ks: Keystream) returns (ok: bool)
    requires at <= end <= buf.Length
    modifies buf
    ensures Walked(ok, buf[..]) == Finished(old(buf[..]), at, end, form, ids, ks, 0)
  {
    ghost var result := Finished(buf[..], at, end, form, ids, ks, 0);
    hide *;
    var i: nat, k: nat := at, 0;
    while i + ElementHeader(form) <= end
      invariant at <= i <= end
      invariant Finished(buf[..], i, end, form, ids, ks, k) == result
      decreases end - i
    {
      var turn := TakeElement(buf, i, end, form, ids, ks, k);
      if turn.Halted? { return turn.ok; }
      i, k := turn.next, k + turn.used;
    }
    WhenTaken(buf[..][i..end], form);
    WalkEnds(buf[..], i, end, form, ids, ks, k);
    return true;
  }

  lemma WhenTaken(s: Octets, form: Form)
    ensures AtEnd(s, form) <==> |s| < ElementHeader(form)
    ensures AtEnd(s, form) ==> !Takes(s, form) && !Overruns(s, form)
    ensures !AtEnd(s, form) ==> (Overruns(s, form) <==> ElementHeader(form) + DataLen(s, form) > |s|)
    ensures Overruns(s, form) ==> !Takes(s, form)
    ensures !AtEnd(s, form) ==> (Takes(s, form) <==> !Overruns(s, form) && !(form.OneByte? && IdOf(s, form) == 15))
    ensures Takes(s, form) ==> Size(s, form) == ElementHeader(form) + DataLen(s, form) && Next(s, form) > 0
  {
  }
}
