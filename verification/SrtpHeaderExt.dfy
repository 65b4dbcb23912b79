/** Header-extension encryption (RFC 6904): srtp_process_header_encryption of srtp.c. */
module SrtpHeaderExt {
  import opened Bytes
  import opened SrtpPacket

  /** The extension body after processing, and whether the walk reached its end. */
  datatype Walked = Walked(ok: bool, body: Octets)

  /** An element: where its data is in the body, its id, and the keystream position of its first data
      octet. */
  datatype Element = Element(at: nat, len: nat, id: Byte, ksAt: nat)

  datatype Form = OneByte | TwoByte

  function FormOf(profile: Word16): Option<Form>
  {
    if profile == ONE_BYTE then Some(OneByte)
    else if profile / 16 * 16 == TWO_BYTE then Some(TwoByte)
    else None
  }

  // ----- One element -----

  function ElementHeader(form: Form): (n: nat) ensures n > 0 { if form.OneByte? then 1 else 2 }

  /** Whether too little is left for another element. */
  predicate AtEnd(s: Octets, form: Form) { |s| < ElementHeader(form) }

  function IdOf(s: Octets, form: Form): Byte
    requires !AtEnd(s, form)
  {
    if form.OneByte? then s[0] / 16 else s[0]
  }

  function DataLen(s: Octets, form: Form): nat
    requires !AtEnd(s, form)
  {
    if form.OneByte? then s[0] % 16 + 1 else s[1]
  }

  /** The element at the front does not fit. */
  predicate Overruns(s: Octets, form: Form)
  {
    !AtEnd(s, form) && ElementHeader(form) + DataLen(s, form) > |s|
  }

  /** There is a whole element at the front and its id does not end the walk. */
  predicate Takes(s: Octets, form: Form)
  {
    !AtEnd(s, form) && !Overruns(s, form) && !(form.OneByte? && IdOf(s, form) == 15)
  }

  /** The element at the front, with `s` at `at` and the keystream at k. */
  function First(s: Octets, form: Form, at: nat, k: nat): Element
    requires Takes(s, form)
  {
    Element(at + ElementHeader(form), DataLen(s, form), IdOf(s, form), k + ElementHeader(form))
  }

  /** Header and data of the element at the front. */
  function Size(s: Octets, form: Form): (n: nat)
    requires Takes(s, form)
    ensures 0 < n <= |s| && n >= ElementHeader(form)
  {
    ElementHeader(form) + DataLen(s, form)
  }

  function LeadingZeros(s: Octets): (n: nat)
    ensures n <= |s| && (forall i :: 0 <= i < n ==> s[i] == 0) && (n < |s| ==> s[n] != 0)
  {
    if s == [] || s[0] != 0 then 0 else 1 + LeadingZeros(s[1..])
  }

  /** Where the padding after the element at the front ends. */
  function Next(s: Octets, form: Form): (n: nat)
    requires Takes(s, form)
    ensures Size(s, form) <= n <= |s|
  {
    Size(s, form) + LeadingZeros(s[Size(s, form)..])
  }

  /** The element at the front, encrypted if its id is listed, with its header as it is. */
  function Processed(s: Octets, form: Form, ids: seq<Byte>, ks: Keystream, k: nat): (r: Octets)
    requires Takes(s, form)
    ensures |r| == Size(s, form)
  {
    var e := s[..Size(s, form)];
    if IdOf(s, form) in ids then XorRange(e, ElementHeader(form), |e|, ks, k + ElementHeader(form)) else e
  }

  // ----- The walk -----

  function Walk(s: Octets, form: Form, ids: seq<Byte>, ks: Keystream, k: nat): (r: Walked)
    ensures |r.body| == |s|
    decreases |s|
  {
    if !Takes(s, form) then Walked(!Overruns(s, form), s)
    else
      var n, next := Size(s, form), Next(s, form);
      var rest := Walk(s[next..], form, ids, ks, k + n);
      Walked(rest.ok, Processed(s, form, ids, ks, k) + s[n..next] + rest.body)
  }

  /** The elements the walk meets, with `at` the place of `s` in the body. */
  function Elements(s: Octets, form: Form, at: nat, k: nat): seq<Element>
    decreases |s|
  {
    if !Takes(s, form) then []
    else
      var n, next := Size(s, form), Next(s, form);
      [First(s, form, at, k)] + Elements(s[next..], form, at + next, k + n)
  }

  lemma WalkParts(s: Octets, form: Form, ids: seq<Byte>, ks: Keystream, k: nat)
    requires Takes(s, form)
    ensures var w, n, next := Walk(s, form, ids, ks, k), Size(s, form), Next(s, form);
            var rest := Walk(s[next..], form, ids, ks, k + n);
            w.ok == rest.ok && w.body[..n] == Processed(s, form, ids, ks, k)
            && w.body[n..next] == s[n..next] && w.body[next..] == rest.body
  {
  }

  /** A body is the join of its parts. */
  lemma Parts(s: Octets, t: Octets, n: nat, next: nat)
    requires n <= next <= |s| == |t| && s[..n] == t[..n] && s[n..next] == t[n..next] && s[next..] == t[next..]
    ensures s == t
  {
    assert s == s[..n] + s[n..next] + s[next..];
    assert t == t[..n] + t[n..next] + t[next..];
  }

  lemma OneElement(s: Octets, form: Form, at: nat, k: nat)
    requires Takes(s, form)
    ensures var n, next := Size(s, form), Next(s, form);
            Elements(s, form, at, k) == [First(s, form, at, k)] + Elements(s[next..], form, at + next, k + n)
  {
  }

  lemma NoElement(s: Octets, form: Form, ids: seq<Byte>, ks: Keystream, at: nat, k: nat)
    requires !Takes(s, form)
    ensures Walk(s, form, ids, ks, k) == Walked(!Overruns(s, form), s) && Elements(s, form, at, k) == []
  {
  }

  // ----- The walk is an involution -----

  lemma ProcessedHeader(s: Octets, form: Form, ids: seq<Byte>, ks: Keystream, k: nat)
    requires Takes(s, form)
    ensures Processed(s, form, ids, ks, k)[..ElementHeader(form)] == s[..ElementHeader(form)]
  {
  }

  lemma HeaderKept(s: Octets, form: Form, ids: seq<Byte>, ks: Keystream, k: nat)
    requires !AtEnd(s, form)
    ensures Walk(s, form, ids, ks, k).body[..ElementHeader(form)] == s[..ElementHeader(form)]
  {
    var h := ElementHeader(form);
    if Takes(s, form) {
      var out, n := Walk(s, form, ids, ks, k).body, Size(s, form);
      WalkParts(s, form, ids, ks, k);
      hide Walk;
      hide Processed, Takes, Size, Next;
      assert out[..h] == out[..n][..h];
      ProcessedHeader(s, form, ids, ks, k);
    }
  }

  lemma FrontDecides(s: Octets, t: Octets, form: Form)
    requires !AtEnd(s, form) && |s| == |t| && t[..ElementHeader(form)] == s[..ElementHeader(form)]
    ensures IdOf(t, form) == IdOf(s, form) && DataLen(t, form) == DataLen(s, form)
  {
    assert s[0] == s[..ElementHeader(form)][0] && t[0] == t[..ElementHeader(form)][0];
    if form.TwoByte? { assert s[1] == s[..2][1] && t[1] == t[..2][1]; }
  }

  /** The first octet never changes. */
  lemma FirstKept(s: Octets, form: Form, ids: seq<Byte>, ks: Keystream, k: nat)
    requires s != []
    ensures Walk(s, form, ids, ks, k).body[0] == s[0]
  {
    if !AtEnd(s, form) {
      var out := Walk(s, form, ids, ks, k).body;
      HeaderKept(s, form, ids, ks, k);
      assert out[..ElementHeader(form)][0] == s[..ElementHeader(form)][0];
    }
  }

  lemma ZerosAre(s: Octets, n: nat)
    requires n <= |s| && (forall i :: 0 <= i < n ==> s[i] == 0) && (n < |s| ==> s[n] != 0)
    ensures LeadingZeros(s) == n
  {
  }

  /** Padding is found again where it was. */
  lemma PaddingKept(s: Octets, form: Form, ids: seq<Byte>, ks: Keystream, k: nat)
    requires Takes(s, form)
    ensures LeadingZeros(Walk(s, form, ids, ks, k).body[Size(s, form)..]) == Next(s, form) - Size(s, form)
  {
    var out, n, next := Walk(s, form, ids, ks, k).body, Size(s, form), Next(s, form);
    WalkParts(s, form, ids, ks, k);
    hide Walk, LeadingZeros, Processed;
    forall i | 0 <= i < next - n ensures out[n..][i] == 0 {
      assert out[n..][i] == out[n..next][i] == s[n..][i];
    }
    if next < |s| {
      FirstKept(s[next..], form, ids, ks, k + n);
      assert out[n..][next - n] == out[next..][0] == s[next..][0] == s[n..][next - n];
    }
    ZerosAre(out[n..], next - n);
  }

  lemma SameFront(s: Octets, t: Octets, form: Form, at: nat, k: nat)
    requires Takes(s, form) && |s| == |t| && t[..ElementHeader(form)] == s[..ElementHeader(form)]
    ensures Takes(t, form) && Size(t, form) == Size(s, form) && First(t, form, at, k) == First(s, form, at, k)
    ensures IdOf(t, form) == IdOf(s, form)
  {
    FrontDecides(s, t, form);
  }

  lemma ProcessedTwice(s: Octets, t: Octets, form: Form, ids: seq<Byte>, ks: Keystream, k: nat)
    requires Takes(s, form) && Takes(t, form) && |s| == |t| && Size(s, form) == Size(t, form)
    requires IdOf(s, form) == IdOf(t, form) && t[..Size(s, form)] == Processed(s, form, ids, ks, k)
    ensures Processed(t, form, ids, ks, k) == s[..Size(s, form)]
  {
    hide Takes, Size;
    if IdOf(s, form) in ids {
      XorRangeCancels(s[..Size(s, form)], ElementHeader(form), Size(s, form), ks, k + ElementHeader(form));
    }
  }

  /** The second walk meets the front as the first did. */
  lemma FrontAgain(s: Octets, form: Form, ids: seq<Byte>, ks: Keystream, at: nat, k: nat)
    requires Takes(s, form)
    ensures var out := Walk(s, form, ids, ks, k).body;
            Takes(out, form) && Size(out, form) == Size(s, form) && Next(out, form) == Next(s, form)
            && First(out, form, at, k) == First(s, form, at, k)
            && Processed(out, form, ids, ks, k) == s[..Size(s, form)]
  {
    hide Walk, Size, First, Processed, IdOf, LeadingZeros;
    var out := Walk(s, form, ids, ks, k).body;
    HeaderKept(s, form, ids, ks, k);
    SameFront(s, out, form, at, k);
    PaddingKept(s, form, ids, ks, k);
    WalkParts(s, form, ids, ks, k);
    ProcessedTwice(s, out, form, ids, ks, k);
  }

  lemma {:induction false} WalkTwice(s: Octets, form: Form, ids: seq<Byte>, ks: Keystream, k: nat)
    ensures var once := Walk(s, form, ids, ks, k); Walk(once.body, form, ids, ks, k) == Walked(once.ok, s)
    decreases |s|
  {
    hide *;
    if Takes(s, form) {
      var out, n, next := Walk(s, form, ids, ks, k).body, Size(s, form), Next(s, form);
      FrontAgain(s, form, ids, ks, 0, k);
      WalkParts(s, form, ids, ks, k);
      WalkParts(out, form, ids, ks, k);
      WalkTwice(s[next..], form, ids, ks, k + n);
      Parts(Walk(out, form, ids, ks, k).body, s, n, next);
    } else {
      NoElement(s, form, ids, ks, 0, k);
    }
  }

  lemma {:induction false} ElementsKept(s: Octets, form: Form, ids: seq<Byte>, ks: Keystream, at: nat, k: nat)
    ensures Elements(Walk(s, form, ids, ks, k).body, form, at, k) == Elements(s, form, at, k)
    decreases |s|
  {
    hide *;
    if Takes(s, form) {
      var out, n, next := Walk(s, form, ids, ks, k).body, Size(s, form), Next(s, form);
      FrontAgain(s, form, ids, ks, at, k);
      WalkParts(s, form, ids, ks, k);
      ElementsKept(s[next..], form, ids, ks, at + next, k + n);
      OneElement(s, form, at, k);
      OneElement(out, form, at, k);
    } else {
      NoElement(s, form, ids, ks, at, k);
    }
  }

  /** For every body, id list and keystream: walking it twice restores it, both walks end alike and both
      meet the same elements, so they use the same keystream octets. */
  lemma HeaderEncryptionIsInvolution(s: Octets, form: Form, ids: seq<Byte>, ks: Keystream)
    ensures var once := Walk(s, form, ids, ks, 0);
            Walk(once.body, form, ids, ks, 0) == Walked(once.ok, s)
            && Elements(once.body, form, 0, 0) == Elements(s, form, 0, 0)
  {
    WalkTwice(s, form, ids, ks, 0);
    ElementsKept(s, form, ids, ks, 0, 0);
  }

  // ----- What one run changes -----

  predicate Covers(e: Element, i: nat) { e.at <= i < e.at + e.len }

  /** The keystream octet for the octet at `pos`: only data of a listed id has one. */
  function Mask(elements: seq<Element>, ids: seq<Byte>, ks: Keystream, pos: nat): Option<Byte>
  {
    if elements == [] then None
    else if Covers(elements[0], pos) then
      if elements[0].id in ids then Some(ks(elements[0].ksAt + pos - elements[0].at)) else None
    else Mask(elements[1..], ids, ks, pos)
  }

  function Masked(b: Byte, mask: Option<Byte>): Byte
  {
    match mask
    case None => b
    case Some(m) => Xor(b, m)
  }

  /** The mask of an element, and of those after it. */
  lemma MaskParts(e: Element, rest: seq<Element>, ids: seq<Byte>, ks: Keystream, pos: nat)
    ensures Mask([e] + rest, ids, ks, pos)
         == if !Covers(e, pos) then Mask(rest, ids, ks, pos)
            else if e.id in ids then Some(ks(e.ksAt + pos - e.at))
            else None
  {
    assert ([e] + rest)[1..] == rest;
  }

  lemma FirstCovers(s: Octets, form: Form, at: nat, k: nat, pos: nat)
    requires Takes(s, form)
    ensures Covers(First(s, form, at, k), pos) <==> at + ElementHeader(form) <= pos < at + Size(s, form)
  {
  }

  lemma {:induction false} NoMaskBefore(s: Octets, form: Form, ids: seq<Byte>, ks: Keystream, at: nat, k: nat, pos: nat)
    requires pos < at
    ensures Mask(Elements(s, form, at, k), ids, ks, pos) == None
    decreases |s|
  {
    if Takes(s, form) {
      hide *;
      var n, next := Size(s, form), Next(s, form);
      NoMaskBefore(s[next..], form, ids, ks, at + next, k + n, pos);
      OneElement(s, form, at, k);
      FirstCovers(s, form, at, k, pos);
      MaskParts(First(s, form, at, k), Elements(s[next..], form, at + next, k + n), ids, ks, pos);
    }
  }

  lemma ProcessedAt(s: Octets, form: Form, ids: seq<Byte>, ks: Keystream, at: nat, k: nat, i: nat)
    requires Takes(s, form) && i < Size(s, form)
    ensures var e := First(s, form, at, k);
            Processed(s, form, ids, ks, k)[i]
            == if Covers(e, at + i) && e.id in ids then Xor(s[i], ks(e.ksAt + at + i - e.at)) else s[i]
  {
  }

  lemma FrontChange(s: Octets, form: Form, ids: seq<Byte>, ks: Keystream, at: nat, k: nat, i: nat)
    requires Takes(s, form) && i < Next(s, form)
    ensures Walk(s, form, ids, ks, k).body[i] == Masked(s[i], Mask(Elements(s, form, at, k), ids, ks, at + i))
  {
    hide Walk, Elements, Mask, First, Size, Next, Takes, Processed, Covers;
    var out, n, next := Walk(s, form, ids, ks, k).body, Size(s, form), Next(s, form);
    WalkParts(s, form, ids, ks, k);
    OneElement(s, form, at, k);
    NoMaskBefore(s[next..], form, ids, ks, at + next, k + n, at + i);
    FirstCovers(s, form, at, k, at + i);
    MaskParts(First(s, form, at, k), Elements(s[next..], form, at + next, k + n), ids, ks, at + i);
    if i < n {
      ProcessedAt(s, form, ids, ks, at, k, i);
      assert out[i] == out[..n][i];
    } else {
      assert out[i] == out[n..next][i - n] == s[n..next][i - n];
    }
  }

  lemma RestChange(s: Octets, form: Form, ids: seq<Byte>, ks: Keystream, at: nat, k: nat, i: nat)
    requires Takes(s, form) && Next(s, form) <= i < |s|
    ensures var n, next := Size(s, form), Next(s, form);
            Walk(s, form, ids, ks, k).body[i] == Walk(s[next..], form, ids, ks, k + n).body[i - next]
            && Mask(Elements(s, form, at, k), ids, ks, at + i)
               == Mask(Elements(s[next..], form, at + next, k + n), ids, ks, at + i)
  {
    hide Walk, Elements, Mask, First, Size, Next, Takes, Processed, Covers;
    var n, next := Size(s, form), Next(s, form);
    WalkParts(s, form, ids, ks, k);
    OneElement(s, form, at, k);
    FirstCovers(s, form, at, k, at + i);
    MaskParts(First(s, form, at, k), Elements(s[next..], form, at + next, k + n), ids, ks, at + i);
    assert Walk(s, form, ids, ks, k).body[i] == Walk(s, form, ids, ks, k).body[next..][i - next];
  }

  /** One run changes exactly the data octets of listed ids, each by the keystream octet of its element. */
  lemma {:induction false} WalkChanges(s: Octets, form: Form, ids: seq<Byte>, ks: Keystream, at: nat, k: nat, i: nat)
    requires i < |s|
    ensures Walk(s, form, ids, ks, k).body[i] == Masked(s[i], Mask(Elements(s, form, at, k), ids, ks, at + i))
    decreases |s|
  {
    hide Walk, Elements, First, Size, Next, Takes, Processed, Covers;
    if !Takes(s, form) {
      NoElement(s, form, ids, ks, at, k);
    } else if i < Next(s, form) {
      FrontChange(s, form, ids, ks, at, k, i);
    } else {
      var n, next := Size(s, form), Next(s, form);
      RestChange(s, form, ids, ks, at, k, i);
      hide Mask, Masked;
      WalkChanges(s[next..], form, ids, ks, at + next, k + n, i - next);
    }
  }
}
