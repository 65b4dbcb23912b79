/** Header extensions built from their elements (sections 4.2 and 4.3 of RFC 8285): which octets of them RFC 6904
    encryption changes. */
module SrtpExtension {
  import opened Bytes
  import opened SrtpPacket
  import opened SrtpHeaderExt

  /** An element and the zeros that follow it. */
  datatype Item = Item(id: Byte, data: Octets, pad: nat)

  predicate ItemOk(form: Form, it: Item)
  {
    match form
    case OneByte => 1 <= it.id <= 14 && 1 <= |it.data| <= 16
    case TwoByte => 1 <= it.id && |it.data| < 0x100
  }

  predicate ItemsOk(form: Form, items: seq<Item>) { forall n :: 0 <= n < |items| ==> ItemOk(form, items[n]) }

  /** Id and length: in one octet, the length less one, or in two. */
  function ItemHeader(form: Form, it: Item): (h: Octets)
    requires ItemOk(form, it)
    ensures |h| == if form.OneByte? then 1 else 2
  {
    match form
    case OneByte => [16 * it.id + (|it.data| - 1)]
    case TwoByte => [it.id, |it.data|]
  }

  function Padding(n: nat): Octets { seq(n, _ => 0) }

  function EncodeItem(form: Form, it: Item): Octets
    requires ItemOk(form, it)
  {
    ItemHeader(form, it) + it.data + Padding(it.pad)
  }

  function Encode(form: Form, items: seq<Item>): Octets
    requires ItemsOk(form, items)
  {
    if items == [] then [] else EncodeItem(form, items[0]) + Encode(form, items[1..])
  }

  function WithStream(data: Octets, ks: Keystream, k: nat): (r: Octets)
    ensures |r| == |data| && forall i :: 0 <= i < |data| ==> r[i] == Xor(data[i], ks(k + i))
  {
    seq(|data|, i requires 0 <= i < |data| => Xor(data[i], ks(k + i)))
  }

  function EncryptItem(it: Item, ids: seq<Byte>, ks: Keystream, at: nat): Item
  {
    if it.id in ids then it.(data := WithStream(it.data, ks, at)) else it
  }

  /** The data of listed ids encrypted; the keystream runs on over headers and data, not over padding. */
  function EncryptItems(form: Form, items: seq<Item>, ids: seq<Byte>, ks: Keystream, k: nat): (r: seq<Item>)
    requires ItemsOk(form, items)
    ensures |r| == |items| && ItemsOk(form, r)
  {
    if items == [] then []
    else
      var it := items[0];
      var at := k + if form.OneByte? then 1 else 2;
      [EncryptItem(it, ids, ks, at)] + EncryptItems(form, items[1..], ids, ks, at + |it.data|)
  }

  lemma {:induction false} FirstOctet(form: Form, items: seq<Item>)
    requires ItemsOk(form, items) && items != []
    ensures Encode(form, items) != [] && Encode(form, items)[0] != 0
  {
    assert ItemOk(form, items[0]);
  }

  lemma Front(form: Form, it: Item, rest: Octets)
    requires ItemOk(form, it) && (rest != [] ==> rest[0] != 0)
    ensures var s := EncodeItem(form, it) + rest;
            && Takes(s, form) && IdOf(s, form) == it.id && ElementHeader(form) == |ItemHeader(form, it)|
            && Size(s, form) == |ItemHeader(form, it)| + |it.data| && Next(s, form) == Size(s, form) + it.pad
  {
    var s := EncodeItem(form, it) + rest;
    var n := |ItemHeader(form, it)| + |it.data|;
    assert s[0] == ItemHeader(form, it)[0];
    assert form.TwoByte? ==> s[1] == ItemHeader(form, it)[1];
    assert s[n..] == Padding(it.pad) + rest;
    ZerosAre(s[n..], it.pad);
    hide LeadingZeros, Padding;
  }

  lemma FrontProcessed(form: Form, it: Item, rest: Octets, ids: seq<Byte>, ks: Keystream, k: nat)
    requires ItemOk(form, it) && (rest != [] ==> rest[0] != 0)
    ensures var (s, h) := (EncodeItem(form, it) + rest, ItemHeader(form, it));
            Takes(s, form)
            && Processed(s, form, ids, ks, k)
               == h + if it.id in ids then WithStream(it.data, ks, k + |h|) else it.data
  {
    var (s, h) := (EncodeItem(form, it) + rest, ItemHeader(form, it));
    Front(form, it, rest);
    assert s[..|h| + |it.data|] == h + it.data;
    hide Takes, Size, Next, IdOf, ElementHeader, ItemHeader;
  }

  lemma FrontWalked(form: Form, it: Item, rest: Octets, ids: seq<Byte>, ks: Keystream, k: nat)
    requires ItemOk(form, it) && (rest != [] ==> rest[0] != 0)
    ensures var at := k + if form.OneByte? then 1 else 2;
            var (w, tail) := (Walk(EncodeItem(form, it) + rest, form, ids, ks, k), Walk(rest, form, ids, ks, at + |it.data|));
            var after := EncryptItem(it, ids, ks, at);
            w.ok == tail.ok && ItemOk(form, after) && w.body == EncodeItem(form, after) + tail.body
  {
    hide *;
    var s, h := EncodeItem(form, it) + rest, ItemHeader(form, it);
    var after := EncryptItem(it, ids, ks, k + |h|);
    Front(form, it, rest);
    FrontProcessed(form, it, rest, ids, ks, k);
    SamePlace(form, it, rest);
    ItemAfter(it, ids, ks, k + |h|);
    EncodedAfter(form, it, after);
    WalkParts(s, form, ids, ks, k);
    var w, n, next := Walk(s, form, ids, ks, k).body, Size(s, form), Next(s, form);
    assert w == w[..n] + w[n..next] + w[next..];
  }

  lemma ItemAfter(it: Item, ids: seq<Byte>, ks: Keystream, at: nat)
    ensures var after := EncryptItem(it, ids, ks, at);
            && after.id == it.id && after.pad == it.pad && |after.data| == |it.data|
            && after.data == if it.id in ids then WithStream(it.data, ks, at) else it.data
  {
  }

  lemma SamePlace(form: Form, it: Item, rest: Octets)
    requires ItemOk(form, it)
    ensures var (s, n) := (EncodeItem(form, it) + rest, |ItemHeader(form, it)| + |it.data|);
            && n + it.pad <= |s| && s[n..n + it.pad] == Padding(it.pad) && s[n + it.pad..] == rest
  {
    hide ItemHeader, Padding;
    assert |Padding(it.pad)| == it.pad by { LengthOfPadding(it.pad); }
  }

  lemma LengthOfPadding(n: nat)
    ensures |Padding(n)| == n
  {
  }

  lemma EncodedAfter(form: Form, it: Item, after: Item)
    requires ItemOk(form, it) && after.id == it.id && |after.data| == |it.data| && after.pad == it.pad
    ensures ItemOk(form, after) && EncodeItem(form, after) == ItemHeader(form, it) + after.data + Padding(it.pad)
  {
  }

  /** Encryption of an extension made of elements changes the data of those that are listed and nothing else. */
  lemma {:induction false} ElementsEncrypted(form: Form, items: seq<Item>, ids: seq<Byte>, ks: Keystream, k: nat)
    requires ItemsOk(form, items)
    ensures Walk(Encode(form, items), form, ids, ks, k)
         == Walked(true, Encode(form, EncryptItems(form, items, ids, ks, k)))
  {
    hide *;
    if items == [] {
      NothingEncrypted(form, items, ids, ks, k);
    } else {
      var it, rest := items[0], items[1..];
      var at := k + if form.OneByte? then 1 else 2;
      FirstOk(form, items);
      EncodeParts(form, items);
      EncryptParts(form, items, ids, ks, k);
      EncodeParts(form, rest);
      if rest != [] { FirstOctet(form, rest); }
      FrontWalked(form, it, Encode(form, rest), ids, ks, k);
      ElementsEncrypted(form, rest, ids, ks, at + |it.data|);
      EncodeParts(form, EncryptItems(form, items, ids, ks, k));
    }
  }

  lemma NothingEncrypted(form: Form, items: seq<Item>, ids: seq<Byte>, ks: Keystream, k: nat)
    requires items == [] && ItemsOk(form, items)
    ensures Walk(Encode(form, items), form, ids, ks, k) == Walked(true, Encode(form, EncryptItems(form, items, ids, ks, k)))
  {
  }

  lemma FirstOk(form: Form, items: seq<Item>)
    requires ItemsOk(form, items) && items != []
    ensures ItemOk(form, items[0]) && ItemsOk(form, items[1..])
  {
  }

  lemma EncodeParts(form: Form, items: seq<Item>)
    requires ItemsOk(form, items)
    ensures items == [] ==> Encode(form, items) == []
    ensures items != [] ==> ItemOk(form, items[0]) && ItemsOk(form, items[1..])
                            && Encode(form, items) == EncodeItem(form, items[0]) + Encode(form, items[1..])
  {
  }

  lemma EncryptParts(form: Form, items: seq<Item>, ids: seq<Byte>, ks: Keystream, k: nat)
    requires ItemsOk(form, items) && items != [] && ItemsOk(form, items[1..])
    ensures var (at, it) := (k + if form.OneByte? then 1 else 2, items[0]);
            var r := EncryptItems(form, items, ids, ks, k);
            |r| > 0 && r[0] == EncryptItem(it, ids, ks, at) && r[1..] == EncryptItems(form, items[1..], ids, ks, at + |it.data|)
  {
    hide EncryptItem;
  }

  /** In the one-byte form an element with id 15 ends the extension: it and what follows stay as they are. */
  lemma ReservedIdEnds(tail: Octets, ids: seq<Byte>, ks: Keystream, k: nat)
    requires tail != [] && tail[0] >= 0xF0
    ensures Walk(tail, OneByte, ids, ks, k).body == tail
    ensures Walk(tail, OneByte, ids, ks, k).ok <==> 1 + (tail[0] - 0xF0 + 1) <= |tail|
  {
  }

  /** An element that is longer than the rest of the extension is an error. */
  lemma OverrunFails(form: Form, it: Item, cut: Octets, ids: seq<Byte>, ks: Keystream, k: nat)
    requires ItemOk(form, it) && |cut| < |it.data|
    ensures !Walk(ItemHeader(form, it) + cut, form, ids, ks, k).ok
  {
    hide Walk, Elements;
    var s, h := ItemHeader(form, it) + cut, ItemHeader(form, it);
    assert s[0] == h[0];
    assert form.TwoByte? ==> s[1] == h[1];
    assert Overruns(s, form);
    NoElement(s, form, ids, ks, 0, k);
  }
}
