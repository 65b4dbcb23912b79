/** Reading and writing domain names in DNS messages (mdns-discovery.cpp). */
module DnsName {
  import opened Bytes

  const DOT: Byte := 46
  const STEP_LIMIT := 64
  /** The longest label the reader takes for a label: above it the two top bits mean a pointer. */
  const LONGEST_LABEL := 191

  // ----- The reader -----

  /** A name as text and the offset reading goes on from. */
  datatype Reading = Reading(name: seq<Byte>, end: nat)

  predicate IsPointer(b: Byte) { b >= 0xC0 }

  function Target(hi: Byte, lo: Byte): nat { hi % 64 * 0x100 + lo }

  function Min(a: nat, b: nat): nat { if a < b then a else b }

  function AddLabel(name: seq<Byte>, part: seq<Byte>): seq<Byte>
  {
    (if name == [] then [] else name + [DOT]) + part
  }

  /** What the reading loop does from `offset` on, with `steps` iterations left. */
  function Follow(pkt: seq<Byte>, offset: nat, steps: nat, name: seq<Byte>): (r: Reading)
    ensures offset <= r.end <= if offset <= |pkt| then |pkt| else offset
    decreases steps
  {
    if offset >= |pkt| || steps == 0 then Reading(name, offset)
    else
      var len := pkt[offset];
      if len == 0 then Reading(name, offset + 1)
      else if IsPointer(len) then
        if offset + 1 >= |pkt| then Reading(name, offset)
        else Follow(pkt, Target(len, pkt[offset + 1]), steps - 1, name).(end := offset + 2)
      else
        var stop := Min(offset + 1 + len, |pkt|);
        Follow(pkt, stop, steps - 1, AddLabel(name, pkt[offset + 1..stop]))
  }

  function ReadName(pkt: seq<Byte>, offset: nat): (r: Reading)
    ensures offset <= r.end <= if offset <= |pkt| then |pkt| else offset
  {
    Follow(pkt, offset, STEP_LIMIT, [])
  }

  /** Terminates on every packet, reads only inside it, and neither moves the offset backwards nor past
      the end of the packet. */
  method ReadDnsName(pkt: seq<Byte>, start: nat) returns (name: seq<Byte>, offset: nat)
    ensures Reading(name, offset) == ReadName(pkt, start)
    ensures start <= offset <= if start <= |pkt| then |pkt| else start
  {
    name, offset := [], start;
    var safetyLimit := STEP_LIMIT;
    var jumped, savedOffset := false, 0;
    ghost var result := ReadName(pkt, start);
    while offset < |pkt| && safetyLimit > 0
      invariant safetyLimit >= 0
      invariant var r := Follow(pkt, offset, safetyLimit, name);
                if jumped then result == r.(end := savedOffset) else result == r
      decreases safetyLimit
    {
      safetyLimit := safetyLimit - 1;
      var len := pkt[offset];
      if len == 0 {
        if !jumped { offset := offset + 1; }
        break;
      }
      if len / 64 == 3 {
        if offset + 1 >= |pkt| { break; }
        var ptr := Target(len, pkt[offset + 1]);
        if !jumped { savedOffset, jumped := offset + 2, true; }
        offset := ptr;
        continue;
      }
      name, offset := ReadLabel(pkt, offset, name);
    }
    if jumped { offset := savedOffset; }
  }

  method ReadLabel(pkt: seq<Byte>, start: nat, before: seq<Byte>) returns (name: seq<Byte>, offset: nat)
    requires start < |pkt|
    ensures offset == Min(start + 1 + pkt[start], |pkt|)
    ensures name == AddLabel(before, pkt[start + 1..offset])
  {
    offset := start + 1;
    name := before;
    if name != [] { name := name + [DOT]; }
    ghost var prefix := name;
    var i := 0;
    while i < pkt[start] && offset < |pkt|
      invariant i <= pkt[start] && offset == start + 1 + i <= |pkt|
      invariant name == prefix + pkt[start + 1..offset]
    {
      name := name + [pkt[offset]];
      offset := offset + 1;
      i := i + 1;
    }
  }

  // ----- Section 4.1.4 of RFC 1035 -----

  /** The labels of the name at `offset`; None when it does not end within `steps` labels and pointers,
      leaves the packet, or uses a reserved label type. */
  function Meaning(pkt: seq<Byte>, offset: nat, steps: nat): Option<seq<seq<Byte>>>
    decreases steps
  {
    if offset >= |pkt| || steps == 0 then None
    else
      var len := pkt[offset];
      if len == 0 then Some([])
      else if len >= 0xC0 then
        if offset + 1 >= |pkt| then None else Meaning(pkt, Target(len, pkt[offset + 1]), steps - 1)
      else if len >= 0x40 || offset + 1 + len > |pkt| then None
      else
        match Meaning(pkt, offset + 1 + len, steps - 1)
        case None => None
        case Some(rest) => Some([pkt[offset + 1..offset + 1 + len]] + rest)
  }

  /** Labels separated by dots. */
  function Dotted(labels: seq<seq<Byte>>): seq<Byte>
  {
    if labels == [] then []
    else if |labels| == 1 then labels[0]
    else labels[0] + [DOT] + Dotted(labels[1..])
  }

  function Extend(name: seq<Byte>, labels: seq<seq<Byte>>): seq<Byte>
    decreases |labels|
  {
    if labels == [] then name else Extend(AddLabel(name, labels[0]), labels[1..])
  }

  lemma {:induction false} ExtendIsDotted(name: seq<Byte>, labels: seq<seq<Byte>>)
    requires forall l :: l in labels ==> l != []
    ensures Extend(name, labels) == if labels == [] then name else AddLabel(name, Dotted(labels))
    decreases |labels|
  {
    if labels != [] {
      assert labels[0] in labels && forall l :: l in labels[1..] ==> l in labels;
      ExtendIsDotted(AddLabel(name, labels[0]), labels[1..]);
    }
  }

  /** The reader gives every name that needs at most 64 steps its meaning. */
  lemma {:induction false} FollowMeans(pkt: seq<Byte>, offset: nat, steps: nat, name: seq<Byte>)
    requires Meaning(pkt, offset, steps).Some?
    ensures Follow(pkt, offset, steps, name).name == Extend(name, Meaning(pkt, offset, steps).value)
    ensures forall l :: l in Meaning(pkt, offset, steps).value ==> l != []
    decreases steps
  {
    var len := pkt[offset];
    if len == 0 {
    } else if len >= 0xC0 {
      FollowMeans(pkt, Target(len, pkt[offset + 1]), steps - 1, name);
    } else {
      var next, part := offset + 1 + len, pkt[offset + 1..offset + 1 + len];
      FollowMeans(pkt, next, steps - 1, AddLabel(name, part));
      var rest := Meaning(pkt, next, steps - 1).value;
      assert ([part] + rest)[1..] == rest;
    }
  }

  lemma ReadNameMeans(pkt: seq<Byte>, offset: nat)
    requires Meaning(pkt, offset, 64).Some?
    ensures ReadName(pkt, offset).name == Dotted(Meaning(pkt, offset, 64).value)
  {
    var labels := Meaning(pkt, offset, STEP_LIMIT).value;
    FollowMeans(pkt, offset, STEP_LIMIT, []);
    ExtendIsDotted([], labels);
  }

  // ----- The writer -----

  /** The first dot at or after i, or the end. */
  function DotAt(name: seq<Byte>, i: nat): (d: nat)
    requires i <= |name|
    ensures i <= d <= |name| && (d < |name| ==> name[d] == DOT) && forall n :: i <= n < d ==> name[n] != DOT
    decreases |name| - i
  {
    if i == |name| || name[i] == DOT then i else DotAt(name, i + 1)
  }

  function WriteFrom(name: seq<Byte>, start: nat): seq<Byte>
    decreases |name| + 1 - start
  {
    if start >= |name| then [0]
    else LabelFrom(name, start) + WriteFrom(name, DotAt(name, start) + 1)
  }

  /** The label at `start` with its length before it. */
  function LabelFrom(name: seq<Byte>, start: nat): seq<Byte>
    requires start <= |name|
  {
    [(DotAt(name, start) - start) % 0x100] + name[start..DotAt(name, start)]
  }

  lemma LabelAppended(out: seq<Byte>, name: seq<Byte>, start: nat)
    requires start <= |name|
    ensures out + LabelFrom(name, start) == out + [(DotAt(name, start) - start) % 0x100] + name[start..DotAt(name, start)]
  {
  }

  method WriteDnsName(buf: seq<Byte>, name: seq<Byte>) returns (out: seq<Byte>)
    ensures out == buf + WriteFrom(name, 0)
  {
    out := buf;
    var start := 0;
    hide DotAt, LabelFrom;
    while start < |name|
      invariant out + WriteFrom(name, start) == buf + WriteFrom(name, 0)
      decreases |name| + 1 - start
    {
      var dot := DotAt(name, start);
      var len := dot - start;
      ghost var before := out;
      out := out + [len % 0x100];
      out := out + name[start..dot];
      LabelAppended(before, name, start);
      start := dot + 1;
    }
    WriteEnd(name, start);
    out := out + [0];
  }

  // ----- Encoded names -----

  function LabelsWire(labels: seq<seq<Byte>>): seq<Byte>
  {
    if labels == [] then [] else [|labels[0]| % 0x100] + labels[0] + LabelsWire(labels[1..])
  }

  /** An uncompressed name. */
  function Wire(labels: seq<seq<Byte>>): seq<Byte> { LabelsWire(labels) + [0] }

  predicate LabelOk(l: seq<Byte>)
  {
    0 < |l| <= LONGEST_LABEL
  }

  predicate LabelsOk(labels: seq<seq<Byte>>)
  {
    forall i :: 0 <= i < |labels| ==> LabelOk(labels[i])
  }

  predicate NoDots(labels: seq<seq<Byte>>)
  {
    forall i :: 0 <= i < |labels| ==> DOT !in labels[i]
  }

  /** `part` stands at `at`. */
  predicate At(pkt: seq<Byte>, at: nat, part: seq<Byte>)
  {
    at + |part| <= |pkt| && pkt[at..at + |part|] == part
  }

  lemma AtSplit(pkt: seq<Byte>, at: nat, a: seq<Byte>, b: seq<Byte>)
    requires At(pkt, at, a + b)
    ensures At(pkt, at, a) && At(pkt, at + |a|, b)
  {
    assert (a + b)[..|a|] == a && (a + b)[|a|..] == b;
    assert pkt[at..at + |a|] == pkt[at..at + |a + b|][..|a|];
    assert pkt[at + |a|..at + |a| + |b|] == pkt[at..at + |a + b|][|a|..];
  }

  lemma FollowLabel(pkt: seq<Byte>, at: nat, steps: nat, name: seq<Byte>, l: seq<Byte>)
    requires LabelOk(l) && steps > 0 && At(pkt, at, [|l| % 0x100] + l)
    ensures Follow(pkt, at, steps, name) == Follow(pkt, at + 1 + |l|, steps - 1, AddLabel(name, l))
  {
    var both := [|l| % 0x100] + l;
    assert pkt[at] == pkt[at..at + |both|][0] == |l|;
    assert pkt[at + 1..at + 1 + |l|] == pkt[at..at + |both|][1..] == l;
  }

  /** Reading through whole labels. */
  lemma {:induction false} FollowLabels(pkt: seq<Byte>, at: nat, steps: nat, name: seq<Byte>, labels: seq<seq<Byte>>)
    requires LabelsOk(labels) && |labels| <= steps && At(pkt, at, LabelsWire(labels))
    ensures Follow(pkt, at, steps, name)
         == Follow(pkt, at + |LabelsWire(labels)|, steps - |labels|, Extend(name, labels))
    decreases |labels|
  {
    hide Follow, At, AddLabel, LabelOk;
    if labels != [] {
      var l, rest := labels[0], labels[1..];
      AtSplit(pkt, at, [|l| % 0x100] + l, LabelsWire(rest));
      FollowLabel(pkt, at, steps, name, l);
      FollowLabels(pkt, at + 1 + |l|, steps - 1, AddLabel(name, l), rest);
    }
  }

  /** Writing any name of non-empty labels of up to 191 bytes (63 is what RFC 1035 allows) and reading
      it back, anywhere in a packet, returns the name; and the offset lands just after it exactly when
      there are at most 63 labels. */
  lemma ReadWritten(pkt: seq<Byte>, at: nat, labels: seq<seq<Byte>>)
    requires LabelsOk(labels) && NoDots(labels) && At(pkt, at, WriteFrom(Dotted(labels), 0))
    ensures WriteFrom(Dotted(labels), 0) == Wire(labels)
    ensures |labels| <= 64 ==> ReadName(pkt, at).name == Dotted(labels)
    ensures ReadName(pkt, at).end == at + |Wire(labels)| <==> |labels| < 64
  {
    WrittenIsWire(labels);
    ReadWire(pkt, at, labels);
  }

  lemma ReadWire(pkt: seq<Byte>, at: nat, labels: seq<seq<Byte>>)
    requires LabelsOk(labels) && At(pkt, at, Wire(labels))
    ensures |labels| <= 64 ==> ReadName(pkt, at).name == Dotted(labels)
    ensures ReadName(pkt, at).end == at + |Wire(labels)| <==> |labels| < 64
  {
    hide Follow, LabelsOk, LabelsWire, Dotted, Extend;
    AtSplit(pkt, at, LabelsWire(labels), [0]);
    var zero := at + |LabelsWire(labels)|;
    assert pkt[zero] == pkt[zero..zero + 1][0] == 0;
    hide At;
    if |labels| <= STEP_LIMIT {
      FollowLabels(pkt, at, STEP_LIMIT, [], labels);
      ExtendLabels(labels);
      FollowZero(pkt, zero, STEP_LIMIT - |labels|, Dotted(labels));
    } else {
      TooManyLabels(pkt, at, STEP_LIMIT, [], labels);
    }
  }

  lemma FollowZero(pkt: seq<Byte>, at: nat, steps: nat, name: seq<Byte>)
    requires at < |pkt| && pkt[at] == 0
    ensures Follow(pkt, at, steps, name) == Reading(name, if steps == 0 then at else at + 1)
  {
  }

  lemma ExtendLabels(labels: seq<seq<Byte>>)
    requires LabelsOk(labels)
    ensures Extend([], labels) == Dotted(labels)
  {
    LabelsNotEmpty(labels);
    ExtendIsDotted([], labels);
  }

  lemma LabelsNotEmpty(labels: seq<seq<Byte>>)
    requires LabelsOk(labels)
    ensures forall l :: l in labels ==> l != []
  {
  }

  /** With more labels than steps the reader stops inside the name. */
  lemma {:induction false} TooManyLabels(pkt: seq<Byte>, at: nat, steps: nat, name: seq<Byte>, labels: seq<seq<Byte>>)
    requires LabelsOk(labels) && |labels| > steps && At(pkt, at, LabelsWire(labels))
    ensures Follow(pkt, at, steps, name).end < at + |LabelsWire(labels)|
    decreases |labels|
  {
    hide *;
    var l, rest := labels[0], labels[1..];
    TailLabelsOk(labels);
    FirstOnWire(pkt, at, labels);
    if steps == 0 {
      FollowStops(pkt, at, name);
    } else {
      FollowLabel(pkt, at, steps, name, l);
      TooManyLabels(pkt, at + 1 + |l|, steps - 1, AddLabel(name, l), rest);
    }
  }

  lemma FirstOnWire(pkt: seq<Byte>, at: nat, labels: seq<seq<Byte>>)
    requires labels != [] && At(pkt, at, LabelsWire(labels))
    ensures At(pkt, at, [|labels[0]| % 0x100] + labels[0])
    ensures At(pkt, at + 1 + |labels[0]|, LabelsWire(labels[1..]))
    ensures |LabelsWire(labels)| == 1 + |labels[0]| + |LabelsWire(labels[1..])|
  {
    AtSplit(pkt, at, [|labels[0]| % 0x100] + labels[0], LabelsWire(labels[1..]));
  }

  lemma TailLabelsOk(labels: seq<seq<Byte>>)
    requires LabelsOk(labels) && labels != []
    ensures LabelOk(labels[0]) && LabelsOk(labels[1..])
  {
  }

  lemma FollowStops(pkt: seq<Byte>, at: nat, name: seq<Byte>)
    ensures Follow(pkt, at, 0, name) == Reading(name, at)
  {
  }

  lemma {:induction false} WrittenIsWire(labels: seq<seq<Byte>>)
    requires LabelsOk(labels) && NoDots(labels)
    ensures WriteFrom(Dotted(labels), 0) == Wire(labels)
  {
    if labels != [] {
      WriteSuffix(Dotted(labels), 0, labels);
    }
  }

  lemma DotIs(name: seq<Byte>, i: nat, d: nat)
    requires i <= d <= |name| && (d < |name| ==> name[d] == DOT) && forall n :: i <= n < d ==> name[n] != DOT
    ensures DotAt(name, i) == d
  {
  }

  lemma DotFound(name: seq<Byte>, start: nat, l: seq<Byte>, after: seq<Byte>)
    requires start <= |name| && name[start..] == l + after
    requires DOT !in l && (after == [] || after[0] == DOT)
    ensures start + |l| <= |name| && DotAt(name, start) == start + |l| && name[start..start + |l|] == l
    ensures name[start + |l|..] == after
  {
    var stop := start + |l|;
    forall n | start <= n < stop ensures name[n] == l[n - start] {
      assert name[n] == name[start..][n - start];
    }
    assert stop < |name| ==> name[stop] == name[start..][|l|] == after[0];
    DotIs(name, start, stop);
  }

  function AfterFirst(labels: seq<seq<Byte>>): seq<Byte>
    requires labels != []
  {
    if |labels| == 1 then [] else [DOT] + Dotted(labels[1..])
  }

  lemma FirstDotted(labels: seq<seq<Byte>>)
    requires labels != []
    ensures Dotted(labels) == labels[0] + AfterFirst(labels)
  {
  }

  lemma WriteStep(name: seq<Byte>, start: nat, l: seq<Byte>)
    requires l != [] && start + |l| <= |name| && DotAt(name, start) == start + |l| && name[start..start + |l|] == l
    ensures WriteFrom(name, start) == [|l| % 0x100] + l + WriteFrom(name, start + |l| + 1)
  {
  }

  /** Writing the part of a name after some dot. */
  lemma {:induction false} WriteSuffix(name: seq<Byte>, start: nat, labels: seq<seq<Byte>>)
    requires LabelsOk(labels) && NoDots(labels) && labels != []
    requires start <= |name| && name[start..] == Dotted(labels)
    ensures WriteFrom(name, start) == Wire(labels)
    decreases |labels|
  {
    var l, rest := labels[0], labels[1..];
    assert LabelOk(l) && DOT !in l;
    FirstDotted(labels);
    DotFound(name, start, l, AfterFirst(labels));
    WriteStep(name, start, l);
    TailOk(labels);
    var next := start + |l| + 1;
    hide LabelsOk, NoDots, LabelOk, Dotted, WriteFrom, DotAt;
    if |labels| == 1 {
      WriteEnd(name, next);
    } else {
      assert name[next..] == name[start + |l|..][1..] == Dotted(rest);
      WriteSuffix(name, next, rest);
    }
    WireFirst(labels);
  }

  lemma WireFirst(labels: seq<seq<Byte>>)
    requires labels != []
    ensures Wire(labels) == [|labels[0]| % 0x100] + labels[0] + Wire(labels[1..])
  {
  }

  lemma WriteEnd(name: seq<Byte>, start: nat)
    requires start >= |name|
    ensures WriteFrom(name, start) == [0]
  {
  }

  lemma TailOk(labels: seq<seq<Byte>>)
    requires LabelsOk(labels) && NoDots(labels) && labels != []
    ensures LabelsOk(labels[1..]) && NoDots(labels[1..])
  {
  }
}
