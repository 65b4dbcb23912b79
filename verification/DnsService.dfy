/** From the fields of a well-formed response to what the discovery reports: PTR, SRV and A records (section 3.3.12
    and 3.4.1 of RFC 1035, RFC 2782), encoded, received and walked over. */
module DnsService {
  import opened Bytes
  import opened DnsName
  import opened DnsWalk
  import opened DnsMessage

  // ----- Records by their fields -----

  datatype Data =
    | Ptr(target: WireName)
    | Srv(priority: Word16, weight: Word16, port: Word16, target: WireName)
    | A(octets: seq<Byte>)
    | Raw(rtype: Word16, octets: seq<Byte>)

  datatype Entry = Entry(owner: WireName, rclass: Word16, ttl: Word32, data: Data)

  /** What is given as raw octets is none of the three, or too short for it. */
  predicate EntryOk(e: Entry)
  {
    NameOk(e.owner)
    && match e.data
       case Ptr(target) => NameOk(target) && |EncodeName(target)| < 0x1_0000
       case Srv(_, _, _, target) => NameOk(target) && |EncodeName(target)| + 6 < 0x1_0000
       case A(octets) => |octets| == 4
       case Raw(rtype, octets) => |octets| < 0x1_0000 && rtype != 12 && (rtype == 33 ==> |octets| < 6) && (rtype == 1 ==> |octets| != 4)
  }

  function TypeOf(d: Data): Word16
  {
    match d
    case Ptr(_) => 12
    case Srv(_, _, _, _) => 33
    case A(_) => 1
    case Raw(rtype, _) => rtype
  }

  function DataOctets(d: Data): seq<Byte>
  {
    match d
    case Ptr(target) => EncodeName(target)
    case Srv(priority, weight, port, target) => Wide(priority) + (Wide(weight) + (Wide(port) + EncodeName(target)))
    case A(octets) => octets
    case Raw(_, octets) => octets
  }

  function AsResource(e: Entry): Resource { Resource(e.owner, TypeOf(e.data), e.rclass, e.ttl, DataOctets(e.data)) }

  // ----- What a response says -----

  /** The labels a name stands for inside the message. */
  function LabelsOf(pkt: seq<Byte>, n: WireName): seq<seq<Byte>>
    requires NameOk(n) && NameMeaning(pkt, n).Some?
  {
    NameMeaning(pkt, n).value
  }

  /** Every name in the entry ends, within the reader's steps. */
  predicate Resolves(pkt: seq<Byte>, e: Entry)
    requires EntryOk(e)
  {
    NameMeaning(pkt, e.owner).Some?
    && match e.data
       case Ptr(target) => NameMeaning(pkt, target).Some?
       case Srv(_, _, _, target) => NameMeaning(pkt, target).Some?
       case _ => true
  }

  /** The service that SRV records have named so far. */
  datatype Known = Known(port: Word16, host: seq<Byte>, trusted: bool)

  /** A question for the SRV record of an instance, as a message. */
  function QuestionFor(labels: seq<seq<Byte>>): seq<Byte>
  {
    Encode(Message(0, 0, [Question(WireName(labels, None), 33, 1)], [], [], []))
  }

  /** What is sent to ask for an instance: the question for it; with a dot inside a label, which the text does not
      tell from a dot between labels, the question for the name cut at every dot. */
  function Asked(labels: seq<seq<Byte>>): seq<Byte>
  {
    if NoDots(labels) then QuestionFor(labels)
    else [0, 0, 0, 0, 0, 1, 0, 0, 0, 0, 0, 0] + WriteFrom(Dotted(labels), 0) + [0, 33, 0, 1]
  }

  predicate Contains(name: seq<Byte>, part: seq<Byte>)
  {
    exists i :: 0 <= i <= |name| && At(name, i, part)
  }

  /** What one entry adds to what is known, and what it makes the walk do. */
  function Learned(pkt: seq<Byte>, e: Entry, k: Known): Known
    requires EntryOk(e) && Resolves(pkt, e)
  {
    match e.data
    case Srv(_, _, port, target) =>
      Known(port, Dotted(LabelsOf(pkt, target)), Contains(Dotted(LabelsOf(pkt, e.owner)), SERVICE_TYPE))
    case _ => k
  }

  function Done(pkt: seq<Byte>, e: Entry, k: Known): seq<Event>
    requires EntryOk(e) && Resolves(pkt, e)
  {
    var owner := Dotted(LabelsOf(pkt, e.owner));
    match e.data
    case Ptr(target) =>
      if owner == SERVICE_TYPE && LabelsOf(pkt, target) != [] then [Query(Asked(LabelsOf(pkt, target)))] else []
    case A(octets) =>
      if owner == k.host && k.trusted && k.port > 0 then [Service(octets, owner, k.port)] else []
    case _ => []
  }

  predicate EntriesOk(pkt: seq<Byte>, entries: seq<Entry>)
  {
    forall i :: 0 <= i < |entries| ==> EntryOk(entries[i]) && Resolves(pkt, entries[i])
  }

  function Said(pkt: seq<Byte>, entries: seq<Entry>, k: Known): seq<Event>
    requires EntriesOk(pkt, entries)
    decreases |entries|
  {
    if entries == [] then []
    else Done(pkt, entries[0], k) + Said(pkt, entries[1..], Learned(pkt, entries[0], k))
  }

  // ----- One record -----

  lemma OctetsAt(pkt: seq<Byte>, at: nat, part: seq<Byte>)
    requires At(pkt, at, part)
    ensures forall i :: 0 <= i < |part| ==> pkt[at + i] == part[i]
  {
    forall i | 0 <= i < |part| ensures pkt[at + i] == part[i] {
      assert pkt[at..at + |part|][i] == pkt[at + i];
    }
  }

  lemma SrvParts(pkt: seq<Byte>, at: nat, priority: Word16, weight: Word16, port: Word16, target: WireName)
    requires At(pkt, at, DataOctets(Srv(priority, weight, port, target)))
    ensures at + 6 <= |pkt| && U16(pkt[at + 4], pkt[at + 5]) == port && At(pkt, at + 6, EncodeName(target))
  {
    hide Wide, At, EncodeName, Word;
    AtSplit(pkt, at, Wide(priority), Wide(weight) + (Wide(port) + EncodeName(target)));
    AtSplit(pkt, at + 2, Wide(weight), Wide(port) + EncodeName(target));
    AtSplit(pkt, at + 4, Wide(port), EncodeName(target));
    WordAt(pkt, at + 4, port);
    WordIs(pkt, at + 4);
  }

  lemma WordIs(pkt: seq<Byte>, at: nat)
    requires at + 2 <= |pkt|
    ensures Word(pkt, at) == U16(pkt[at], pkt[at + 1])
  {
  }

  lemma ContainsIs(name: seq<Byte>)
    ensures UnderService(name) <==> Contains(name, SERVICE_TYPE)
  {
    if Contains(name, SERVICE_TYPE) {
      var i :| 0 <= i <= |name| && At(name, i, SERVICE_TYPE);
      assert ServiceTypeAt(name, i);
    }
    if UnderService(name) {
      var i :| 0 <= i < |name| && ServiceTypeAt(name, i);
      assert At(name, i, SERVICE_TYPE);
    }
  }

  lemma {:induction false} MeaningLabels(pkt: seq<Byte>, offset: nat, steps: nat)
    requires Meaning(pkt, offset, steps).Some?
    ensures LabelsOk(Meaning(pkt, offset, steps).value)
    decreases steps
  {
    var len := pkt[offset];
    if len == 0 {
    } else if len >= 0xC0 {
      MeaningLabels(pkt, Target(len, pkt[offset + 1]), steps - 1);
    } else {
      MeaningLabels(pkt, offset + 1 + len, steps - 1);
    }
  }

  lemma NameLabels(pkt: seq<Byte>, n: WireName)
    requires NameOk(n) && NameMeaning(pkt, n).Some?
    ensures LabelsOk(LabelsOf(pkt, n))
    ensures Dotted(LabelsOf(pkt, n)) == [] <==> LabelsOf(pkt, n) == []
  {
    if n.pointer.Some? { MeaningLabels(pkt, n.pointer.value, STEP_LIMIT - |n.labels| - 1); }
    var labels := LabelsOf(pkt, n);
    if labels != [] { assert LabelOk(labels[0]); }
  }

  lemma QueryIs(labels: seq<seq<Byte>>)
    requires LabelsOk(labels)
    ensures SrvQuery(Dotted(labels)) == Asked(labels)
  {
    if NoDots(labels) {
      WrittenIsWire(labels);
      QuestionOctets(labels);
    }
    hide Dotted, WriteFrom, Wire, QuestionFor;
  }

  lemma QuestionOctets(labels: seq<seq<Byte>>)
    ensures QuestionFor(labels) == [0, 0, 0, 0, 0, 1, 0, 0, 0, 0, 0, 0] + Wire(labels) + [0, 33, 0, 1]
  {
    var q := Question(WireName(labels, None), 33, 1);
    var m := Message(0, 0, [q], [], [], []);
    assert Header(m) == [0, 0, 0, 0, 0, 1, 0, 0, 0, 0, 0, 0];
    assert EncodeQuestion(q) == Wire(labels) + [0, 33, 0, 1];
    assert EncodeQuestions([q]) == EncodeQuestion(q);
    hide Header, EncodeQuestion;
  }

  /** The name as text does not tell a dot inside a label from one between labels: with such a dot what is written is
      not the name. */
  lemma {:induction false} DotsSplit(name: seq<Byte>, start: nat, labels: seq<seq<Byte>>)
    requires start <= |name| && name[start..] == Dotted(labels) && LabelsOk(labels) && !NoDots(labels)
    ensures WriteFrom(name, start) != Wire(labels)
    decreases |labels|
  {
    hide *;
    SomeLabel(labels);
    if DOT in labels[0] {
      SplitHere(name, start, labels);
    } else {
      TailDots(labels);
      NextStarts(name, start, labels);
      DotsSplit(name, start + |labels[0]| + 1, labels[1..]);
      SplitLater(name, start, labels);
    }
  }

  lemma SplitHere(name: seq<Byte>, start: nat, labels: seq<seq<Byte>>)
    requires start <= |name| && name[start..] == Dotted(labels) && labels != [] && 0 < |labels[0]| < 0x100 && DOT in labels[0]
    ensures WriteFrom(name, start) != Wire(labels)
  {
    hide *;
    FirstDotted(labels);
    WireFirst(labels);
    DotInside(name, start, labels[0], AfterFirst(labels));
    WrittenLength(name, start);
    OtherLength(WriteFrom(name, start), DotAt(name, start) - start, labels[0], Wire(labels[1..]));
  }

  lemma NextStarts(name: seq<Byte>, start: nat, labels: seq<seq<Byte>>)
    requires start <= |name| && name[start..] == Dotted(labels) && |labels| > 1 && DOT !in labels[0]
    requires AfterFirst(labels) != [] && AfterFirst(labels)[0] == DOT
    ensures var next := start + |labels[0]|;
            next < |name| && DotAt(name, start) == next && name[start..next] == labels[0] && name[next + 1..] == Dotted(labels[1..])
  {
    hide *;
    FirstDotted(labels);
    DotFound(name, start, labels[0], AfterFirst(labels));
    AfterDot(name, start + |labels[0]|, labels);
  }

  lemma SplitLater(name: seq<Byte>, start: nat, labels: seq<seq<Byte>>)
    requires labels != [] && labels[0] != [] && start + |labels[0]| <= |name| && DotAt(name, start) == start + |labels[0]|
    requires name[start..start + |labels[0]|] == labels[0] && WriteFrom(name, start + |labels[0]| + 1) != Wire(labels[1..])
    ensures WriteFrom(name, start) != Wire(labels)
  {
    hide *;
    WireFirst(labels);
    LaterDiffers(name, start, labels[0], labels[1..]);
  }

  lemma LaterDiffers(name: seq<Byte>, start: nat, l: seq<Byte>, rest: seq<seq<Byte>>)
    requires l != [] && start + |l| <= |name| && DotAt(name, start) == start + |l| && name[start..start + |l|] == l
    requires WriteFrom(name, start + |l| + 1) != Wire(rest)
    ensures WriteFrom(name, start) != [|l| % 0x100] + l + Wire(rest)
  {
    hide *;
    WriteStep(name, start, l);
    SameFront([|l| % 0x100] + l, WriteFrom(name, start + |l| + 1), Wire(rest));
  }

  lemma OtherLength(written: seq<Byte>, length: nat, l: seq<Byte>, rest: seq<Byte>)
    requires written != [] && written[0] == length % 0x100 && length < |l| < 0x100
    ensures written != [|l| % 0x100] + l + rest
  {
    assert ([|l| % 0x100] + l + rest)[0] == |l|;
  }

  lemma SomeLabel(labels: seq<seq<Byte>>)
    requires LabelsOk(labels) && !NoDots(labels)
    ensures labels != [] && 0 < |labels[0]| < 0x100
  {
    assert LabelOk(labels[0]);
  }

  lemma TailDots(labels: seq<seq<Byte>>)
    requires labels != [] && LabelsOk(labels) && !NoDots(labels) && DOT !in labels[0]
    ensures LabelsOk(labels[1..]) && !NoDots(labels[1..]) && |labels| > 1
    ensures AfterFirst(labels) != [] && AfterFirst(labels)[0] == DOT
  {
    var d :| 0 <= d < |labels| && DOT in labels[d];
    assert DOT in labels[1..][d - 1];
  }

  lemma AfterDot(name: seq<Byte>, at: nat, labels: seq<seq<Byte>>)
    requires |labels| > 1 && at <= |name| && name[at..] == AfterFirst(labels)
    ensures at < |name| && name[at + 1..] == Dotted(labels[1..])
  {
    assert name[at + 1..] == name[at..][1..];
  }

  lemma SameFront(front: seq<Byte>, a: seq<Byte>, b: seq<Byte>)
    ensures front + a == front + b ==> a == b
  {
    assert a == (front + a)[|front|..] && b == (front + b)[|front|..];
  }

  lemma WrittenLength(name: seq<Byte>, start: nat)
    requires start < |name|
    ensures WriteFrom(name, start) != [] && WriteFrom(name, start)[0] == (DotAt(name, start) - start) % 0x100
  {
  }

  lemma DotInside(name: seq<Byte>, start: nat, l: seq<Byte>, after: seq<Byte>)
    requires start <= |name| && name[start..] == l + after && DOT in l
    ensures start < |name| && DotAt(name, start) - start < |l|
  {
    var d :| 0 <= d < |l| && l[d] == DOT;
    assert name[start + d] == name[start..][d] == DOT;
  }

  /** What is sent for an instance is the question for it exactly when none of its labels holds a dot. */
  lemma AskedIff(labels: seq<seq<Byte>>)
    requires LabelsOk(labels)
    ensures Asked(labels) == QuestionFor(labels) <==> NoDots(labels)
  {
    if !NoDots(labels) {
      var front: seq<Byte>, back: seq<Byte> := [0, 0, 0, 0, 0, 1, 0, 0, 0, 0, 0, 0], [0, 33, 0, 1];
      QuestionOctets(labels);
      var written := WriteFrom(Dotted(labels), 0);
      assert Dotted(labels)[0..] == Dotted(labels);
      DotsSplit(Dotted(labels), 0, labels);
      hide Dotted, WriteFrom, Wire, QuestionFor, LabelsOk, NoDots;
      Between(front, written, Wire(labels), back);
    }
  }

  lemma Between(front: seq<Byte>, a: seq<Byte>, b: seq<Byte>, back: seq<Byte>)
    ensures front + a + back == front + b + back ==> a == b
  {
    if front + a + back == front + b + back {
      assert |a| == |b|;
      assert a == (front + a + back)[|front|..|front| + |a|];
      assert b == (front + b + back)[|front|..|front| + |b|];
    }
  }

  /** The name at the beginning of the data. */
  lemma TargetRead(pkt: seq<Byte>, at: nat, target: WireName)
    requires NameOk(target) && NameMeaning(pkt, target).Some? && At(pkt, at, EncodeName(target))
    ensures ReadName(pkt, at).name == Dotted(LabelsOf(pkt, target))
  {
    hide *;
    NameRead(pkt, at, target);
    MeaningIs(pkt, target);
  }

  lemma MeaningIs(pkt: seq<Byte>, n: WireName)
    requires NameOk(n) && NameMeaning(pkt, n).Some?
    ensures LabelsOf(pkt, n) == NameMeaning(pkt, n).value
  {
  }

  function KnownOf(f: Findings): Known { Known(f.port, f.host, f.trusted) }

  lemma EntryApplied(pkt: seq<Byte>, stale: nat -> Byte, f: Findings, seen: Record, at: nat, e: Entry)
    requires EntryOk(e) && Resolves(pkt, e) && SeenAt(pkt, pkt, at, seen, AsResource(e))
    ensures var g := Apply(pkt, stale, f, seen);
            KnownOf(g) == Learned(pkt, e, KnownOf(f)) && g.events == f.events + Done(pkt, e, KnownOf(f))
  {
    hide ReadName, Dotted, NameMeaning, NameOk, EncodeName, SrvQuery, Asked, UnderService, Contains, At, Wide;
    MeaningIs(pkt, e.owner);
    hide LabelsOf;
    assert f.events + [] == f.events;
    match e.data {
      case Ptr(target) =>
        TargetRead(pkt, seen.rdStart, target);
        NameLabels(pkt, target);
        QueryIs(LabelsOf(pkt, target));
      case Srv(priority, weight, port, target) =>
        SrvParts(pkt, seen.rdStart, priority, weight, port, target);
        TargetRead(pkt, seen.rdStart + 6, target);
        ContainsIs(seen.owner);
      case A(octets) =>
        OctetsAt(pkt, seen.rdStart, octets);
        AtEnds(pkt, seen.rdStart, octets);
        assert Address(pkt, stale, seen) == octets;
      case Raw(_, _) =>
    }
  }

  lemma AtEnds(pkt: seq<Byte>, at: nat, part: seq<Byte>)
    requires At(pkt, at, part)
    ensures at + |part| <= |pkt|
  {
  }

  // ----- The whole response -----

  lemma {:induction false} EntriesApplied(pkt: seq<Byte>, stale: nat -> Byte, f: Findings, base: nat, seen: seq<Record>,
                                          entries: seq<Entry>, resources: seq<Resource>)
    requires EntriesOk(pkt, entries) && |seen| == |entries| == |resources| && ResourcesOk(resources)
    requires forall i :: 0 <= i < |entries| ==> resources[i] == AsResource(entries[i])
    requires SeenInOrder(pkt, pkt, base, seen, resources)
    ensures ApplyAll(pkt, stale, f, seen).events == f.events + Said(pkt, entries, KnownOf(f))
    decreases |seen|
  {
    hide Apply, Learned, Done, SeenAt, EncodeResource, AsResource, EntryOk, Resolves, NameOk;
    if seen != [] {
      var g, next := Apply(pkt, stale, f, seen[0]), base + |EncodeResource(resources[0])|;
      assert SeenAt(pkt, pkt, Start(resources, base, 0), seen[0], resources[0]);
      EntryApplied(pkt, stale, f, seen[0], base, entries[0]);
      forall i | 0 <= i < |seen| - 1
        ensures SeenAt(pkt, pkt, Start(resources[1..], next, i), seen[1..][i], resources[1..][i])
      {
        assert SeenAt(pkt, pkt, Start(resources, base, i + 1), seen[i + 1], resources[i + 1]);
      }
      EntriesApplied(pkt, stale, g, next, seen[1..], entries[1..], resources[1..]);
    } else {
      assert f.events + [] == f.events;
    }
  }

  function AsResources(entries: seq<Entry>): (rs: seq<Resource>)
    ensures |rs| == |entries| && forall i :: 0 <= i < |rs| ==> rs[i] == AsResource(entries[i])
  {
    seq(|entries|, i requires 0 <= i < |entries| => AsResource(entries[i]))
  }

  /** A response with these entries, and nothing in the authority section. */
  function Response(id: Word16, flags: Word16, questions: seq<Question>, answers: seq<Entry>, additional: seq<Entry>): Message
  {
    Message(id, flags, questions, AsResources(answers), [], AsResources(additional))
  }

  /** End to end. What is reported of a response that fits the buffer is what its PTR, SRV and A records say, field
      by field, in order: a question for each instance of the service, and the address of the host that the last
      SRV record before named, with that record's port, if it lay under the service. */
  lemma ResponseReported(os: Platform, stale: nat -> Byte, id: Word16, flags: Word16, questions: seq<Question>,
                         answers: seq<Entry>, additional: seq<Entry>)
    requires MessageOk(Response(id, flags, questions, answers, additional))
    requires |Encode(Response(id, flags, questions, answers, additional))| <= 4096
    requires EntriesOk(Encode(Response(id, flags, questions, answers, additional)), answers + additional)
    ensures var full := Encode(Response(id, flags, questions, answers, additional));
            var pkt := Received(os, full, BUFFER_SIZE);
            ApplyAll(pkt, stale, Nothing, Visited(pkt)).events == Said(full, answers + additional, Known(0, [], false))
  {
    hide *;
    var (m, entries) := (Response(id, flags, questions, answers, additional), answers + additional);
    var pkt := Encode(m);
    ResponseParts(id, flags, questions, answers, additional);
    BufferSize();
    ReceivedWhole(os, pkt);
    AllVisited(os, m);
    ResourcesFine(m);
    NothingKnown();
    EntriesApplied(pkt, stale, Nothing, Base(m), Visited(pkt), entries, AllResources(m));
    assert [] + Said(pkt, entries, Known(0, [], false)) == Said(pkt, entries, Known(0, [], false));
  }

  lemma ResponseParts(id: Word16, flags: Word16, questions: seq<Question>, answers: seq<Entry>, additional: seq<Entry>)
    ensures var (m, entries) := (Response(id, flags, questions, answers, additional), answers + additional);
            && m.authority == [] && |AllResources(m)| == |entries|
            && forall i :: 0 <= i < |entries| ==> AllResources(m)[i] == AsResource(entries[i])
  {
    hide AsResource;
  }

  lemma NothingKnown()
    ensures Nothing.events == [] && KnownOf(Nothing) == Known(0, [], false)
  {
  }

  lemma ReceivedWhole(os: Platform, d: seq<Byte>)
    requires |d| <= BUFFER_SIZE
    ensures Received(os, d, BUFFER_SIZE) == d
  {
  }

  lemma ResourcesFine(m: Message)
    requires MessageOk(m)
    ensures ResourcesOk(AllResources(m))
  {
  }

  lemma AllVisited(os: Platform, m: Message)
    requires MessageOk(m) && |Encode(m)| <= 4096 && m.authority == []
    ensures |Visited(Encode(m))| == |AllResources(m)|
    ensures SeenInOrder(Encode(m), Encode(m), Base(m), Visited(Encode(m)), AllResources(m))
  {
    hide *;
    BufferSize();
    ReceivedWhole(os, Encode(m));
    WellFormedWalk(os, m);
    if AllResources(m) != [] {
      WalkIsComplete(os, m);
      VisitedAll(os, m);
    } else {
      NoneVisited(Encode(m), m);
    }
  }

  lemma VisitedAll(os: Platform, m: Message)
    requires AllSeen(os, m)
    ensures |Visited(Received(os, Encode(m), BUFFER_SIZE))| == |AllResources(m)|
  {
  }

  lemma NoneVisited(pkt: seq<Byte>, m: Message)
    requires MessageOk(m) && AllResources(m) == [] && SeenInOrder(pkt, pkt, Base(m), Visited(pkt), AllResources(m))
    ensures |Visited(pkt)| == 0
  {
  }
}
