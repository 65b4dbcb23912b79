/** Well-formed responses: which of their records the walk visits, and as what. */
module DnsMessage {
  import opened Bytes
  import opened DnsName
  import opened DnsWalk

  // ----- Well-formed messages (sections 4.1.1 to 4.1.4 of RFC 1035) -----

  /** Labels, then the root or a pointer. */
  datatype WireName = WireName(labels: seq<seq<Byte>>, pointer: Option<nat>)

  datatype Question = Question(name: WireName, qtype: Word16, qclass: Word16)

  datatype Resource = Resource(name: WireName, rtype: Word16, rclass: Word16, ttl: Word32, rdata: seq<Byte>)

  datatype Message = Message(id: Word16, flags: Word16, questions: seq<Question>,
                             answers: seq<Resource>, authority: seq<Resource>, additional: seq<Resource>)

  /** Fewer than 64 labels, each as long as the reader takes. */
  predicate NameOk(n: WireName)
  {
    LabelsOk(n.labels) && |n.labels| < STEP_LIMIT && (n.pointer.Some? ==> n.pointer.value < 0x4000)
  }

  predicate QuestionsOk(questions: seq<Question>) { forall i :: 0 <= i < |questions| ==> NameOk(questions[i].name) }

  predicate ResourceOk(r: Resource) { NameOk(r.name) && |r.rdata| < 0x1_0000 }

  predicate ResourcesOk(resources: seq<Resource>)
  {
    forall i :: 0 <= i < |resources| ==> ResourceOk(resources[i])
  }

  function AllResources(m: Message): seq<Resource> { m.answers + m.authority + m.additional }

  /** The counts fit their header fields and every entry can be encoded. */
  predicate MessageOk(m: Message)
  {
    |m.questions| < 0x1_0000 && |m.answers| < 0x1_0000 && |m.authority| < 0x1_0000 && |m.additional| < 0x1_0000
    && m.flags >= 0x8000 && QuestionsOk(m.questions) && ResourcesOk(AllResources(m))
  }

  function Wide(n: nat): (w: seq<Byte>) ensures |w| == 2 { [n / 0x100 % 0x100, n % 0x100] }

  function NameTail(pointer: Option<nat>): seq<Byte>
  {
    match pointer
    case None => [0]
    case Some(p) => [0xC0 + p / 0x100 % 0x40, p % 0x100]
  }

  function EncodeName(n: WireName): seq<Byte> { LabelsWire(n.labels) + NameTail(n.pointer) }

  function EncodeQuestion(q: Question): seq<Byte> { EncodeName(q.name) + (Wide(q.qtype) + Wide(q.qclass)) }

  function EncodeQuestions(questions: seq<Question>): seq<Byte>
  {
    if questions == [] then [] else EncodeQuestion(questions[0]) + EncodeQuestions(questions[1..])
  }

  function Fixed(r: Resource): (f: seq<Byte>)
    ensures |f| == 10
  {
    Wide(r.rtype) + Wide(r.rclass) + ToBE32(r.ttl) + Wide(|r.rdata|)
  }

  function EncodeResource(r: Resource): seq<Byte> { EncodeName(r.name) + (Fixed(r) + r.rdata) }

  function EncodeResources(resources: seq<Resource>): seq<Byte>
  {
    if resources == [] then [] else EncodeResource(resources[0]) + EncodeResources(resources[1..])
  }

  function Header(m: Message): (h: seq<Byte>)
    ensures |h| == HEADER_SIZE
  {
    Wide(m.id) + Wide(m.flags) + Wide(|m.questions|) + Wide(|m.answers|) + Wide(|m.authority|) + Wide(|m.additional|)
  }

  function Encode(m: Message): seq<Byte>
  {
    Header(m) + (EncodeQuestions(m.questions) + EncodeResources(AllResources(m)))
  }

  // ----- Names inside messages -----

  /** The labels an encoded name stands for: its own, then those of the name its pointer leads to, all
      within the reader's 64 steps. */
  function NameMeaning(pkt: seq<Byte>, n: WireName): Option<seq<seq<Byte>>>
    requires NameOk(n)
  {
    match n.pointer
    case None => Some(n.labels)
    case Some(p) =>
      match Meaning(pkt, p, STEP_LIMIT - |n.labels| - 1)
      case None => None
      case Some(rest) => Some(n.labels + rest)
  }

  /** Whatever a pointer leads to, reading goes on just after the encoded name; and the text is that of
      the labels the name stands for. */
  lemma NameRead(pkt: seq<Byte>, at: nat, n: WireName)
    requires NameOk(n) && At(pkt, at, EncodeName(n))
    ensures ReadName(pkt, at).end == at + |EncodeName(n)|
    ensures NameMeaning(pkt, n).Some? ==> ReadName(pkt, at).name == Dotted(NameMeaning(pkt, n).value)
  {
    hide LabelsWire, LabelsOk, Follow, NameTail, Extend, At, NameMeaning, Dotted;
    var stop := at + |LabelsWire(n.labels)|;
    AtSplit(pkt, at, LabelsWire(n.labels), NameTail(n.pointer));
    FollowLabels(pkt, at, STEP_LIMIT, [], n.labels);
    TailRead(pkt, stop, STEP_LIMIT - |n.labels|, Extend([], n.labels), n.pointer);
    if NameMeaning(pkt, n).Some? {
      NameText(pkt, stop, n);
    }
  }

  lemma TailRead(pkt: seq<Byte>, at: nat, steps: nat, name: seq<Byte>, pointer: Option<nat>)
    requires steps > 0 && At(pkt, at, NameTail(pointer))
    ensures Follow(pkt, at, steps, name).end == at + |NameTail(pointer)|
    ensures pointer.None? ==> Follow(pkt, at, steps, name).name == name
    ensures pointer.Some? && pointer.value < 0x4000 ==>
              Follow(pkt, at, steps, name).name == Follow(pkt, pointer.value, steps - 1, name).name
  {
    assert pkt[at] == pkt[at..at + |NameTail(pointer)|][0];
    if pointer.Some? && pointer.value < 0x4000 {
      assert pkt[at + 1] == pkt[at..at + |NameTail(pointer)|][1];
      PointerTarget(pointer.value);
    }
  }

  lemma PointerTarget(p: nat)
    requires p < 0x4000
    ensures Target(0xC0 + p / 0x100 % 0x40, p % 0x100) == p
  {
  }

  lemma NameText(pkt: seq<Byte>, stop: nat, n: WireName)
    requires NameOk(n) && At(pkt, stop, NameTail(n.pointer)) && NameMeaning(pkt, n).Some?
    ensures Follow(pkt, stop, STEP_LIMIT - |n.labels|, Extend([], n.labels)).name == Dotted(NameMeaning(pkt, n).value)
  {
    hide Follow, At, NameTail, Extend, Dotted, LabelsOk;
    TailRead(pkt, stop, STEP_LIMIT - |n.labels|, Extend([], n.labels), n.pointer);
    LabelsNotEmpty(n.labels);
    if n.pointer.None? {
      ExtendLabels(n.labels);
    } else {
      var steps := STEP_LIMIT - |n.labels| - 1;
      var rest := Meaning(pkt, n.pointer.value, steps).value;
      FollowMeans(pkt, n.pointer.value, steps, Extend([], n.labels));
      ExtendAppend([], n.labels, rest);
      ExtendIsDotted([], n.labels + rest);
      NoLabelsText();
    }
  }

  lemma NoLabelsText()
    ensures Dotted([]) == []
    ensures forall name: seq<Byte> :: AddLabel([], name) == name
  {
  }

  lemma {:induction false} ExtendAppend(name: seq<Byte>, a: seq<seq<Byte>>, b: seq<seq<Byte>>)
    ensures Extend(Extend(name, a), b) == Extend(name, a + b)
    decreases |a|
  {
    if a == [] {
      assert a + b == b;
    } else {
      ExtendAppend(AddLabel(name, a[0]), a[1..], b);
      assert (a + b)[1..] == a[1..] + b;
    }
  }

  /** Labels before a pointer go in front of the name it leads to. */
  lemma {:induction false} MeaningOfLabels(pkt: seq<Byte>, at: nat, steps: nat, labels: seq<seq<Byte>>)
    requires |labels| <= steps && At(pkt, at, LabelsWire(labels))
    requires forall i :: 0 <= i < |labels| ==> 0 < |labels[i]| < 0x40
    ensures var rest := Meaning(pkt, at + |LabelsWire(labels)|, steps - |labels|);
            Meaning(pkt, at, steps) == if rest.None? then None else Some(labels + rest.value)
    decreases |labels|
  {
    hide At, Meaning, LabelsWire;
    var rest := Meaning(pkt, at + |LabelsWire(labels)|, steps - |labels|);
    if labels == [] {
      NoLabels();
      assert rest.Some? ==> [] + rest.value == rest.value;
    } else {
      var l := labels[0];
      FirstOnWire(pkt, at, labels);
      MeaningOfLabel(pkt, at, steps, l);
      MeaningOfLabels(pkt, at + 1 + |l|, steps - 1, labels[1..]);
      assert rest.Some? ==> [l] + (labels[1..] + rest.value) == labels + rest.value;
    }
  }

  lemma NoLabels()
    ensures LabelsWire([]) == []
  {
  }

  lemma MeaningOfLabel(pkt: seq<Byte>, at: nat, steps: nat, l: seq<Byte>)
    requires 0 < |l| < 0x40 && steps > 0 && At(pkt, at, [|l| % 0x100] + l)
    ensures var rest := Meaning(pkt, at + 1 + |l|, steps - 1);
            Meaning(pkt, at, steps) == if rest.None? then None else Some([l] + rest.value)
  {
    var both := [|l| % 0x100] + l;
    assert pkt[at] == pkt[at..at + |both|][0] == |l|;
    assert pkt[at + 1..at + 1 + |l|] == pkt[at..at + |both|][1..] == l;
  }

  /** For labels of the lengths RFC 1035 allows this is what the encoded name means. */
  lemma NameMeans(pkt: seq<Byte>, at: nat, n: WireName)
    requires NameOk(n) && At(pkt, at, EncodeName(n))
    requires forall i :: 0 <= i < |n.labels| ==> |n.labels[i]| < 0x40
    ensures Meaning(pkt, at, STEP_LIMIT) == NameMeaning(pkt, n)
  {
    hide LabelsWire, LabelOk, Meaning, At, NameTail;
    ShortLabels(n.labels);
    AtSplit(pkt, at, LabelsWire(n.labels), NameTail(n.pointer));
    MeaningOfLabels(pkt, at, STEP_LIMIT, n.labels);
    TailMeans(pkt, at + |LabelsWire(n.labels)|, STEP_LIMIT - |n.labels|, n.pointer);
    assert n.labels + [] == n.labels;
  }

  lemma ShortLabels(labels: seq<seq<Byte>>)
    requires LabelsOk(labels) && forall i :: 0 <= i < |labels| ==> |labels[i]| < 0x40
    ensures forall i :: 0 <= i < |labels| ==> 0 < |labels[i]| < 0x40
  {
    assert forall i :: 0 <= i < |labels| ==> LabelOk(labels[i]);
  }

  lemma TailMeans(pkt: seq<Byte>, at: nat, steps: nat, pointer: Option<nat>)
    requires steps > 0 && At(pkt, at, NameTail(pointer)) && (pointer.Some? ==> pointer.value < 0x4000)
    ensures Meaning(pkt, at, steps) == if pointer.None? then Some([]) else Meaning(pkt, pointer.value, steps - 1)
  {
    assert pkt[at] == pkt[at..at + |NameTail(pointer)|][0];
    if pointer.Some? {
      assert pkt[at + 1] == pkt[at..at + |NameTail(pointer)|][1];
      PointerTarget(pointer.value);
    }
  }

  // ----- What is cut off -----

  /** The first octets of a message. */
  predicate Prefix(pkt: seq<Byte>, full: seq<Byte>)
  {
    |pkt| <= |full| && pkt == full[..|pkt|]
  }

  lemma PrefixAt(pkt: seq<Byte>, full: seq<Byte>, at: nat, part: seq<Byte>)
    requires Prefix(pkt, full) && at + |part| <= |pkt|
    ensures At(pkt, at, part) <==> At(full, at, part)
  {
  }

  /** Reading a name that is cut off ends where the message ends, or in front of half a pointer. */
  lemma {:induction false} CutName(pkt: seq<Byte>, full: seq<Byte>, at: nat, steps: nat, name: seq<Byte>, n: WireName)
    requires LabelsOk(n.labels) && |n.labels| < steps && Prefix(pkt, full)
    requires At(full, at, EncodeName(n)) && |pkt| < at + |EncodeName(n)|
    ensures Follow(pkt, at, steps, name).end >= |pkt| - 1
    decreases |n.labels|
  {
    hide Follow, At, LabelsOk, Prefix;
    if n.labels == [] {
      CutTail(pkt, full, at, steps, name, n.pointer);
    } else {
      var l, rest := n.labels[0], WireName(n.labels[1..], n.pointer);
      EncodedFirst(full, at, n);
      TailLabelsOk(n.labels);
      CutLabel(pkt, full, at, steps, name, l);
      if at + 1 + |l| < |pkt| {
        CutName(pkt, full, at + 1 + |l|, steps - 1, AddLabel(name, l), rest);
      }
    }
  }

  lemma EncodedFirst(pkt: seq<Byte>, at: nat, n: WireName)
    requires n.labels != [] && At(pkt, at, EncodeName(n))
    ensures At(pkt, at, [|n.labels[0]| % 0x100] + n.labels[0])
    ensures At(pkt, at + 1 + |n.labels[0]|, EncodeName(WireName(n.labels[1..], n.pointer)))
    ensures |EncodeName(n)| == 1 + |n.labels[0]| + |EncodeName(WireName(n.labels[1..], n.pointer))|
  {
    var first, rest := [|n.labels[0]| % 0x100] + n.labels[0], EncodeName(WireName(n.labels[1..], n.pointer));
    assert EncodeName(n) == first + rest;
    AtSplit(pkt, at, first, rest);
  }

  lemma CutLabel(pkt: seq<Byte>, full: seq<Byte>, at: nat, steps: nat, name: seq<Byte>, l: seq<Byte>)
    requires LabelOk(l) && steps > 0 && Prefix(pkt, full) && At(full, at, [|l| % 0x100] + l)
    ensures var r := Follow(pkt, at, steps, name);
            if at + 1 + |l| < |pkt| then r == Follow(pkt, at + 1 + |l|, steps - 1, AddLabel(name, l))
            else r.end >= |pkt|
  {
    var both := [|l| % 0x100] + l;
    assert full[at] == full[at..at + |both|][0] == |l|;
    assert full[at + 1..at + 1 + |l|] == full[at..at + |both|][1..] == l;
    if at < |pkt| { assert pkt[at] == |l|; }
    if at + 1 + |l| < |pkt| {
      assert pkt[at + 1..at + 1 + |l|] == l;
    } else {
      EndOfPacket(pkt, steps - 1, if at < |pkt| then AddLabel(name, pkt[at + 1..]) else name);
    }
  }

  lemma EndOfPacket(pkt: seq<Byte>, steps: nat, name: seq<Byte>)
    ensures Follow(pkt, |pkt|, steps, name).end == |pkt|
  {
  }

  lemma CutTail(pkt: seq<Byte>, full: seq<Byte>, at: nat, steps: nat, name: seq<Byte>, pointer: Option<nat>)
    requires steps > 0 && Prefix(pkt, full) && At(full, at, EncodeName(WireName([], pointer)))
    requires |pkt| < at + |EncodeName(WireName([], pointer))|
    ensures Follow(pkt, at, steps, name).end >= |pkt| - 1
  {
    assert EncodeName(WireName([], pointer)) == NameTail(pointer);
    assert full[at] == full[at..at + |NameTail(pointer)|][0];
  }

  // ----- The walk over a well-formed message -----

  /** Where resource i begins when the first one begins at `base`. */
  function Start(resources: seq<Resource>, base: nat, i: nat): nat
    requires i <= |resources|
    decreases i
  {
    if i == 0 then base else Start(resources[1..], base + |EncodeResource(resources[0])|, i - 1)
  }

  /** Where the data of resource i begins. */
  function DataStart(resources: seq<Resource>, base: nat, i: nat): nat
    requires i < |resources|
  {
    Start(resources, base, i) + |EncodeName(resources[i].name)| + 10
  }

  /** The walk saw `res` at `at`: its boundaries, type, class and data as in the full message, and the
      owner its name stands for in what was received. */
  predicate SeenAt(pkt: seq<Byte>, full: seq<Byte>, at: nat, seen: Record, res: Resource)
    requires NameOk(res.name)
  {
    && seen.rtype == res.rtype && seen.rclass == res.rclass
    && seen.rdStart == at + |EncodeName(res.name)| + 10 && seen.rdLen == |res.rdata|
    && At(full, seen.rdStart, res.rdata)
    && (NameMeaning(pkt, res.name).Some? ==> seen.owner == Dotted(NameMeaning(pkt, res.name).value))
  }

  lemma WordAt(pkt: seq<Byte>, at: nat, n: Word16)
    requires At(pkt, at, Wide(n))
    ensures at + 2 <= |pkt| && Word(pkt, at) == n
  {
    U16HiLo(n);
    assert pkt[at..at + 2][0] == pkt[at] && pkt[at..at + 2][1] == pkt[at + 1];
  }

  lemma FixedIs(r: Resource)
    ensures Fixed(r) == Wide(r.rtype) + Wide(r.rclass) + ToBE32(r.ttl) + Wide(|r.rdata|)
  {
  }

  lemma FixedParts(pkt: seq<Byte>, at: nat, r: Resource)
    requires At(pkt, at, Fixed(r)) && |r.rdata| < 0x1_0000
    ensures at + 10 <= |pkt|
    ensures Word(pkt, at) == r.rtype && Word(pkt, at + 2) == r.rclass && Word(pkt, at + 8) == |r.rdata|
  {
    hide Wide, Word, At, Fixed;
    var (a, b, c, d) := (Wide(r.rtype), Wide(r.rclass), ToBE32(r.ttl), Wide(|r.rdata|));
    FixedIs(r);
    AtSplit(pkt, at, a + b + c, d);
    AtSplit(pkt, at, a + b, c);
    AtSplit(pkt, at, a, b);
    WordAt(pkt, at, r.rtype);
    WordAt(pkt, at + 2, r.rclass);
    WordAt(pkt, at + 8, |r.rdata|);
  }

  lemma ResourceParts(full: seq<Byte>, at: nat, res: Resource)
    requires At(full, at, EncodeResource(res))
    ensures At(full, at, EncodeName(res.name))
    ensures At(full, at + |EncodeName(res.name)|, Fixed(res))
    ensures At(full, at + |EncodeName(res.name)| + 10, res.rdata)
    ensures |EncodeResource(res)| == |EncodeName(res.name)| + 10 + |res.rdata|
  {
    hide EncodeName, At, Fixed;
    var n := EncodeName(res.name);
    AtSplit(full, at, n, Fixed(res) + res.rdata);
    AtSplit(full, at + |n|, Fixed(res), res.rdata);
  }

  /** One record whose data begins inside what was received. */
  lemma ResourceSeen(pkt: seq<Byte>, full: seq<Byte>, at: nat, res: Resource)
    requires ResourceOk(res) && Prefix(pkt, full) && At(full, at, EncodeResource(res))
    requires at + |EncodeName(res.name)| + 10 <= |pkt|
    ensures var seen := RecordAt(pkt, at);
            seen.Some? && SeenAt(pkt, full, at, seen.value, res)
            && seen.value.rdStart + seen.value.rdLen == at + |EncodeResource(res)|
  {
    hide LabelsOk, EncodeName, EncodeResource, At, Fixed, ReadName, Word, NameMeaning, Prefix, Dotted;
    var n := EncodeName(res.name);
    ResourceParts(full, at, res);
    PrefixAt(pkt, full, at, n);
    PrefixAt(pkt, full, at + |n|, Fixed(res));
    NameRead(pkt, at, res.name);
    FixedParts(pkt, at + |n|, res);
  }

  /** One record that is cut off before its data. */
  lemma ResourceCut(pkt: seq<Byte>, full: seq<Byte>, at: nat, res: Resource)
    requires ResourceOk(res) && Prefix(pkt, full) && At(full, at, EncodeResource(res))
    requires |pkt| < at + |EncodeName(res.name)| + 10
    ensures at < |pkt| ==> RecordAt(pkt, at).None?
  {
    hide LabelsOk, EncodeName, EncodeResource, At, Fixed, Word, Prefix, Follow;
    var n := EncodeName(res.name);
    ResourceParts(full, at, res);
    if at + |n| <= |pkt| {
      PrefixAt(pkt, full, at, n);
      NameRead(pkt, at, res.name);
    } else {
      CutName(pkt, full, at, STEP_LIMIT, [], res.name);
    }
  }

  /** `seen` are the first resources, each at its place. */
  predicate SeenInOrder(pkt: seq<Byte>, full: seq<Byte>, base: nat, seen: seq<Record>, resources: seq<Resource>)
    requires ResourcesOk(resources)
  {
    |seen| <= |resources|
    && forall i :: 0 <= i < |seen| ==> SeenAt(pkt, full, Start(resources, base, i), seen[i], resources[i])
  }

  /** Resource i is one of the first `n` and its data begins inside what was received. */
  predicate Reached(pkt: seq<Byte>, base: nat, n: nat, resources: seq<Resource>, i: nat)
    requires i < |resources|
  {
    i < n && DataStart(resources, base, i) <= |pkt|
  }

  /** The resources seen are those reached, no more and no less. */
  predicate SeenExactly(pkt: seq<Byte>, base: nat, n: nat, seen: seq<Record>, resources: seq<Resource>)
  {
    forall i :: 0 <= i < |resources| ==> (i < |seen| <==> Reached(pkt, base, n, resources, i))
  }

  lemma ResourcesOkTail(resources: seq<Resource>)
    requires ResourcesOk(resources) && resources != []
    ensures ResourceOk(resources[0]) && ResourcesOk(resources[1..])
  {
  }

  lemma SeenInOrderCons(pkt: seq<Byte>, full: seq<Byte>, base: nat, first: Record, rest: seq<Record>,
                        resources: seq<Resource>)
    requires resources != [] && ResourcesOk(resources) && SeenAt(pkt, full, base, first, resources[0])
    requires SeenInOrder(pkt, full, base + |EncodeResource(resources[0])|, rest, resources[1..])
    ensures SeenInOrder(pkt, full, base, [first] + rest, resources)
  {
    hide SeenAt, EncodeResource;
    var seen, next := [first] + rest, base + |EncodeResource(resources[0])|;
    forall i | 0 <= i < |seen| ensures SeenAt(pkt, full, Start(resources, base, i), seen[i], resources[i]) {
      if i > 0 {
        assert SeenAt(pkt, full, Start(resources[1..], next, i - 1), rest[i - 1], resources[1..][i - 1]);
      }
    }
  }

  lemma SeenExactlyCons(pkt: seq<Byte>, base: nat, n: nat, first: Record, rest: seq<Record>, resources: seq<Resource>)
    requires resources != [] && n > 0 && DataStart(resources, base, 0) <= |pkt|
    requires SeenExactly(pkt, base + |EncodeResource(resources[0])|, n - 1, rest, resources[1..])
    ensures SeenExactly(pkt, base, n, [first] + rest, resources)
  {
    hide EncodeResource, EncodeName, DataStart, Reached;
    var next, seen := base + |EncodeResource(resources[0])|, [first] + rest;
    ReachedFirst(pkt, base, n, resources);
    forall i | 0 <= i < |resources|
      ensures i < |seen| <==> Reached(pkt, base, n, resources, i)
    {
      if i > 0 {
        ReachedTail(pkt, base, n, resources, i);
        assert i - 1 < |rest| <==> Reached(pkt, next, n - 1, resources[1..], i - 1);
      }
    }
  }

  lemma ReachedFirst(pkt: seq<Byte>, base: nat, n: nat, resources: seq<Resource>)
    requires resources != [] && n > 0 && DataStart(resources, base, 0) <= |pkt|
    ensures Reached(pkt, base, n, resources, 0)
  {
  }

  lemma ReachedTail(pkt: seq<Byte>, base: nat, n: nat, resources: seq<Resource>, i: nat)
    requires 0 < i < |resources| && n > 0
    ensures Reached(pkt, base, n, resources, i)
       <==> Reached(pkt, base + |EncodeResource(resources[0])|, n - 1, resources[1..], i - 1)
  {
    DataOfTail(resources, base, i);
  }

  lemma DataOfTail(resources: seq<Resource>, base: nat, i: nat)
    requires 0 < i < |resources|
    ensures DataStart(resources, base, i) == DataStart(resources[1..], base + |EncodeResource(resources[0])|, i - 1)
  {
    hide EncodeResource, EncodeName;
  }

  /** Records begin one after the other. */
  lemma {:induction false} StartsLater(resources: seq<Resource>, base: nat, i: nat)
    requires i <= |resources|
    ensures Start(resources, base, i) >= base
    ensures i > 0 ==> Start(resources, base, i) >= base + |EncodeResource(resources[0])|
    decreases i
  {
    if i > 0 { StartsLater(resources[1..], base + |EncodeResource(resources[0])|, i - 1); }
  }

  /** Past a record that is cut off before its data nothing is seen. */
  lemma NothingSeen(pkt: seq<Byte>, full: seq<Byte>, at: nat, n: nat, resources: seq<Resource>)
    requires ResourcesOk(resources)
    requires n == 0 || resources == [] || DataStart(resources, at, 0) > |pkt|
    ensures SeenInOrder(pkt, full, at, [], resources) && SeenExactly(pkt, at, n, [], resources)
  {
    if n > 0 {
      forall i | 0 <= i < |resources|
        ensures DataStart(resources, at, i) > |pkt|
      {
        StartsLater(resources, at, i);
      }
    }
  }

  /** The walk visits records in order, at their boundaries, until its count or the message is used up. */
  lemma {:induction false} WalkSees(pkt: seq<Byte>, full: seq<Byte>, at: nat, n: nat, resources: seq<Resource>)
    requires ResourcesOk(resources) && Prefix(pkt, full) && At(full, at, EncodeResources(resources))
    requires at + |EncodeResources(resources)| == |full|
    ensures SeenInOrder(pkt, full, at, Walk(pkt, at, n), resources)
    ensures SeenExactly(pkt, at, n, Walk(pkt, at, n), resources)
    decreases |resources|
  {
    hide *;
    if resources == [] || n == 0 {
      WalkEnds(pkt, full, at, n, resources);
      NothingSeen(pkt, full, at, n, resources);
    } else {
      var first, rest := resources[0], resources[1..];
      ResourcesOkTail(resources);
      FirstResource(full, at, resources);
      DataOfFirst(resources, at);
      if DataStart(resources, at, 0) <= |pkt| {
        ResourceSeen(pkt, full, at, first);
        WalkOne(pkt, at, n);
        WalkSees(pkt, full, at + |EncodeResource(first)|, n - 1, rest);
        var walked := Walk(pkt, at + |EncodeResource(first)|, n - 1);
        SeenInOrderCons(pkt, full, at, RecordAt(pkt, at).value, walked, resources);
        SeenExactlyCons(pkt, at, n, RecordAt(pkt, at).value, walked, resources);
      } else {
        ResourceCut(pkt, full, at, first);
        WalkCut(pkt, at, n);
        NothingSeen(pkt, full, at, n, resources);
      }
    }
  }

  lemma DataOfFirst(resources: seq<Resource>, at: nat)
    requires resources != []
    ensures DataStart(resources, at, 0) == at + |EncodeName(resources[0].name)| + 10
  {
  }

  lemma WalkCut(pkt: seq<Byte>, at: nat, n: nat)
    requires at < |pkt| ==> RecordAt(pkt, at).None?
    ensures Walk(pkt, at, n) == []
  {
  }

  lemma WalkEnds(pkt: seq<Byte>, full: seq<Byte>, at: nat, n: nat, resources: seq<Resource>)
    requires Prefix(pkt, full) && (n == 0 || (resources == [] && at + |EncodeResources(resources)| == |full|))
    ensures Walk(pkt, at, n) == []
  {
  }

  lemma FirstResource(pkt: seq<Byte>, at: nat, resources: seq<Resource>)
    requires resources != [] && At(pkt, at, EncodeResources(resources))
    ensures At(pkt, at, EncodeResource(resources[0]))
    ensures At(pkt, at + |EncodeResource(resources[0])|, EncodeResources(resources[1..]))
    ensures |EncodeResources(resources)| == |EncodeResource(resources[0])| + |EncodeResources(resources[1..])|
    ensures |EncodeResource(resources[0])| > 0
  {
    hide *;
    ResourcesAre(resources);
    AtSplit(pkt, at, EncodeResource(resources[0]), EncodeResources(resources[1..]));
  }

  lemma ResourcesAre(resources: seq<Resource>)
    requires resources != []
    ensures EncodeResources(resources) == EncodeResource(resources[0]) + EncodeResources(resources[1..])
    ensures |EncodeResource(resources[0])| > 0
  {
  }

  lemma WalkOne(pkt: seq<Byte>, at: nat, n: nat)
    requires n > 0 && RecordAt(pkt, at).Some?
    ensures var r := RecordAt(pkt, at).value; Walk(pkt, at, n) == [r] + Walk(pkt, r.rdStart + r.rdLen, n - 1)
  {
  }

  /** The question section is skipped to its end; if it is cut off, to the end of the message. */
  lemma {:induction false} QuestionsSkipped(pkt: seq<Byte>, full: seq<Byte>, at: nat, questions: seq<Question>)
    requires QuestionsOk(questions) && Prefix(pkt, full) && At(full, at, EncodeQuestions(questions))
    ensures var (skipped, end) := (SkipQuestions(pkt, at, |questions|), at + |EncodeQuestions(questions)|);
            if end <= |pkt| then skipped == end else skipped >= |pkt|
    decreases |questions|
  {
    hide *;
    NoQuestions(pkt, at);
    if questions != [] {
      FirstQuestion(full, at, questions);
      QuestionSkipped(pkt, full, at, questions[0]);
      SkipOne(pkt, at, questions);
      if at + |EncodeQuestion(questions[0])| <= |pkt| {
        QuestionsSkipped(pkt, full, at + |EncodeQuestion(questions[0])|, questions[1..]);
      }
    }
  }

  lemma NoQuestions(pkt: seq<Byte>, at: nat)
    ensures EncodeQuestions([]) == [] && SkipQuestions(pkt, at, 0) == at
  {
  }

  lemma SkipOne(pkt: seq<Byte>, at: nat, questions: seq<Question>)
    requires questions != []
    ensures var n := |questions|;
            && (at >= |pkt| ==> SkipQuestions(pkt, at, n) == at)
            && (at < |pkt| ==> SkipQuestions(pkt, at, n) == SkipQuestions(pkt, ReadName(pkt, at).end + 4, |questions[1..]|))
            && (ReadName(pkt, at).end + 4 >= |pkt| && at < |pkt| ==> SkipQuestions(pkt, at, n) >= |pkt|)
  {
  }

  lemma FirstQuestion(full: seq<Byte>, at: nat, questions: seq<Question>)
    requires questions != [] && QuestionsOk(questions) && At(full, at, EncodeQuestions(questions))
    ensures NameOk(questions[0].name) && QuestionsOk(questions[1..])
    ensures At(full, at, EncodeQuestion(questions[0]))
    ensures At(full, at + |EncodeQuestion(questions[0])|, EncodeQuestions(questions[1..]))
    ensures |EncodeQuestions(questions)| == |EncodeQuestion(questions[0])| + |EncodeQuestions(questions[1..])|
  {
    AtSplit(full, at, EncodeQuestion(questions[0]), EncodeQuestions(questions[1..]));
  }

  lemma QuestionSkipped(pkt: seq<Byte>, full: seq<Byte>, at: nat, q: Question)
    requires NameOk(q.name) && Prefix(pkt, full) && At(full, at, EncodeQuestion(q))
    ensures |EncodeQuestion(q)| > 4
    ensures var (skipped, end) := (ReadName(pkt, at).end + 4, at + |EncodeQuestion(q)|);
            if end <= |pkt| then skipped == end else skipped >= |pkt|
  {
    hide EncodeName, Wide, At, Prefix, LabelsOk, Follow;
    var n := EncodeName(q.name);
    NameNotEmpty(q.name);
    AtSplit(full, at, n, Wide(q.qtype) + Wide(q.qclass));
    if at + |n| <= |pkt| {
      PrefixAt(pkt, full, at, n);
      NameRead(pkt, at, q.name);
    } else {
      CutName(pkt, full, at, STEP_LIMIT, [], q.name);
    }
  }

  lemma NameNotEmpty(n: WireName)
    ensures |EncodeName(n)| > 0
  {
  }

  lemma HeaderParts(m: Message)
    requires MessageOk(m)
    ensures var pkt := Encode(m);
            IsResponse(pkt) && Word(pkt, 4) == |m.questions|
            && Word(pkt, 6) == |m.answers| && Word(pkt, 10) == |m.additional|
  {
    hide Word, At, EncodeQuestions, EncodeResources, QuestionsOk, ResourcesOk;
    var pkt, body := Encode(m), EncodeQuestions(m.questions) + EncodeResources(AllResources(m));
    var (a, b, c, d, e, f) := (Wide(m.id), Wide(m.flags), Wide(|m.questions|), Wide(|m.answers|), Wide(|m.authority|),
                               Wide(|m.additional|));
    WholeAt(Header(m), body);
    AtSplit(pkt, 0, a + b + c + d + e, f);
    AtSplit(pkt, 0, a + b + c + d, e);
    AtSplit(pkt, 0, a + b + c, d);
    AtSplit(pkt, 0, a + b, c);
    WordAt(pkt, 4, |m.questions|);
    WordAt(pkt, 6, |m.answers|);
    WordAt(pkt, 10, |m.additional|);
    assert pkt[2] == m.flags / 0x100;
  }

  lemma WholeAt(a: seq<Byte>, b: seq<Byte>)
    ensures At(a + b, 0, a) && At(a + b, |a|, b)
  {
  }

  // ----- Main results -----

  function Base(m: Message): nat { HEADER_SIZE + |EncodeQuestions(m.questions)| }

  /** The count the walk uses. */
  function UsedCount(m: Message): nat { (|m.answers| + |m.additional|) % 0x1_0000 }

  /** Every well-formed response, received as far as it comes into the buffer: the walk skips the
      questions and visits, of the first (ANCOUNT + ARCOUNT) mod 2^16 records, exactly those whose data
      begins inside the buffer, each once, in order and at its true boundaries. */
  lemma WellFormedWalk(os: Platform, m: Message)
    requires MessageOk(m)
    ensures var pkt := Received(os, Encode(m), BUFFER_SIZE);
            && SeenInOrder(pkt, Encode(m), Base(m), Visited(pkt), AllResources(m))
            && SeenExactly(pkt, Base(m), UsedCount(m), Visited(pkt), AllResources(m))
  {
    hide SeenInOrder, SeenExactly, Encode, AllResources, ResourcesOk, QuestionsOk;
    var full := Encode(m);
    var pkt := Received(os, full, BUFFER_SIZE);
    if pkt == full || os.Posix? {
      ReceivedPrefix(os, m);
      PrefixWalk(pkt, m);
    } else {
      NotReceived(full, m);
    }
  }

  lemma ReceivedPrefix(os: Platform, m: Message)
    requires os.Posix? || Received(os, Encode(m), BUFFER_SIZE) == Encode(m)
    ensures Prefix(Received(os, Encode(m), BUFFER_SIZE), Encode(m))
    ensures |Received(os, Encode(m), BUFFER_SIZE)| >= HEADER_SIZE
  {
    hide Header, EncodeQuestions, EncodeResources;
  }

  lemma NotReceived(full: seq<Byte>, m: Message)
    requires MessageOk(m)
    ensures Visited([]) == [] && SeenInOrder([], full, Base(m), [], AllResources(m))
    ensures SeenExactly([], Base(m), UsedCount(m), [], AllResources(m))
  {
    if AllResources(m) != [] {
      NothingSeen([], full, Base(m), UsedCount(m), AllResources(m));
    }
  }

  lemma PrefixWalk(pkt: seq<Byte>, m: Message)
    requires MessageOk(m) && Prefix(pkt, Encode(m)) && |pkt| >= HEADER_SIZE
    ensures SeenInOrder(pkt, Encode(m), Base(m), Visited(pkt), AllResources(m))
    ensures SeenExactly(pkt, Base(m), UsedCount(m), Visited(pkt), AllResources(m))
  {
    hide Header, EncodeQuestions, EncodeResources, QuestionsOk, ResourcesOk, SeenInOrder, SeenExactly, IsResponse, Word,
      Walk, SkipQuestions, AllResources, Prefix;
    var full, q, r := Encode(m), EncodeQuestions(m.questions), EncodeResources(AllResources(m));
    HeaderParts(m);
    PrefixHeader(pkt, full);
    WholeAt(Header(m), q + r);
    hide At;
    AtSplit(full, HEADER_SIZE, q, r);
    QuestionsSkipped(pkt, full, HEADER_SIZE, m.questions);
    var at := SkipQuestions(pkt, HEADER_SIZE, |m.questions|);
    if Base(m) <= |pkt| {
      WalkSees(pkt, full, Base(m), UsedCount(m), AllResources(m));
    } else {
      WalkCut(pkt, at, UsedCount(m));
      QuestionsCut(pkt, full, m);
    }
  }

  lemma QuestionsCut(pkt: seq<Byte>, full: seq<Byte>, m: Message)
    requires MessageOk(m) && Base(m) > |pkt|
    ensures SeenInOrder(pkt, full, Base(m), [], AllResources(m))
    ensures SeenExactly(pkt, Base(m), UsedCount(m), [], AllResources(m))
  {
    hide EncodeQuestions, SeenInOrder, SeenExactly;
    NothingSeen(pkt, full, Base(m), UsedCount(m), AllResources(m));
  }

  lemma PrefixHeader(pkt: seq<Byte>, full: seq<Byte>)
    requires Prefix(pkt, full) && |pkt| >= HEADER_SIZE
    ensures IsResponse(pkt) == IsResponse(full) && Word(pkt, 4) == Word(full, 4)
    ensures Word(pkt, 6) == Word(full, 6) && Word(pkt, 10) == Word(full, 10)
  {
  }

  /** Every record is visited, and all its data was received. */
  ghost predicate AllSeen(os: Platform, m: Message)
  {
    var pkt := Received(os, Encode(m), BUFFER_SIZE);
    && |Visited(pkt)| == |AllResources(m)|
    && forall r :: r in Visited(pkt) ==> r.rdStart + r.rdLen <= |pkt|
  }

  /** The walk sees everything exactly when the message fits the buffer and has no authority section.
      The count cannot wrap then. */
  lemma WalkIsComplete(os: Platform, m: Message)
    requires MessageOk(m) && AllResources(m) != []
    ensures AllSeen(os, m) <==> |Encode(m)| <= 4096 && m.authority == []
  {
    hide *;
    BufferSize();
    if AllSeen(os, m) {
      CompleteFits(os, m);
    }
    if |Encode(m)| <= BUFFER_SIZE && m.authority == [] {
      FitsComplete(os, m);
    }
  }

  lemma BufferSize()
    ensures BUFFER_SIZE == 4096
  {
  }

  lemma CompleteFits(os: Platform, m: Message)
    requires MessageOk(m) && AllResources(m) != [] && AllSeen(os, m)
    ensures |Encode(m)| <= BUFFER_SIZE && m.authority == []
  {
    hide EncodeName, EncodeResource, EncodeResources, Encode, Visited, MessageOk, At, NameMeaning, Received, NameOk;
    var pkt, rs := Received(os, Encode(m), BUFFER_SIZE), AllResources(m);
    var seen, last := Visited(pkt), |rs| - 1;
    WellFormedWalk(os, m);
    assert Reached(pkt, Base(m), UsedCount(m), rs, last) && seen[last] in seen;
    EndOfResources(m);
  }

  lemma FitsComplete(os: Platform, m: Message)
    requires MessageOk(m) && AllResources(m) != [] && |Encode(m)| <= BUFFER_SIZE && m.authority == []
    ensures AllSeen(os, m)
  {
    hide EncodeName, EncodeResource, EncodeResources, Encode, Visited, MessageOk, NameMeaning, NameOk;
    var rs, seen := AllResources(m), Visited(Encode(m));
    WellFormedWalk(os, m);
    EndOfResources(m);
    assert Reached(Encode(m), Base(m), UsedCount(m), rs, |rs| - 1);
    SeenDataEnds(m, Encode(m), seen);
  }

  lemma SeenDataEnds(m: Message, full: seq<Byte>, seen: seq<Record>)
    requires MessageOk(m) && SeenInOrder(full, full, Base(m), seen, AllResources(m))
    ensures forall r :: r in seen ==> r.rdStart + r.rdLen <= |full|
  {
    hide NameMeaning, NameOk, EncodeName, AllResources, Base, Start;
    forall r | r in seen
      ensures r.rdStart + r.rdLen <= |full|
    {
      var i :| 0 <= i < |seen| && seen[i] == r;
      assert SeenAt(full, full, Start(AllResources(m), Base(m), i), seen[i], AllResources(m)[i]);
    }
  }

  /** The last record ends where the message ends, and every record takes at least eleven octets. */
  lemma EndOfResources(m: Message)
    requires AllResources(m) != []
    ensures var (rs, last) := (AllResources(m), |AllResources(m)| - 1);
            && DataStart(rs, Base(m), last) + |rs[last].rdata| == |Encode(m)|
            && 11 * |rs| <= |Encode(m)|
  {
    hide EncodeName, EncodeQuestions, AllResources;
    var rs, last := AllResources(m), |AllResources(m)| - 1;
    StartIs(rs, Base(m), last);
    LongEnough(rs, last);
    assert rs[..last] + [rs[last]] == rs;
    EncodeLast(rs[..last], rs[last]);
    NameNotEmpty(rs[last].name);
  }

  lemma {:induction false} StartIs(resources: seq<Resource>, base: nat, i: nat)
    requires i <= |resources|
    ensures Start(resources, base, i) == base + |EncodeResources(resources[..i])|
    decreases i
  {
    if i > 0 {
      StartIs(resources[1..], base + |EncodeResource(resources[0])|, i - 1);
      assert resources[..i][1..] == resources[1..][..i - 1];
    }
  }

  lemma {:induction false} LongEnough(resources: seq<Resource>, i: nat)
    requires i <= |resources|
    ensures |EncodeResources(resources[..i])| >= 11 * i
    decreases i
  {
    hide EncodeResource;
    if i > 0 {
      LongEnough(resources[1..], i - 1);
      assert resources[..i][1..] == resources[1..][..i - 1];
      ResourceLength(resources[0]);
    }
  }

  lemma ResourceLength(r: Resource)
    ensures |EncodeResource(r)| == |EncodeName(r.name)| + 10 + |r.rdata| >= 11
  {
    NameNotEmpty(r.name);
  }

  lemma {:induction false} EncodeLast(resources: seq<Resource>, r: Resource)
    ensures EncodeResources(resources + [r]) == EncodeResources(resources) + EncodeResource(r)
    decreases |resources|
  {
    hide EncodeResource;
    if resources == [] {
      assert resources + [r] == [r];
    } else {
      assert (resources + [r])[1..] == resources[1..] + [r];
      EncodeLast(resources[1..], r);
    }
  }

  // ----- A response the walk does not see all of -----

  /** A response of 6012 octets: 400 A records for the root name. */
  function LongResponse(): Message
  {
    Message(0, 0x8400, [], seq(400, _ => Resource(WireName([], None), TYPE_A, 1, 120, [192, 168, 1, 2])), [], [])
  }

  /** Nothing about it is wrong, yet 128 of its records are lost where the datagram is cut off, and all
      400 where the call fails. */
  lemma LongResponseLost()
    ensures MessageOk(LongResponse()) && LongResponse().authority == []
    ensures |Visited(Received(Posix, Encode(LongResponse()), BUFFER_SIZE))| == 272
    ensures |Visited(Received(Windows, Encode(LongResponse()), BUFFER_SIZE))| == 0
  {
    hide *;
    var m := LongResponse();
    LongResponseOk();
    LongResponseStarts();
    WellFormedWalk(Posix, m);
    WellFormedWalk(Windows, m);
    LongReceived(Encode(m));
    HowManySeen(Received(Posix, Encode(m), BUFFER_SIZE), Visited(Received(Posix, Encode(m), BUFFER_SIZE)), 272);
    HowManySeen(Received(Windows, Encode(m), BUFFER_SIZE), Visited(Received(Windows, Encode(m), BUFFER_SIZE)), 0);
  }

  lemma LongReceived(d: seq<Byte>)
    requires |d| == 6012
    ensures |Received(Posix, d, BUFFER_SIZE)| == 4096 && |Received(Windows, d, BUFFER_SIZE)| == 0
  {
  }

  lemma LongResponseStarts()
    ensures var (m, rs) := (LongResponse(), AllResources(LongResponse()));
            && |rs| == 400 && |Encode(m)| == 6012
            && forall i :: 0 <= i < 400 ==> DataStart(rs, Base(m), i) == 12 + 15 * i + 11
  {
    LongResponseOk();
    var (m, rs) := (LongResponse(), AllResources(LongResponse()));
    assert EncodeQuestions(m.questions) == [];
    hide EncodeResource, AllResources, MessageOk, Header;
    forall i | 0 <= i < 400
      ensures DataStart(rs, Base(m), i) == 12 + 15 * i + 11
    {
      LongStart(rs, HEADER_SIZE, i);
      assert |EncodeResource(rs[i])| == 15;
    }
    EndOfResources(m);
  }

  lemma HowManySeen(pkt: seq<Byte>, seen: seq<Record>, n: nat)
    requires var (m, rs) := (LongResponse(), AllResources(LongResponse()));
             && ResourcesOk(rs) && |rs| == 400 && UsedCount(m) == 400
             && (forall i :: 0 <= i < 400 ==> DataStart(rs, Base(m), i) == 12 + 15 * i + 11)
             && SeenInOrder(pkt, Encode(m), Base(m), seen, rs) && SeenExactly(pkt, Base(m), 400, seen, rs)
    requires 12 + 15 * (n - 1) + 11 <= |pkt| < 12 + 15 * n + 11 || n == |pkt| == 0
    requires n < 400
    ensures |seen| == n
  {
    hide DataStart, AllResources, Base, Encode, SeenAt;
    var (m, rs) := (LongResponse(), AllResources(LongResponse()));
    assert n > 0 ==> Reached(pkt, Base(m), 400, rs, n - 1);
    assert !Reached(pkt, Base(m), 400, rs, n);
  }

  lemma LongResponseOk()
    ensures var (m, rs) := (LongResponse(), AllResources(LongResponse()));
            && MessageOk(m) && ResourcesOk(rs) && m.authority == [] && |rs| == 400 && UsedCount(m) == 400
            && forall i :: 0 <= i < 400 ==> |EncodeResource(rs[i])| == 15 && |EncodeName(rs[i].name)| == 1
  {
  }

  lemma {:induction false} LongStart(resources: seq<Resource>, base: nat, i: nat)
    requires i <= |resources| && forall k :: 0 <= k < |resources| ==> |EncodeResource(resources[k])| == 15
    ensures Start(resources, base, i) == base + 15 * i
    decreases i
  {
    if i > 0 { LongStart(resources[1..], base + 15, i - 1); }
  }
}
