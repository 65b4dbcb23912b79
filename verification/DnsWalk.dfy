/** Walking the records of an mDNS response (the body of discoveryLoop in mdns-discovery.cpp). */
module DnsWalk {
  import opened Bytes
  import opened DnsName

  const HEADER_SIZE := 12
  /** The receive buffer. */
  const BUFFER_SIZE := 4096
  const TYPE_A := 1
  const TYPE_PTR := 12
  const TYPE_SRV := 33

  /** "_phonewebcam._udp.local" */
  const SERVICE_TYPE: seq<Byte> :=
    [0x5F, 0x70, 0x68, 0x6F, 0x6E, 0x65, 0x77, 0x65, 0x62, 0x63, 0x61, 0x6D, DOT,
     0x5F, 0x75, 0x64, 0x70, DOT, 0x6C, 0x6F, 0x63, 0x61, 0x6C]

  lemma ServiceTypeText()
    ensures var text := "_phonewebcam._udp.local";
            |SERVICE_TYPE| == |text| && forall i :: 0 <= i < |text| ==> SERVICE_TYPE[i] == text[i] as int
  {
  }

  /** A record as the walk sees it: where its data starts and how long it says the data is. */
  datatype Record = Record(owner: seq<Byte>, rtype: Word16, rclass: Word16, rdStart: nat, rdLen: Word16)

  datatype Event =
    | Query(packet: seq<Byte>)                                // a follow-up SRV question is sent
    | Service(ip: seq<Byte>, host: seq<Byte>, port: Word16)   // the service callback is called

  /** The variables the walk keeps from record to record, and what it has done so far. */
  datatype Findings = Findings(port: Word16, host: seq<Byte>, trusted: bool, events: seq<Event>)

  const Nothing := Findings(0, [], false, [])

  // ----- The walk -----

  function Word(pkt: seq<Byte>, i: nat): Word16
    requires i + 2 <= |pkt|
  {
    U16(pkt[i], pkt[i + 1])
  }

  function SkipQuestions(pkt: seq<Byte>, offset: nat, n: nat): nat
    decreases n
  {
    if n == 0 || offset >= |pkt| then offset else SkipQuestions(pkt, ReadName(pkt, offset).end + 4, n - 1)
  }

  function RecordAt(pkt: seq<Byte>, offset: nat): Option<Record>
  {
    var name := ReadName(pkt, offset);
    var at := name.end;
    if at + 10 > |pkt| then None
    else Some(Record(name.name, Word(pkt, at), Word(pkt, at + 2), at + 10, Word(pkt, at + 8)))
  }

  function Walk(pkt: seq<Byte>, offset: nat, n: nat): seq<Record>
    decreases n
  {
    if n == 0 || offset >= |pkt| then []
    else
      match RecordAt(pkt, offset)
      case None => []
      case Some(r) => [r] + Walk(pkt, r.rdStart + r.rdLen, n - 1)
  }

  predicate IsResponse(pkt: seq<Byte>)
  {
    |pkt| >= HEADER_SIZE && pkt[2] >= 0x80
  }

  /** The record count the walk uses: a 16-bit sum, without the authority section. */
  function Total(pkt: seq<Byte>): nat
    requires |pkt| >= HEADER_SIZE
  {
    (Word(pkt, 6) + Word(pkt, 10)) % 0x1_0000
  }

  /** The records a received message makes the loop visit. */
  function Visited(pkt: seq<Byte>): seq<Record>
  {
    if IsResponse(pkt) then Walk(pkt, SkipQuestions(pkt, HEADER_SIZE, Word(pkt, 4)), Total(pkt)) else []
  }

  // ----- What one record does -----

  /** The buffer: what was received, then whatever the buffer held there before. */
  function Octet(pkt: seq<Byte>, stale: nat -> Byte, i: nat): Byte
  {
    if i < |pkt| then pkt[i] else stale(i)
  }

  predicate ServiceTypeAt(name: seq<Byte>, i: nat)
  {
    i + |SERVICE_TYPE| <= |name| && name[i..i + |SERVICE_TYPE|] == SERVICE_TYPE
  }

  predicate UnderService(name: seq<Byte>)
  {
    exists i :: 0 <= i < |name| && ServiceTypeAt(name, i)
  }

  function SrvQuery(target: seq<Byte>): seq<Byte>
  {
    [0, 0, 0, 0, 0, 1, 0, 0, 0, 0, 0, 0] + WriteFrom(target, 0) + [0, 0x21, 0, 1]
  }

  predicate SetsService(r: Record) { r.rtype == TYPE_SRV && r.rdLen >= 6 }

  function SrvPort(pkt: seq<Byte>, stale: nat -> Byte, r: Record): Word16
  {
    U16(Octet(pkt, stale, r.rdStart + 4), Octet(pkt, stale, r.rdStart + 5))
  }

  function SrvHost(pkt: seq<Byte>, r: Record): seq<Byte> { ReadName(pkt, r.rdStart + 6).name }

  predicate AsksForService(pkt: seq<Byte>, r: Record)
  {
    r.rtype == TYPE_PTR && ReadName(pkt, r.rdStart).name != [] && r.owner == SERVICE_TYPE
  }

  function Address(pkt: seq<Byte>, stale: nat -> Byte, r: Record): seq<Byte>
  {
    [Octet(pkt, stale, r.rdStart), Octet(pkt, stale, r.rdStart + 1),
     Octet(pkt, stale, r.rdStart + 2), Octet(pkt, stale, r.rdStart + 3)]
  }

  function Apply(pkt: seq<Byte>, stale: nat -> Byte, f: Findings, r: Record): Findings
  {
    if AsksForService(pkt, r) then
      f.(events := f.events + [Query(SrvQuery(ReadName(pkt, r.rdStart).name))])
    else if SetsService(r) then
      f.(port := SrvPort(pkt, stale, r), host := SrvHost(pkt, r), trusted := UnderService(r.owner))
    else if r.rtype == TYPE_A && r.rdLen == 4 && r.owner == f.host && f.trusted && f.port > 0 then
      f.(events := f.events + [Service(Address(pkt, stale, r), f.host, f.port)])
    else f
  }

  function ApplyAll(pkt: seq<Byte>, stale: nat -> Byte, f: Findings, records: seq<Record>): Findings
    decreases |records|
  {
    if records == [] then f else ApplyAll(pkt, stale, Apply(pkt, stale, f, records[0]), records[1..])
  }

  // ----- The loop -----

  method ContainsService(name: seq<Byte>) returns (found: bool)
    ensures found == UnderService(name)
  {
    var i := 0;
    while i + |SERVICE_TYPE| <= |name|
      invariant forall k :: 0 <= k < i ==> !ServiceTypeAt(name, k)
    {
      if ServiceTypeAt(name, i) { return true; }
      i := i + 1;
    }
    return false;
  }

  method HandleRecord(pkt: seq<Byte>, stale: nat -> Byte, f: Findings, r: Record) returns (g: Findings)
    ensures g == Apply(pkt, stale, f, r)
  {
    g := f;
    if r.rtype == TYPE_PTR {
      var target, _ := ReadDnsName(pkt, r.rdStart);
      if target != [] && r.owner == SERVICE_TYPE {
        var query := [0, 0, 0, 0, 0, 1, 0, 0, 0, 0, 0, 0];
        query := WriteDnsName(query, target);
        query := query + [0, 0x21, 0, 1];
        g := g.(events := g.events + [Query(query)]);
      }
    } else if r.rtype == TYPE_SRV {
      if r.rdStart + 6 <= r.rdStart + r.rdLen {
        var host, _ := ReadDnsName(pkt, r.rdStart + 6);
        var trusted := ContainsService(r.owner);
        g := g.(port := SrvPort(pkt, stale, r), host := host, trusted := trusted);
      }
    } else if r.rtype == TYPE_A {
      if r.rdLen == 4 && r.owner == g.host && g.trusted && g.port > 0 {
        g := g.(events := g.events + [Service(Address(pkt, stale, r), g.host, g.port)]);
      }
    }
  }

  method SkipQuestionSection(pkt: seq<Byte>, qdCount: nat) returns (offset: nat)
    ensures offset == SkipQuestions(pkt, HEADER_SIZE, qdCount)
  {
    offset := HEADER_SIZE;
    var q := 0;
    while q < qdCount && offset < |pkt|
      invariant 0 <= q <= qdCount
      invariant SkipQuestions(pkt, offset, qdCount - q) == SkipQuestions(pkt, HEADER_SIZE, qdCount)
      decreases qdCount - q
    {
      var _, end := ReadDnsName(pkt, offset);
      offset := end + 4;
      q := q + 1;
    }
  }

  lemma WalkStep(pkt: seq<Byte>, stale: nat -> Byte, f: Findings, offset: nat, n: nat)
    requires n > 0 && offset < |pkt| && RecordAt(pkt, offset).Some?
    ensures ApplyAll(pkt, stale, f, Walk(pkt, offset, n))
         == ApplyAll(pkt, stale, Apply(pkt, stale, f, RecordAt(pkt, offset).value),
                     Walk(pkt, RecordAt(pkt, offset).value.rdStart + RecordAt(pkt, offset).value.rdLen, n - 1))
  {
    hide RecordAt, Apply;
    var r := RecordAt(pkt, offset).value;
    var rest := Walk(pkt, r.rdStart + r.rdLen, n - 1);
    assert ([r] + rest)[1..] == rest;
  }

  lemma WalkStops(pkt: seq<Byte>, stale: nat -> Byte, f: Findings, offset: nat, n: nat)
    requires n == 0 || offset >= |pkt| || RecordAt(pkt, offset).None?
    ensures ApplyAll(pkt, stale, f, Walk(pkt, offset, n)) == f
  {
  }

  method WalkRecords(pkt: seq<Byte>, stale: nat -> Byte, start: nat, totalRR: nat) returns (f: Findings)
    ensures f == ApplyAll(pkt, stale, Nothing, Walk(pkt, start, totalRR))
  {
    hide Walk, ApplyAll, Apply, Word;
    f := Nothing;
    var offset: nat := start;
    var rr := 0;
    while rr < totalRR && offset < |pkt|
      invariant 0 <= rr <= totalRR
      invariant ApplyAll(pkt, stale, f, Walk(pkt, offset, totalRR - rr))
             == ApplyAll(pkt, stale, Nothing, Walk(pkt, start, totalRR))
      decreases totalRR - rr
    {
      var rrName, at := ReadDnsName(pkt, offset);
      if at + 10 > |pkt| { break; }
      var rdLen := Word(pkt, at + 8);
      var rdStart := at + 10;
      WalkStep(pkt, stale, f, offset, totalRR - rr);
      f := HandleRecord(pkt, stale, f, Record(rrName, Word(pkt, at), Word(pkt, at + 2), rdStart, rdLen));
      offset := rdStart + rdLen;
      rr := rr + 1;
    }
    WalkStops(pkt, stale, f, offset, totalRR - rr);
  }

  method HandleMessage(pkt: seq<Byte>, stale: nat -> Byte) returns (f: Findings)
    ensures f == ApplyAll(pkt, stale, Nothing, Visited(pkt))
  {
    if |pkt| < HEADER_SIZE { return Nothing; }
    if pkt[2] < 0x80 { return Nothing; }
    var totalRR := Total(pkt);
    if totalRR == 0 { return Nothing; }
    var offset := SkipQuestionSection(pkt, Word(pkt, 4));
    f := WalkRecords(pkt, stale, offset, totalRR);
  }

  /** One turn of the receive loop: the datagram as far as it comes into the buffer. An empty read is
      passed over. */
  method HandleDatagram(os: Platform, datagram: seq<Byte>, stale: nat -> Byte) returns (f: Findings)
    ensures f == ApplyAll(Received(os, datagram, BUFFER_SIZE), stale, Nothing,
                          Visited(Received(os, datagram, BUFFER_SIZE)))
  {
    var pkt := Received(os, datagram, BUFFER_SIZE);
    if |pkt| <= 0 { return Nothing; }
    f := HandleMessage(pkt, stale);
  }

  // ----- What a walk reports -----

  /** The last of the first n records that sets the service. */
  function LastSrv(records: seq<Record>, n: nat): (i: Option<nat>)
    requires n <= |records|
    ensures i.Some? ==> i.value < n && SetsService(records[i.value])
    ensures forall k :: (if i.Some? then i.value + 1 else 0) <= k < n ==> !SetsService(records[k])
    decreases n
  {
    if n == 0 then None
    else if SetsService(records[n - 1]) then Some(n - 1)
    else LastSrv(records, n - 1)
  }

  /** The events of a walk stated record by record: record n calls the service back exactly when it is an
      A record with four data bytes whose owner is the target of the latest service record before it,
      that record lies under the service type and its port is not zero. */
  function EventOf(pkt: seq<Byte>, stale: nat -> Byte, records: seq<Record>, n: nat): seq<Event>
    requires n < |records|
  {
    var r, last := records[n], LastSrv(records, n);
    if AsksForService(pkt, r) then [Query(SrvQuery(ReadName(pkt, r.rdStart).name))]
    else if r.rtype == TYPE_A && r.rdLen == 4 && last.Some? then
      var srv := records[last.value];
      if r.owner == SrvHost(pkt, srv) && UnderService(srv.owner) && SrvPort(pkt, stale, srv) > 0
      then [Service(Address(pkt, stale, r), r.owner, SrvPort(pkt, stale, srv))]
      else []
    else []
  }

  function Events(pkt: seq<Byte>, stale: nat -> Byte, records: seq<Record>, n: nat): seq<Event>
    requires n <= |records|
  {
    if n == 0 then [] else Events(pkt, stale, records, n - 1) + EventOf(pkt, stale, records, n - 1)
  }

  function Report(pkt: seq<Byte>, stale: nat -> Byte, records: seq<Record>, n: nat): Findings
    requires n <= |records|
  {
    match LastSrv(records, n)
    case None => Findings(0, [], false, Events(pkt, stale, records, n))
    case Some(i) => Findings(SrvPort(pkt, stale, records[i]), SrvHost(pkt, records[i]), UnderService(records[i].owner),
                             Events(pkt, stale, records, n))
  }

  lemma ReportStep(pkt: seq<Byte>, stale: nat -> Byte, records: seq<Record>, n: nat)
    requires n < |records|
    ensures Apply(pkt, stale, Report(pkt, stale, records, n), records[n]) == Report(pkt, stale, records, n + 1)
  {
    hide UnderService, ReadName, SrvPort, SrvHost, Address, SrvQuery;
  }

  lemma {:induction false} ApplyAllFrom(pkt: seq<Byte>, stale: nat -> Byte, records: seq<Record>, n: nat)
    requires n <= |records|
    ensures ApplyAll(pkt, stale, Report(pkt, stale, records, n), records[n..])
         == Report(pkt, stale, records, |records|)
    decreases |records| - n
  {
    if n < |records| {
      ReportStep(pkt, stale, records, n);
      hide Apply, Report;
      ApplyAllFrom(pkt, stale, records, n + 1);
      assert records[n..][1..] == records[n + 1..];
    }
  }

  /** What the record loop reports depends only on each A or PTR record and the latest SRV record before
      it, whatever else the message holds. */
  lemma WalkReports(pkt: seq<Byte>, stale: nat -> Byte)
    ensures ApplyAll(pkt, stale, Nothing, Visited(pkt)) == Report(pkt, stale, Visited(pkt), |Visited(pkt)|)
  {
    ApplyAllFrom(pkt, stale, Visited(pkt), 0);
    assert Visited(pkt)[0..] == Visited(pkt);
    assert Report(pkt, stale, Visited(pkt), 0) == Nothing;
  }

  /** The follow-up question names the instance it was sent for. */
  lemma QueryNamesTarget(labels: seq<seq<Byte>>)
    requires LabelsOk(labels) && NoDots(labels) && |labels| < STEP_LIMIT
    ensures ReadName(SrvQuery(Dotted(labels)), HEADER_SIZE)
         == Reading(Dotted(labels), |SrvQuery(Dotted(labels))| - 4)
  {
    var name := WriteFrom(Dotted(labels), 0);
    var before: seq<Byte>, after: seq<Byte> := [0, 0, 0, 0, 0, 1, 0, 0, 0, 0, 0, 0], [0, 0x21, 0, 1];
    var query := before + name + after;
    assert query[HEADER_SIZE..HEADER_SIZE + |name|] == name;
    hide Dotted, ReadName, WriteFrom;
    ReadWritten(query, HEADER_SIZE, labels);
  }
}
