/** The list of streams keyed by SSRC (srtp_stream_list_* in srtp.c). */
module StreamList {
  import opened Bytes
  import opened SrtpStream

  const INITIAL_SIZE := 2
  /** SIZE_MAX / sizeof(list_entry) with 64-bit pointers. */
  const MAX_CAPACITY := 0x0FFF_FFFF_FFFF_FFFF

  datatype Entry = Entry(ssrc: Ssrc, stream: Stream)

  // ----- The list as a sequence -----

  /** The first stream from i on with an SSRC. */
  function FirstFrom(streams: seq<Stream>, ssrc: Ssrc, i: nat): (n: Option<nat>)
    requires i <= |streams|
    ensures n.Some? ==> i <= n.value < |streams| && streams[n.value].ssrc == ssrc
                        && forall m :: i <= m < n.value ==> streams[m].ssrc != ssrc
    ensures n.None? ==> forall m :: i <= m < |streams| ==> streams[m].ssrc != ssrc
    decreases |streams| - i
  {
    if i == |streams| then None
    else if streams[i].ssrc == ssrc then Some(i)
    else FirstFrom(streams, ssrc, i + 1)
  }

  function Get(streams: seq<Stream>, ssrc: Ssrc): Option<Stream>
  {
    match FirstFrom(streams, ssrc, 0)
    case None => None
    case Some(n) => Some(streams[n])
  }

  function Without(streams: seq<Stream>, n: nat): seq<Stream>
    requires n < |streams|
  {
    streams[..n] + streams[n + 1..]
  }

  /** Without the first stream of that SSRC, if there is one. */
  function Removed(streams: seq<Stream>, ssrc: Ssrc): seq<Stream>
  {
    match FirstFrom(streams, ssrc, 0)
    case None => streams
    case Some(n) => Without(streams, n)
  }

  // ----- The list as a map -----

  predicate Distinct(streams: seq<Stream>)
  {
    forall i, j :: 0 <= i < j < |streams| ==> streams[i].ssrc != streams[j].ssrc
  }

  /** `m` is the map the list stands for. */
  ghost predicate Models(streams: seq<Stream>, m: map<Ssrc, Stream>)
  {
    Distinct(streams) && forall k: Ssrc :: Get(streams, k) == if k in m then Some(m[k]) else None
  }

  lemma FirstIs(streams: seq<Stream>, i: nat)
    requires Distinct(streams) && i < |streams|
    ensures FirstFrom(streams, streams[i].ssrc, 0) == Some(i)
  {
  }

  lemma NoneIs(streams: seq<Stream>, ssrc: Ssrc)
    requires forall i :: 0 <= i < |streams| ==> streams[i].ssrc != ssrc
    ensures Get(streams, ssrc) == None
  {
  }

  lemma AppendGet(streams: seq<Stream>, s: Stream, k: Ssrc)
    requires Distinct(streams) && Get(streams, s.ssrc) == None
    ensures Distinct(streams + [s])
    ensures Get(streams + [s], k) == if k == s.ssrc then Some(s) else Get(streams, k)
  {
    var all := streams + [s];
    assert forall i :: 0 <= i < |streams| ==> all[i] == streams[i] && streams[i].ssrc != s.ssrc;
    assert all[|streams|] == s;
    assert Distinct(all);
    if k == s.ssrc {
      FirstIs(all, |streams|);
    } else if Get(streams, k).Some? {
      FirstIs(all, FirstFrom(streams, k, 0).value);
    } else {
      NoneIs(all, k);
    }
  }

  /** Appending a stream with a new SSRC adds one binding. */
  lemma InsertIsUpdate(streams: seq<Stream>, m: map<Ssrc, Stream>, s: Stream)
    requires Models(streams, m) && s.ssrc !in m
    ensures Models(streams + [s], m[s.ssrc := s])
  {
    forall k: Ssrc ensures Distinct(streams + [s]) && Get(streams + [s], k) == if k == s.ssrc then Some(s) else Get(streams, k) {
      AppendGet(streams, s, k);
    }
    AppendGet(streams, s, s.ssrc);
  }

  lemma WithoutGet(streams: seq<Stream>, n: nat, k: Ssrc)
    requires Distinct(streams) && n < |streams|
    ensures Distinct(Without(streams, n))
    ensures Get(Without(streams, n), k) == if k == streams[n].ssrc then None else Get(streams, k)
  {
    var rest := Without(streams, n);
    assert forall i :: 0 <= i < |rest| ==> rest[i] == streams[if i < n then i else i + 1];
    assert Distinct(rest);
    if k != streams[n].ssrc && Get(streams, k).Some? {
      var j := FirstFrom(streams, k, 0).value;
      var i := if j < n then j else j - 1;
      assert rest[i] == streams[j];
      FirstIs(rest, i);
    } else {
      NoneIs(rest, k);
    }
  }

  /** Removing takes exactly that binding away. */
  lemma RemoveIsMinus(streams: seq<Stream>, m: map<Ssrc, Stream>, ssrc: Ssrc)
    requires Models(streams, m)
    ensures Models(Removed(streams, ssrc), m - {ssrc})
  {
    var found := FirstFrom(streams, ssrc, 0);
    if found.Some? {
      forall k: Ssrc ensures Get(Without(streams, found.value), k) == if k == ssrc then None else Get(streams, k) {
        WithoutGet(streams, found.value, k);
      }
      WithoutGet(streams, found.value, ssrc);
    } else {
      assert Get(streams, ssrc) == None;
    }
  }

  /** Writing a stream in place rebinds its SSRC. */
  lemma WriteIsUpdate(streams: seq<Stream>, m: map<Ssrc, Stream>, n: nat, s: Stream)
    requires Models(streams, m) && n < |streams| && streams[n].ssrc == s.ssrc
    ensures Models(streams[n := s], m[s.ssrc := s])
  {
    var all := streams[n := s];
    assert forall i :: 0 <= i < |all| ==> all[i].ssrc == streams[i].ssrc;
    assert Distinct(all);
    forall k: Ssrc ensures Get(all, k) == if k == s.ssrc then Some(s) else Get(streams, k) {
      if k == s.ssrc {
        FirstIs(all, n);
      } else if Get(streams, k).Some? {
        FirstIs(all, FirstFrom(streams, k, 0).value);
      } else {
        NoneIs(all, k);
      }
    }
  }

  // ----- The list in memory -----

  function StreamsOf(entries: seq<Entry>): (s: seq<Stream>)
    ensures |s| == |entries| && forall i :: 0 <= i < |s| ==> s[i] == entries[i].stream
  {
    seq(|entries|, i requires 0 <= i < |entries| => entries[i].stream)
  }

  class List {
    var entries: array<Entry>
    var size: nat
    var ptr: Ptr
    var entriesPtr: Ptr

    ghost predicate Valid()
      reads this, entries
    {
      0 < entries.Length <= MAX_CAPACITY && size <= entries.Length
      && forall i :: 0 <= i < size ==> entries[i].ssrc == entries[i].stream.ssrc
    }

    function Contents(): seq<Stream>
      requires size <= entries.Length
      reads this, entries
    {
      StreamsOf(entries[..size])
    }

    /** srtp_stream_list_alloc */
    constructor (heap: Heap)
      requires heap.Valid()
      modifies heap
      ensures Valid() && fresh(entries) && Contents() == []
      ensures heap.Valid() && Made(old(Now(heap)), [ptr, entriesPtr], Now(heap))
    {
      hide Made;
      NothingMade(Now(heap));
      var p := AllocNext(heap, old(Now(heap)), []);
      var q := AllocNext(heap, old(Now(heap)), [] + [p]);
      assert [] + [p] + [q] == [p, q];
      entries := new Entry[INITIAL_SIZE];
      size, ptr, entriesPtr := 0, p, q;
    }

    /** srtp_stream_list_get */
    method Get(ssrc: Ssrc) returns (n: Option<nat>)
      requires Valid()
      ensures n == FirstFrom(Contents(), ssrc, 0)
    {
      var i := 0;
      while i < size
        invariant i <= size
        invariant FirstFrom(Contents(), ssrc, 0) == FirstFrom(Contents(), ssrc, i)
      {
        if entries[i].ssrc == ssrc { return Some(i); }
        i := i + 1;
      }
      return None;
    }

    /** Doubles the buffer; fails when the doubled one would be too large. */
    method Grow(heap: Heap) returns (ok: bool)
      requires Valid() && heap.Valid() && entriesPtr in heap.live
      modifies this, heap
      ensures Valid() && heap.Valid() && Contents() == old(Contents()) && ptr == old(ptr) && size == old(size)
      ensures heap.next >= old(heap.next)
      ensures ok == (2 * old(entries.Length) <= MAX_CAPACITY)
      ensures ok ==> fresh(entries) && entries.Length == 2 * old(entries.Length)
      ensures ok ==> heap.live == old(heap.live) - {old(entriesPtr)} + {entriesPtr} && entriesPtr == old(heap.next) < heap.next
      ensures !ok ==> entries == old(entries) && entriesPtr == old(entriesPtr) && heap.live == old(heap.live)
    {
      var newCapacity := entries.Length * 2;
      if newCapacity > MAX_CAPACITY { return false; }
      var newPtr := heap.Alloc();
      var newEntries := new Entry[newCapacity];
      forall i | 0 <= i < entries.Length { newEntries[i] := entries[i]; }
      heap.Free(entriesPtr);
      entries, entriesPtr := newEntries, newPtr;
      return true;
    }

    /** srtp_stream_list_insert: room is made first if there is none. */
    method Insert(heap: Heap, stream: Stream) returns (ok: bool)
      requires Valid() && heap.Valid() && entriesPtr in heap.live
      modifies this, entries, heap
      ensures Valid() && heap.Valid() && ptr == old(ptr) && heap.next >= old(heap.next)
      ensures ok == (old(size) < old(entries.Length) || 2 * old(entries.Length) <= MAX_CAPACITY)
      ensures Contents() == if ok then old(Contents()) + [stream] else old(Contents())
      ensures entries == old(entries) || fresh(entries)
      ensures heap.live == old(heap.live) - {old(entriesPtr)} + {entriesPtr}
      ensures entriesPtr == old(entriesPtr) || old(heap.next) <= entriesPtr < heap.next
    {
      ok := true;
      if size == entries.Length {
        ok := Grow(heap);
        if !ok { return; }
      }
      entries[size] := Entry(stream.ssrc, stream);
      size := size + 1;
    }

    /** srtp_stream_list_remove: later entries move one place down. */
    method Remove(ssrc: Ssrc)
      requires Valid()
      modifies this`size, entries
      ensures Valid() && Contents() == Removed(old(Contents()), ssrc)
    {
      ghost var was := Contents();
      var i := 0;
      while i < size
        invariant i <= size && size == old(size) && Valid() && Contents() == was
        invariant FirstFrom(was, ssrc, 0) == FirstFrom(was, ssrc, i)
      {
        if entries[i].ssrc == ssrc {
          forall k | i <= k < size - 1 { entries[k] := entries[k + 1]; }
          size := size - 1;
          assert Contents() == Without(was, i);
          return;
        }
        i := i + 1;
      }
    }

    /** srtp_stream_list_dealloc */
    method Dealloc(heap: Heap) returns (ok: bool)
      requires Valid() && heap.Valid() && ptr in heap.live && entriesPtr in heap.live && ptr != entriesPtr
      modifies heap
      ensures heap.Valid() && heap.next == old(heap.next) && ok == (size == 0)
      ensures heap.live == if ok then old(heap.live) - {entriesPtr} - {ptr} else old(heap.live)
    {
      if size != 0 { return false; }
      heap.Free(entriesPtr);
      heap.Free(ptr);
      return true;
    }

    /** A field of the stream in one entry is written. */
    method Update(n: nat, stream: Stream)
      requires Valid() && n < size && stream.ssrc == Contents()[n].ssrc
      modifies entries
      ensures Valid() && Contents() == old(Contents())[n := stream]
    {
      entries[n] := entries[n].(stream := stream);
    }
  }
}
