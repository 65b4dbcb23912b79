/** Annex-B byte streams: every NAL unit behind a four-byte start code, and back. */
module AnnexB {
  import opened Bytes

  type Nal = seq<Byte>

  const START_CODE: seq<Byte> := [0, 0, 0, 1]

  function NalType(nal: Nal): nat
    requires nal != []
  {
    nal[0] % 32
  }

  function Join(nals: seq<Nal>): seq<Byte>
  {
    if nals == [] then [] else Join(nals[..|nals| - 1]) + START_CODE + nals[|nals| - 1]
  }

  lemma JoinSnoc(nals: seq<Nal>, nal: Nal)
    ensures Join(nals + [nal]) == Join(nals) + START_CODE + nal
  {
    assert (nals + [nal])[..|nals|] == nals;
  }

  lemma {:induction false} JoinConcat(a: seq<Nal>, b: seq<Nal>)
    ensures Join(a + b) == Join(a) + Join(b)
  {
    if b == [] {
      assert a + b == a && Join(b) == [];
    } else {
      var k := |b| - 1;
      JoinConcat(a, b[..k]);
      hide Join;
      assert a + b == (a + b[..k]) + [b[k]] && b == b[..k] + [b[k]];
      JoinSnoc(a + b[..k], b[k]);
      JoinSnoc(b[..k], b[k]);
    }
  }

  lemma JoinEmpty(nals: seq<Nal>)
    ensures Join(nals) == [] <==> nals == []
  {
  }

  // ----- Splitting at start codes -----

  predicate StartsAt(s: seq<Byte>, i: nat)
  {
    i + 4 <= |s| && s[i] == s[i + 1] == s[i + 2] == 0 && s[i + 3] == 1
  }

  function NextStart(s: seq<Byte>, i: nat): (j: nat)
    requires i <= |s|
    ensures i <= j <= |s| && (j < |s| ==> StartsAt(s, j))
    ensures forall n :: i <= n < j ==> !StartsAt(s, n)
    decreases |s| - i
  {
    if i == |s| || StartsAt(s, i) then i else NextStart(s, i + 1)
  }

  /** The NAL units between consecutive start codes; None when the stream does not begin with one. */
  function Split(s: seq<Byte>): Option<seq<Nal>>
    decreases |s|
  {
    if s == [] then Some([])
    else if !StartsAt(s, 0) then None
    else
      var j := NextStart(s, 4);
      match Split(s[j..])
      case None => None
      case Some(rest) => Some([s[4..j]] + rest)
  }

  /** What section 7.4.1 of ITU-T H.264 demands of a NAL unit: emulation prevention and a last byte
      that is not zero. */
  predicate Encapsulated(nal: Nal)
  {
    && nal != [] && nal[|nal| - 1] != 0
    && forall i :: 0 <= i < |nal| - 2 ==> !(nal[i] == 0 && nal[i + 1] == 0 && nal[i + 2] <= 2)
  }

  lemma {:induction false} NextStartIs(s: seq<Byte>, i: nat, j: nat)
    requires i <= j <= |s| && (j < |s| ==> StartsAt(s, j))
    requires forall n :: i <= n < j ==> !StartsAt(s, n)
    ensures NextStart(s, i) == j
  {
  }

  /** No start code begins inside a well-formed NAL unit, even straddling its end. */
  lemma NoStartInside(nal: Nal, rest: seq<Byte>, n: nat)
    requires Encapsulated(nal) && 4 <= n < 4 + |nal|
    ensures !StartsAt(START_CODE + nal + rest, n)
  {
    var s := START_CODE + nal + rest;
    assert forall m :: 4 <= m < 4 + |nal| ==> s[m] == nal[m - 4];
  }

  lemma {:induction false} JoinCons(nals: seq<Nal>)
    requires nals != []
    ensures Join(nals) == START_CODE + nals[0] + Join(nals[1..])
  {
    assert nals == [nals[0]] + nals[1..];
    JoinConcat([nals[0]], nals[1..]);
    JoinSnoc([], nals[0]);
    assert [] + [nals[0]] == [nals[0]];
  }

  lemma SplitOne(nal: Nal, rest: seq<Byte>)
    requires Encapsulated(nal) && (rest != [] ==> StartsAt(rest, 0))
    ensures var s := START_CODE + nal + rest;
            Split(s) == if Split(rest).None? then None else Some([nal] + Split(rest).value)
  {
    var s := START_CODE + nal + rest;
    var j := 4 + |nal|;
    assert s[4..j] == nal && s[j..] == rest;
    forall n | 4 <= n < j
      ensures !StartsAt(s, n)
    {
      NoStartInside(nal, rest, n);
    }
    hide Encapsulated;
    assert rest != [] ==> StartsAt(s, j);
    NextStartIs(s, 4, j);
  }

  /** An Annex-B stream determines the NAL units it was made from. */
  lemma {:induction false} SplitJoin(nals: seq<Nal>)
    requires forall i :: 0 <= i < |nals| ==> Encapsulated(nals[i])
    ensures Split(Join(nals)) == Some(nals)
  {
    if nals != [] {
      hide Encapsulated;
      JoinCons(nals);
      SplitJoin(nals[1..]);
      if nals[1..] != [] { JoinCons(nals[1..]); }
      hide Join, Split;
      SplitOne(nals[0], Join(nals[1..]));
      assert nals == [nals[0]] + nals[1..];
    }
  }
}
