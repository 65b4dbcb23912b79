/** Key expansion (section 5.2 of FIPS 197) and the block functions of aes.c on an expanded key. */
module AesKeys {
  import opened AesField
  import opened AesSbox
  import opened AesRounds
  import opened AesCipher

  const MAX_ROUND_KEYS := 15

  // ----- The schedule of FIPS 197 -----

  function RotCol(c: Col): Col { Col(c.b, c.c, c.d, c.a) }

  /** x to the power j - 1. */
  function RoundConstant(j: nat): bv8
  {
    if j <= 1 then 1 else XTime(RoundConstant(j - 1))
  }

  /** Word i of the schedule of a key of four or of eight words. */
  function Word(key: seq<Col>, i: nat): Col
    requires |key| == 4 || |key| == 8
  {
    if i < |key| then key[i]
    else
      var temp := Word(key, i - 1);
      AddCol(Word(key, i - |key|),
             if |key| == 4 then
               if i % 4 == 0 then AddCol(SubCol(RotCol(temp)), Col(RoundConstant(i / 4), 0, 0, 0)) else temp
             else
               if i % 8 == 0 then AddCol(SubCol(RotCol(temp)), Col(RoundConstant(i / 8), 0, 0, 0))
               else if i % 8 == 4 then SubCol(temp)
               else temp)
  }

  function RoundKey(key: seq<Col>, m: nat): Block
    requires |key| == 4 || |key| == 8
  {
    Block(Word(key, 4 * m), Word(key, 4 * m + 1), Word(key, 4 * m + 2), Word(key, 4 * m + 3))
  }

  /** The words of a key of 16 or 32 octets. */
  function Words(key: seq<bv8>): (w: seq<Col>)
    requires |key| == 16 || |key| == 32
    ensures |w| == |key| / 4
  {
    seq(|key| / 4, i requires 0 <= i < |key| / 4 => ColOf(key, 4 * i))
  }

  function Rounds(key: seq<bv8>): nat
    requires |key| == 16 || |key| == 32
  {
    if |key| == 16 then 10 else 14
  }

  /** Round keys 0 to the last. */
  function Schedule(key: seq<bv8>): (s: seq<Block>)
    requires |key| == 16 || |key| == 32
    ensures |s| == Rounds(key) + 1
  {
    seq(Rounds(key) + 1, m requires 0 <= m => RoundKey(Words(key), m))
  }

  // ----- One round key from those before -----

  /** The words after the first follow by adding. */
  function Chain(first: Col, p: Block): Block
  {
    var w1 := AddCol(first, p.c1);
    var w2 := AddCol(w1, p.c2);
    Block(first, w1, w2, AddCol(w2, p.c3))
  }

  function Munged(c: Col, rc: bv8): Col { AddCol(SubCol(RotCol(c)), Col(rc, 0, 0, 0)) }

  lemma AddColSwaps(x: Col, y: Col)
    ensures AddCol(x, y) == AddCol(y, x)
  {
  }

  lemma PlainWord(key: seq<Col>, m: nat, j: nat)
    requires (|key| == 4 || |key| == 8) && 4 * m >= |key| && 1 <= j <= 3
    ensures Word(key, 4 * m + j) == AddCol(Word(key, 4 * m + j - 1), Word(key, 4 * m + j - |key|))
  {
    hide AddCol, SubCol, RotCol, RoundConstant;
    var i := 4 * m + j;
    AddColSwaps(Word(key, i - 1), Word(key, i - |key|));
    NotFourth(m, j);
  }

  lemma NotFourth(m: nat, j: nat)
    requires 1 <= j <= 3
    ensures (4 * m + j) % 4 == j && (4 * m + j) % 8 != 0 && (4 * m + j) % 8 != 4
  {
    var half := m / 2;
    if m % 2 == 0 {
      assert 4 * m + j == 8 * half + j;
    } else {
      assert 4 * m + j == 8 * half + (4 + j);
    }
  }

  lemma FirstWord128(key: seq<Col>, m: nat)
    requires |key| == 4 && m >= 1
    ensures Word(key, 4 * m) == AddCol(Munged(Word(key, 4 * m - 1), RoundConstant(m)), Word(key, 4 * m - 4))
  {
    hide AddCol, SubCol, RotCol;
    AddColSwaps(Munged(Word(key, 4 * m - 1), RoundConstant(m)), Word(key, 4 * m - 4));
    assert 4 * m % 4 == 0 && 4 * m / 4 == m;
  }

  lemma FirstWord256(key: seq<Col>, m: nat)
    requires |key| == 8 && m >= 2
    ensures var temp := Word(key, 4 * m - 1);
            Word(key, 4 * m)
            == AddCol(if m % 2 == 0 then Munged(temp, RoundConstant(m / 2)) else SubCol(temp), Word(key, 4 * m - 8))
  {
    hide AddCol, SubCol, RotCol;
    var temp, half := Word(key, 4 * m - 1), m / 2;
    AddColSwaps(if m % 2 == 0 then Munged(temp, RoundConstant(half)) else SubCol(temp), Word(key, 4 * m - 8));
    if m % 2 == 0 {
      assert 4 * m == 8 * half && 4 * m % 8 == 0 && 4 * m / 8 == half;
    } else {
      assert 4 * m == 8 * half + 4 && 4 * m % 8 == 4;
    }
  }

  lemma NextKey128(key: seq<Col>, m: nat)
    requires |key| == 4 && m >= 1
    ensures var p := RoundKey(key, m - 1);
            RoundKey(key, m) == Chain(AddCol(Munged(p.c3, RoundConstant(m)), p.c0), p)
  {
    hide AddCol, Munged, Word, RoundConstant;
    FirstWord128(key, m);
    PlainWord(key, m, 1);
    PlainWord(key, m, 2);
    PlainWord(key, m, 3);
  }

  lemma NextKey256(key: seq<Col>, m: nat)
    requires |key| == 8 && m >= 2
    ensures var p, q := RoundKey(key, m - 1), RoundKey(key, m - 2);
            RoundKey(key, m)
            == Chain(AddCol(if m % 2 == 0 then Munged(p.c3, RoundConstant(m / 2)) else SubCol(p.c3), q.c0), q)
  {
    hide AddCol, Munged, Word, RoundConstant, SubCol;
    FirstWord256(key, m);
    PlainWord(key, m, 1);
    PlainWord(key, m, 2);
    PlainWord(key, m, 3);
  }

  // ----- The expanded key -----

  /** The round keys that expansion writes, before what the structure held after them. */
  function Expanded(was: seq<Block>, key: seq<bv8>): (r: seq<Block>)
    requires (|key| == 16 || |key| == 32) && |was| == MAX_ROUND_KEYS
    ensures |r| == MAX_ROUND_KEYS
  {
    Schedule(key) + was[Rounds(key) + 1..]
  }

  predicate KeyLengthOk(key: seq<bv8>) { |key| == 16 || |key| == 32 }

  class ExpandedKey {
    const round: array<Block>
    var numRounds: nat

    ghost predicate Valid()
      reads this
    {
      round.Length == MAX_ROUND_KEYS && numRounds < MAX_ROUND_KEYS
    }

    /** As the caller leaves the structure: any contents. */
    constructor (contents: array<Block>, rounds: nat)
      requires contents.Length == MAX_ROUND_KEYS && rounds < MAX_ROUND_KEYS
      ensures Valid() && round == contents && numRounds == rounds
    {
      round, numRounds := contents, rounds;
    }

    /** aes_128_expand_encryption_key */
    method Expand128(key: seq<bv8>)
      requires Valid() && |key| == 16
      modifies this`numRounds, round
      ensures Valid() && numRounds == 10 && round[..] == Expanded(old(round[..]), key)
    {
      hide Word, AddCol, SubCol, RoundConstant;
      var rc: bv8 := RoundConstant(1);
      ghost var was := round[..];
      var w := Words(key);
      numRounds := 10;
      round[0] := BlockOf(key);
      FirstKeys(w);
      var i := 1;
      while i < 11
        invariant 1 <= i <= 11 && rc == RoundConstant(i) && numRounds == 10
        invariant forall m :: 0 <= m < i ==> round[m] == RoundKey(w, m)
        invariant forall m :: i <= m < MAX_ROUND_KEYS ==> round[m] == was[m]
      {
        NextKey128(w, i);
        round[i] := Chain(AddCol(Munged(round[i - 1].c3, rc), round[i - 1].c0), round[i - 1]);
        NextConstant(i);
        rc := XTime(rc);
        i := i + 1;
      }
      assert round[..] == Expanded(was, key);
    }

    /** aes_256_expand_encryption_key */
    method Expand256(key: seq<bv8>)
      requires Valid() && |key| == 32
      modifies this`numRounds, round
      ensures Valid() && numRounds == 14 && round[..] == Expanded(old(round[..]), key)
    {
      hide Word, AddCol, SubCol, RoundConstant, RoundKey, Chain, Munged, XTime;
      var rc: bv8 := RoundConstant(1);
      var w := Words(key);
      numRounds := 14;
      round[0] := BlockOf(key[..16]);
      round[1] := BlockOf(key[16..]);
      FirstKeys(w);
      hide Words, BlockOf, ColOf;
      var i := 2;
      while i < 15
        invariant 2 <= i <= 15 && rc == RoundConstant((i + 1) / 2) && numRounds == 14
        invariant forall m :: 0 <= m < i ==> round[m] == RoundKey(w, m)
      {
        rc := NextRound256(w, i, rc);
        i := i + 1;
      }
      assert round[..] == Schedule(key);
    }

    /** One round key of the longer schedule, and the constant for the next that needs one. */
    method NextRound256(ghost w: seq<Col>, i: nat, rc: bv8) returns (next: bv8)
      requires round.Length == MAX_ROUND_KEYS && 2 <= i < 15 && |w| == 8 && rc == RoundConstant((i + 1) / 2)
      requires round[i - 1] == RoundKey(w, i - 1) && round[i - 2] == RoundKey(w, i - 2)
      modifies round
      ensures round[i] == RoundKey(w, i) && next == RoundConstant((i + 2) / 2)
      ensures forall m :: 0 <= m < MAX_ROUND_KEYS && m != i ==> round[m] == old(round[m])
    {
      hide Word, AddCol, SubCol, RoundConstant, RoundKey, Chain, Munged, XTime;
      NextKey256(w, i);
      var first := SubCol(round[i - 1].c3);
      next := rc;
      if i % 2 == 0 {
        first := Munged(round[i - 1].c3, rc);
        NextConstant(i / 2);
        next := XTime(rc);
      }
      round[i] := Chain(AddCol(first, round[i - 2].c0), round[i - 2]);
    }

    /** srtp_aes_expand_encryption_key */
    method ExpandEncryptionKey(key: seq<bv8>) returns (ok: bool)
      requires Valid()
      modifies this`numRounds, round
      ensures Valid() && ok == KeyLengthOk(key)
      ensures ok ==> numRounds == Rounds(key) && round[..] == Expanded(old(round[..]), key)
      ensures !ok ==> numRounds == old(numRounds) && round[..] == old(round[..])
    {
      hide Expanded;
      if |key| == 16 {
        Expand128(key);
        return true;
      }
      if |key| == 32 {
        Expand256(key);
        return true;
      }
      return false;
    }

    /** Inverts the order of round keys 0 to n. */
    method Reverse(n: nat)
      requires round.Length == MAX_ROUND_KEYS && n < MAX_ROUND_KEYS
      modifies round
      ensures forall m :: 0 <= m < MAX_ROUND_KEYS ==> round[m] == old(round[Turned(n, m)])
    {
      var i := 0;
      while i < n / 2
        invariant 0 <= i <= n / 2
        invariant forall m :: 0 <= m <= n ==> round[m] == if m < i || m > n - i then old(round[n - m]) else old(round[m])
        invariant forall m :: n < m < MAX_ROUND_KEYS ==> round[m] == old(round[m])
      {
        round[n - i], round[i] := round[i], round[n - i];
        i := i + 1;
      }
    }

    /** The inverse mix of round keys 1 to n - 1, by the tables U after the substitution. */
    method InvMixInner(n: nat)
      requires round.Length == MAX_ROUND_KEYS && n < MAX_ROUND_KEYS
      modifies round
      ensures forall m :: 0 <= m < MAX_ROUND_KEYS
                ==> round[m] == if 0 < m < n then InvMixColumns(old(round[m])) else old(round[m])
    {
      hide InvMix, SumCols, U0, U1, U2, U3, Sbox;
      var i := 1;
      while i < n
        invariant 1 <= i && (n > 0 ==> i <= n)
        invariant forall m :: 0 <= m < MAX_ROUND_KEYS
                    ==> round[m] == if 0 < m < i && m < n then InvMixColumns(old(round[m])) else old(round[m])
      {
        var k := round[i];
        var c0 := SumCols(U0(Sbox(k.c0.a)), U1(Sbox(k.c0.b)), U2(Sbox(k.c0.c)), U3(Sbox(k.c0.d)));
        var c1 := SumCols(U0(Sbox(k.c1.a)), U1(Sbox(k.c1.b)), U2(Sbox(k.c1.c)), U3(Sbox(k.c1.d)));
        var c2 := SumCols(U0(Sbox(k.c2.a)), U1(Sbox(k.c2.b)), U2(Sbox(k.c2.c)), U3(Sbox(k.c2.d)));
        var c3 := SumCols(U0(Sbox(k.c3.a)), U1(Sbox(k.c3.b)), U2(Sbox(k.c3.c)), U3(Sbox(k.c3.d)));
        InverseTablesAfterSbox(k.c0);
        InverseTablesAfterSbox(k.c1);
        InverseTablesAfterSbox(k.c2);
        InverseTablesAfterSbox(k.c3);
        round[i] := Block(c0, c1, c2, c3);
        i := i + 1;
      }
    }

    /** srtp_aes_expand_decryption_key.  The number of rounds is read before the expansion sets it, so the
        schedule is turned round by what the structure held on entry. */
    method ExpandDecryptionKey(key: seq<bv8>) returns (ok: bool)
      requires Valid()
      modifies this`numRounds, round
      ensures Valid() && ok == KeyLengthOk(key)
      ensures ok ==> numRounds == Rounds(key)
      ensures ok ==> round[..] == DecryptionSchedule(Expanded(old(round[..]), key), old(numRounds))
      ensures !ok ==> numRounds == old(numRounds) && round[..] == old(round[..])
    {
      hide InvMixColumns, Expanded, Word;
      var n := numRounds;
      ok := ExpandEncryptionKey(key);
      if !ok { return; }
      ghost var all := round[..];
      Reverse(n);
      InvMixInner(n);
      assert round[..] == DecryptionSchedule(all, n);
    }

    /** srtp_aes_encrypt: nine rounds, then as many as the number of rounds asks for. */
    method AesEncrypt(state: array<bv8>)
      requires Valid() && state.Length == BLOCK_SIZE
      modifies state
      ensures BlockOf(state[..]) == EncryptBlock(old(BlockOf(state[..])), round[..], numRounds)
    {
      hide Round, FinalRound, AddKey;
      ghost var s := BlockOf(state[..]);
      XorKey(state, round[0]);
      var i := 1;
      while i < 10
        invariant 1 <= i <= 10 && BlockOf(state[..]) == StateBefore(s, round[..], i)
      {
        AesRound(state, round[i]);
        i := i + 1;
      }
      if numRounds == 10 || numRounds == 12 || numRounds == 14 {
        while i < numRounds
          invariant 10 <= i <= numRounds && BlockOf(state[..]) == StateBefore(s, round[..], i)
        {
          AesRound(state, round[i]);
          i := i + 1;
        }
        AesFinalRound(state, round[numRounds]);
        EncryptFromState(s, round[..], 1, numRounds);
      }
    }

    /** srtp_aes_decrypt */
    method AesDecrypt(state: array<bv8>)
      requires Valid() && state.Length == BLOCK_SIZE
      modifies state
      ensures BlockOf(state[..]) == DecryptBlock(old(BlockOf(state[..])), round[..], numRounds)
    {
      hide InvRound, InvFinalRound, AddKey;
      ghost var s := BlockOf(state[..]);
      XorKey(state, round[0]);
      var i := 1;
      while i < 10
        invariant 1 <= i <= 10 && BlockOf(state[..]) == InvStateBefore(s, round[..], i)
      {
        AesInvRound(state, round[i]);
        i := i + 1;
      }
      if numRounds == 10 || numRounds == 12 || numRounds == 14 {
        while i < numRounds
          invariant 10 <= i <= numRounds && BlockOf(state[..]) == InvStateBefore(s, round[..], i)
        {
          AesInvRound(state, round[i]);
          i := i + 1;
        }
        AesInvFinalRound(state, round[numRounds]);
        DecryptFromInvState(s, round[..], 1, numRounds);
      }
    }
  }

  /** The state before inverse round i. */
  function InvStateBefore(s: Block, keys: seq<Block>, i: nat): Block
    requires 1 <= i <= |keys|
  {
    if i == 1 then AddKey(s, keys[0]) else InvRound(InvStateBefore(s, keys, i - 1), keys[i - 1])
  }

  predicate RoundsKnown(n: nat) { n == 10 || n == 12 || n == 14 }

  /** Without one of the three round counts no final round follows the first nine. */
  function EncryptBlock(s: Block, keys: seq<Block>, n: nat): Block
    requires |keys| == MAX_ROUND_KEYS
  {
    if RoundsKnown(n) then Encrypt(s, keys, n) else StateBefore(s, keys, 10)
  }

  /** Where round key m comes from when keys 0 to n are turned round by swapping n / 2 pairs: of an odd n
      the two in the middle stay. */
  function Turned(n: nat, m: nat): (t: nat)
    requires m < MAX_ROUND_KEYS && n < MAX_ROUND_KEYS
    ensures t < MAX_ROUND_KEYS
  {
    if m < n / 2 || n - n / 2 < m <= n then n - m else m
  }

  function DecryptionSchedule(all: seq<Block>, n: nat): (d: seq<Block>)
    requires |all| == MAX_ROUND_KEYS && n < MAX_ROUND_KEYS
    ensures |d| == MAX_ROUND_KEYS
  {
    seq(MAX_ROUND_KEYS, m requires 0 <= m < MAX_ROUND_KEYS =>
      var k := all[Turned(n, m)]; if 0 < m < n then InvMixColumns(k) else k)
  }

  /** With an even number of rounds this is the schedule of section 5.3.5 of FIPS 197. */
  lemma EvenIsReversed(all: seq<Block>, n: nat)
    requires |all| == MAX_ROUND_KEYS && 2 <= n < MAX_ROUND_KEYS && n % 2 == 0
    ensures DecryptionSchedule(all, n) == Reversed(all, n)
  {
    hide InvMixColumns;
    var d, r := DecryptionSchedule(all, n), Reversed(all, n);
    forall m | 0 <= m < MAX_ROUND_KEYS ensures d[m] == r[m] {
      assert Turned(n, m) == if m <= n then n - m else m;
    }
  }

  // ----- The inverse -----

  lemma {:induction false} DecryptFromInvState(s: Block, keys: seq<Block>, i: nat, n: nat)
    requires 1 <= i <= n < |keys|
    ensures DecryptFrom(InvStateBefore(s, keys, i), keys, i, n) == InvFinalRound(InvStateBefore(s, keys, n), keys[n])
    decreases n - i
  {
    hide InvRound, InvFinalRound, AddKey;
    if i < n { DecryptFromInvState(s, keys, i + 1, n); }
  }

  function DecryptBlock(s: Block, keys: seq<Block>, n: nat): Block
    requires |keys| == MAX_ROUND_KEYS
  {
    if RoundsKnown(n) then Decrypt(s, keys, n) else InvStateBefore(s, keys, 10)
  }

  /** Round keys beyond the last are never used. */
  lemma {:induction false} EncryptPrefix(s: Block, keys: seq<Block>, other: seq<Block>, i: nat, n: nat)
    requires 1 <= i <= n < |keys| && n < |other| && forall m :: 0 <= m <= n ==> keys[m] == other[m]
    ensures EncryptFrom(s, keys, i, n) == EncryptFrom(s, other, i, n)
    decreases n - i
  {
    hide Round, FinalRound;
    if i < n { EncryptPrefix(Round(s, keys[i]), keys, other, i + 1, n); }
  }

  /** For every key of 16 or 32 octets and every block: expanding the key for encryption into one structure
      and for decryption into another, whatever they held, srtp_aes_decrypt undoes srtp_aes_encrypt, given
      that the second structure came with the number of rounds the key needs. */
  lemma AesInverse(key: seq<bv8>, s: Block, was: seq<Block>, wasToo: seq<Block>, rounds: nat)
    requires KeyLengthOk(key) && |was| == MAX_ROUND_KEYS == |wasToo| && rounds == Rounds(key)
    ensures DecryptBlock(EncryptBlock(s, Expanded(was, key), Rounds(key)),
                         DecryptionSchedule(Expanded(wasToo, key), rounds), Rounds(key))
         == s
  {
    var n, e, d := Rounds(key), Expanded(was, key), Expanded(wasToo, key);
    SameKeys(key, was, wasToo);
    hide Schedule, Expanded, Reversed, EncryptFrom, DecryptFrom, AddKey;
    EncryptPrefix(AddKey(s, e[0]), e, d, 1, n);
    DecryptUndoesEncrypt(s, d, n);
    EvenIsReversed(d, n);
  }

  /** The round keys do not depend on what the structure held. */
  lemma SameKeys(key: seq<bv8>, was: seq<Block>, wasToo: seq<Block>)
    requires KeyLengthOk(key) && |was| == MAX_ROUND_KEYS == |wasToo|
    ensures forall m :: 0 <= m <= Rounds(key) ==> Expanded(was, key)[m] == Expanded(wasToo, key)[m]
  {
    hide Schedule;
  }

  lemma NextConstant(i: nat)
    requires i >= 1
    ensures RoundConstant(i + 1) == XTime(RoundConstant(i))
  {
  }

  lemma FirstKeys(w: seq<Col>)
    requires |w| == 4 || |w| == 8
    ensures RoundKey(w, 0) == Block(w[0], w[1], w[2], w[3])
    ensures |w| == 8 ==> RoundKey(w, 1) == Block(w[4], w[5], w[6], w[7])
  {
    hide AddCol, SubCol, RoundConstant;
  }
}
