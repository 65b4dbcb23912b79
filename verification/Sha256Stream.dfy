/** The SHA-256 context of auth.h, updated in place: however a message is cut into updates, the context
    stands for the message so far, and finishing gives its FIPS 180-4 hash. */
module Sha256Stream {
  import opened Bytes
  import opened Sha256

  const LIMIT := 0x1_0000_0000_0000_0000

  lemma DivMod64(x: nat, n: nat, r: nat)
    requires x == 64 * n + r && r < 64
    ensures x / 64 == n && x % 64 == r
  {
  }

  /** One more block of a longer message. */
  lemma AbsorbNext(msg: seq<Byte>, total: seq<Byte>, n: nat, block: seq<Byte>)
    requires msg <= total && 64 * n <= |msg| && 64 * n + 64 <= |total| && block == total[64 * n..64 * n + 64]
    ensures Absorb(total, n + 1) == Compress(Absorb(msg, n), block)
  {
    assert total == msg + total[|msg|..];
    AbsorbPrefix(msg, total[|msg|..], n);
  }

  /** `data` stays within the block that `msg` has begun. */
  lemma TailGrows(msg: seq<Byte>, data: seq<Byte>, n: nat, used: nat)
    requires |msg| == 64 * n + used && used + |data| < 64
    ensures |msg + data| / 64 == n && |msg + data| % 64 == used + |data|
    ensures Absorb(msg + data, n) == Absorb(msg, n) && (msg + data)[64 * n..] == msg[64 * n..] + data
  {
    DivMod64(|msg + data|, n, used + |data|);
    AbsorbPrefix(msg, data, n);
  }

  /** `data` begins by completing the block that `msg` has begun. */
  lemma BlockCompletes(msg: seq<Byte>, data: seq<Byte>, n: nat, used: nat)
    requires |msg| == 64 * n + used && used < 64 && 64 - used <= |data|
    ensures Absorb(msg + data, n + 1) == Compress(Absorb(msg, n), msg[64 * n..] + data[..64 - used])
  {
    var block := msg[64 * n..] + data[..64 - used];
    assert block == (msg + data)[64 * n..64 * n + 64];
    AbsorbNext(msg, msg + data, n, block);
  }

  /** The next block lies wholly in `data`. */
  lemma NextBlock(msg: seq<Byte>, data: seq<Byte>, pos: nat, n: nat)
    requires |msg| + pos == 64 * n && pos + 64 <= |data|
    ensures Absorb(msg + data, n + 1) == Compress(Absorb(msg + data, n), data[pos..pos + 64])
  {
    var block := data[pos..pos + 64];
    assert block == (msg + data)[64 * n..64 * n + 64];
    AbsorbNext(msg + data, msg + data, n, block);
    hide Absorb, Compress;
  }

  lemma Leftover(msg: seq<Byte>, data: seq<Byte>, pos: nat, n: nat)
    requires |msg| + pos == 64 * n && pos <= |data| < pos + 64
    ensures var total := msg + data;
            |total| / 64 == n && |total| % 64 == |data| - pos && total[64 * n..] == data[pos..]
  {
    DivMod64(|msg + data|, n, |data| - pos);
  }

  lemma AbsorbBlock(head: seq<Byte>, block: seq<Byte>, n: nat)
    requires |head| == 64 * n && |block| == 64
    ensures Absorb(head + block, n + 1) == Compress(Absorb(head, n), block)
  {
    assert (head + block)[64 * n..64 * n + 64] == block;
    AbsorbNext(head, head + block, n, block);
    hide Absorb, Compress;
  }

  /** The last block, when what the message has begun leaves room for the length. */
  function OnlyPadBlock(tail: seq<Byte>, length: nat): (b: seq<Byte>)
    requires |tail| < 56 && length < 0x2000_0000_0000_0000
    ensures |b| == 64
  {
    tail + [0x80] + Zeros(55 - |tail|) + BE64(8 * length)
  }

  /** The last but one block, when it does not. */
  function FirstPadBlock(tail: seq<Byte>): (b: seq<Byte>)
    requires 56 <= |tail| < 64
    ensures |b| == 64
  {
    tail + [0x80] + Zeros(63 - |tail|)
  }

  function SecondPadBlock(length: nat): (b: seq<Byte>)
    requires length < 0x2000_0000_0000_0000
    ensures |b| == 64
  {
    Zeros(56) + BE64(8 * length)
  }

  lemma LastBlock(head: seq<Byte>, tail: seq<Byte>, n: nat)
    requires |head| == 64 * n && |tail| < 56 && |head + tail| < 0x2000_0000_0000_0000
    ensures Hash(head + tail) == Digest(Compress(Absorb(head + tail, n), OnlyPadBlock(tail, |head + tail|)))
  {
    hide Absorb, Compress, Digest, Pad, OnlyPadBlock;
    var last := OnlyPadBlock(tail, |head + tail|);
    PadOneBlock(head, tail, n);
    DivMod64(|head + last|, n + 1, 0);
    assert Hash(head + tail) == Digest(Absorb(head + last, n + 1));
    hide *;
    AbsorbBlock(head, last, n);
    AbsorbPrefix(head, tail, n);
  }

  lemma PadOneBlock(head: seq<Byte>, tail: seq<Byte>, n: nat)
    requires |head| == 64 * n && |tail| < 56 && |head + tail| < 0x2000_0000_0000_0000
    ensures Pad(head + tail) == head + OnlyPadBlock(tail, |head + tail|)
  {
    DivMod64(|head + tail|, n, |tail|);
    assert PadZeros(|head + tail|) == 55 - |tail|;
    hide BE64, Zeros, PadZeros;
  }

  lemma LastTwoBlocks(head: seq<Byte>, tail: seq<Byte>, n: nat)
    requires |head| == 64 * n && 56 <= |tail| < 64 && |head + tail| < 0x2000_0000_0000_0000
    ensures Hash(head + tail)
         == Digest(Compress(Compress(Absorb(head + tail, n), FirstPadBlock(tail)), SecondPadBlock(|head + tail|)))
  {
    hide Absorb, Compress, Digest, Pad, FirstPadBlock, SecondPadBlock;
    var first, second := FirstPadBlock(tail), SecondPadBlock(|head + tail|);
    PadTwoBlocks(head, tail, n);
    DivMod64(|head + first + second|, n + 2, 0);
    assert Hash(head + tail) == Digest(Absorb(head + first + second, n + 2));
    hide *;
    AbsorbBlock(head, first, n);
    AbsorbBlock(head + first, second, n + 1);
    AbsorbPrefix(head, tail, n);
  }

  lemma PadTwoBlocks(head: seq<Byte>, tail: seq<Byte>, n: nat)
    requires |head| == 64 * n && 56 <= |tail| < 64 && |head + tail| < 0x2000_0000_0000_0000
    ensures Pad(head + tail) == head + FirstPadBlock(tail) + SecondPadBlock(|head + tail|)
  {
    DivMod64(|head + tail|, n, |tail|);
    assert Zeros(119 - |tail|) == Zeros(63 - |tail|) + Zeros(56);
    assert PadZeros(|head + tail|) == 119 - |tail|;
    hide BE64, Zeros, PadZeros;
    Regroup(head, tail, Zeros(63 - |tail|), Zeros(56), BE64(8 * |head + tail|));
  }

  lemma Regroup(head: seq<Byte>, tail: seq<Byte>, z1: seq<Byte>, z2: seq<Byte>, length: seq<Byte>)
    ensures head + tail + [0x80] + (z1 + z2) + length == head + (tail + [0x80] + z1) + (z2 + length)
  {
  }

  class Sha256Ctx {
    const state: array<bv32>
    var count: nat
    const buf: array<Byte>

    ghost predicate Valid()
    {
      state.Length == 8 && buf.Length == 64
    }

    /** The context stands for `msg`: its full blocks are absorbed and its tail is in the buffer. */
    ghost predicate Holds(msg: seq<Byte>)
      reads this, state, buf
    {
      && Valid() && |msg| < LIMIT && count == |msg|
      && state[..] == Absorb(msg, |msg| / 64)
      && buf[..|msg| % 64] == msg[64 * (|msg| / 64)..]
    }

    constructor ()
      ensures Holds([]) && fresh(state) && fresh(buf)
    {
      state := new bv32[8](i requires 0 <= i < 8 => H0[i]);
      buf := new Byte[64](_ => 0);
      count := 0;
      new;
      assert state[..] == H0;
    }

    method Schedule(block: seq<Byte>) returns (w: array<bv32>)
      requires |block| == 64
      ensures fresh(w) && w.Length == 64 && forall t :: 0 <= t < 64 ==> w[t] == W(block, t)
    {
      hide W, Word, Expand;
      w := new bv32[64];
      for t := 0 to 16
        invariant forall j :: 0 <= j < t ==> w[j] == W(block, j)
      {
        WordOfSchedule(block, t);
        w[t] := Word(block[4 * t], block[4 * t + 1], block[4 * t + 2], block[4 * t + 3]);
      }
      for t := 16 to 64
        invariant forall j :: 0 <= j < t ==> w[j] == W(block, j)
      {
        WordOfSchedule(block, t);
        w[t] := Expand(w[t - 2], w[t - 7], w[t - 15], w[t - 16]);
      }
    }

    method Transform(block: seq<Byte>)
      requires Valid() && |block| == 64
      modifies state
      ensures state[..] == Compress(old(state[..]), block)
    {
      var w := Schedule(block);
      var v := VarsOf(state[..]);
      hide W, T1, T2, RoundConstant, Add;
      for i := 0 to 64
        invariant v == Rounds(block, VarsOf(state[..]), i)
      {
        var t1, t2 := T1(v, RoundConstant(i), w[i]), T2(v);
        v := v.(h := v.g, g := v.f, f := v.e, e := Add(v.d, t1), d := v.c, c := v.b, b := v.a, a := Add(t1, t2));
      }
      AddToState(v);
    }

    method AddToState(v: Vars)
      requires Valid()
      modifies state
      ensures state[..] == AddVars(old(state[..]), v)
    {
      hide Add, Digest, Compress, Absorb;
      state[0], state[1], state[2], state[3] := Add(state[0], v.a), Add(state[1], v.b), Add(state[2], v.c), Add(state[3], v.d);
      state[4], state[5], state[6], state[7] := Add(state[4], v.e), Add(state[5], v.f), Add(state[6], v.g), Add(state[7], v.h);
    }

    /** Copies `data` into the buffer from `offset` on. */
    method Store(offset: nat, data: seq<Byte>)
      requires Valid() && offset + |data| <= 64
      modifies buf
      ensures buf[..offset] == old(buf[..offset]) && buf[offset..offset + |data|] == data
      ensures buf[offset + |data|..] == old(buf[offset + |data|..])
    {
      forall i | 0 <= i < |data| {
        buf[offset + i] := data[i];
      }
    }

    /** Any split of the message into updates ends in the same context. */
    method Update(data: seq<Byte>, ghost msg: seq<Byte>)
      requires Holds(msg) && |msg| + |data| < LIMIT
      modifies this, state, buf
      ensures Holds(msg + data)
    {
      hide Absorb, Compress;
      var used := count % 64;
      count := (count + |data|) % LIMIT;
      var pos := 0;
      if used != 0 {
        var free := 64 - used;
        if |data| < free {
          Store(used, data);
          TailGrows(msg, data, |msg| / 64, used);
          return;
        }
        Store(used, data[..free]);
        BlockCompletes(msg, data, |msg| / 64, used);
        assert buf[..] == msg[64 * (|msg| / 64)..] + data[..free];
        Transform(buf[..]);
        pos := free;
      } else {
        AbsorbPrefix(msg, data, |msg| / 64);
      }
      AbsorbBlocks(data, pos, msg);
    }

    /** The rest of `data`, from a block boundary on. */
    method AbsorbBlocks(data: seq<Byte>, start: nat, ghost msg: seq<Byte>)
      requires Valid() && |msg| + |data| < LIMIT && count == |msg| + |data|
      requires start <= |data| && (|msg| + start) % 64 == 0 && state[..] == Absorb(msg + data, (|msg| + start) / 64)
      modifies state, buf
      ensures Holds(msg + data)
    {
      hide Absorb, Compress;
      ghost var n := (|msg| + start) / 64;
      var pos := start;
      while |data| - pos >= 64
        invariant pos <= |data| && |msg| + pos == 64 * n && state[..] == Absorb(msg + data, n)
      {
        NextBlock(msg, data, pos, n);
        Transform(data[pos..pos + 64]);
        pos := pos + 64;
        n := n + 1;
      }
      Store(0, data[pos..]);
      Leftover(msg, data, pos, n);
    }

    /** Finishing gives the hash of everything that was put in; the context is used up. */
    method Final(ghost msg: seq<Byte>) returns (out: seq<Byte>)
      requires Holds(msg) && |msg| < 0x2000_0000_0000_0000
      modifies state, buf
      ensures out == Hash(msg)
    {
      hide Absorb, Compress, Hash, Digest, BE64;
      ghost var n := |msg| / 64;
      ghost var head, tail := msg[..64 * n], msg[64 * n..];
      assert msg == head + tail;
      var used := count % 64;
      Store(used, [0x80]);
      used := used + 1;
      if used > 56 {
        LastTwoBlocks(head, tail, n);
        Store(used, Zeros(64 - used));
        assert buf[..] == tail + [0x80] + Zeros(64 - used);
        Transform(buf[..]);
        used := 0;
      } else {
        LastBlock(head, tail, n);
      }
      CloseBlock(used, |msg|);
      assert used == 0 ==> buf[..] == Zeros(56) + BE64(8 * |msg|);
      assert used > 0 ==> buf[..] == tail + [0x80] + Zeros(56 - used) + BE64(8 * |msg|);
      Transform(buf[..]);
      out := WriteDigest();
    }

    /** Zeros up to the length, and the length in bits. */
    method CloseBlock(used: nat, ghost length: nat)
      requires Valid() && used <= 56 && count == length && length < 0x2000_0000_0000_0000
      modifies buf
      ensures buf[..] == old(buf[..used]) + Zeros(56 - used) + BE64(8 * length)
    {
      hide BE64;
      Store(used, Zeros(56 - used));
      assert buf[..56] == buf[..used] + Zeros(56 - used);
      Store(56, BE64(count * 8 % LIMIT));
      assert buf[..] == buf[..56] + BE64(8 * length);
    }

    method WriteDigest() returns (out: seq<Byte>)
      requires Valid()
      ensures out == Digest(state[..])
    {
      out := [];
      for i := 0 to 8
        invariant out == Digest(state[..i])
      {
        assert state[..i + 1][..i] == state[..i];
        out := out + WordBytes(state[i]);
      }
      assert state[..8] == state[..];
    }
  }
}
