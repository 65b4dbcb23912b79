/** Encryption and decryption with an expanded key, in place (srtp_aes_encrypt and srtp_aes_decrypt in aes.c). */
module AesCipher {
  import opened AesSbox
  import opened AesRounds

  // ----- The ciphers as functions -----

  /** Rounds i to n-1 and the final one, from the state before round i (section 5.1 of FIPS 197). */
  function EncryptFrom(s: Block, keys: seq<Block>, i: nat, n: nat): Block
    requires 1 <= i <= n < |keys|
    decreases n - i
  {
    if i == n then FinalRound(s, keys[n]) else EncryptFrom(Round(s, keys[i]), keys, i + 1, n)
  }

  function Encrypt(s: Block, keys: seq<Block>, n: nat): Block
    requires 1 <= n < |keys|
  {
    EncryptFrom(AddKey(s, keys[0]), keys, 1, n)
  }

  function DecryptFrom(s: Block, keys: seq<Block>, i: nat, n: nat): Block
    requires 1 <= i <= n < |keys|
    decreases n - i
  {
    if i == n then InvFinalRound(s, keys[n]) else DecryptFrom(InvRound(s, keys[i]), keys, i + 1, n)
  }

  /** The equivalent inverse cipher (section 5.3.5). */
  function Decrypt(s: Block, keys: seq<Block>, n: nat): Block
    requires 1 <= n < |keys|
  {
    DecryptFrom(AddKey(s, keys[0]), keys, 1, n)
  }

  /** The decryption schedule: the round keys turned round, the inner ones through InvMixColumns. */
  function Reversed(keys: seq<Block>, n: nat): (d: seq<Block>)
    requires 1 <= n < |keys|
    ensures |d| == |keys| && d[0] == keys[n] && d[n] == keys[0]
    ensures forall i :: 0 < i < n ==> d[i] == InvMixColumns(keys[n - i])
    ensures forall i :: n < i < |keys| ==> d[i] == keys[i]
  {
    seq(|keys|, i requires 0 <= i < |keys| =>
      if i > n then keys[i] else if i == 0 || i == n then keys[n - i] else InvMixColumns(keys[n - i]))
  }

  /** The state before round i. */
  function StateBefore(s: Block, keys: seq<Block>, i: nat): Block
    requires 1 <= i <= |keys|
  {
    if i == 1 then AddKey(s, keys[0]) else Round(StateBefore(s, keys, i - 1), keys[i - 1])
  }

  lemma {:induction false} EncryptFromState(s: Block, keys: seq<Block>, i: nat, n: nat)
    requires 1 <= i <= n < |keys|
    ensures EncryptFrom(StateBefore(s, keys, i), keys, i, n) == FinalRound(StateBefore(s, keys, n), keys[n])
    decreases n - i
  {
    hide Round, FinalRound, AddKey;
    if i < n { EncryptFromState(s, keys, i + 1, n); }
  }

  /** After i - 1 inverse rounds the state is the shifted one of round n - i + 1; the rest undoes the rest. */
  lemma {:induction false} DecryptFromState(s: Block, keys: seq<Block>, i: nat, n: nat)
    requires 1 <= i <= n < |keys|
    ensures DecryptFrom(ShiftRows(SubBytes(StateBefore(s, keys, n - i + 1))), Reversed(keys, n), i, n) == s
    decreases n - i
  {
    hide Round, ShiftRows, SubBytes, InvRound, AddKey, Reversed, InvSubBytes, InvShiftRows, InvMixColumns;
    var state := StateBefore(s, keys, n - i + 1);
    if i == n {
      LastInverse(s, keys, n);
    } else {
      InvRoundUndoes(StateBefore(s, keys, n - i), keys[n - i]);
      DecryptFromState(s, keys, i + 1, n);
    }
  }

  lemma LastInverse(s: Block, keys: seq<Block>, n: nat)
    requires 1 <= n < |keys|
    ensures InvFinalRound(ShiftRows(SubBytes(StateBefore(s, keys, 1))), Reversed(keys, n)[n]) == s
  {
    hide ShiftRows, SubBytes, AddKey, Reversed, InvSubBytes, InvShiftRows;
    InvShiftSub(AddKey(s, keys[0]));
    AddKeyTwice(s, keys[0]);
  }

  /** For every schedule, number of rounds and block, decryption under the reversed schedule undoes
      encryption. */
  lemma DecryptUndoesEncrypt(s: Block, keys: seq<Block>, n: nat)
    requires 1 <= n < |keys|
    ensures Decrypt(Encrypt(s, keys, n), Reversed(keys, n), n) == s
  {
    hide Round, ShiftRows, SubBytes, InvRound, AddKey, Reversed, DecryptFrom, EncryptFrom;
    EncryptFromState(s, keys, 1, n);
    AddKeyTwice(ShiftRows(SubBytes(StateBefore(s, keys, n))), keys[n]);
    DecryptFromState(s, keys, 1, n);
  }

  // ----- In place -----

  const BLOCK_SIZE := 16

  function ColOf(a: seq<bv8>, i: nat): Col
    requires i + 4 <= |a|
  {
    Col(a[i], a[i + 1], a[i + 2], a[i + 3])
  }

  function BlockOf(a: seq<bv8>): Block
    requires |a| == BLOCK_SIZE
  {
    Block(ColOf(a, 0), ColOf(a, 4), ColOf(a, 8), ColOf(a, 12))
  }

  /** Writes word n of the state. */
  method StoreWord(state: array<bv8>, n: nat, c: Col)
    requires state.Length == BLOCK_SIZE && n < 4
    modifies state
    ensures ColOf(state[..], 4 * n) == c
    ensures forall i :: 0 <= i < BLOCK_SIZE && !(4 * n <= i < 4 * n + 4) ==> state[i] == old(state[i])
  {
    state[4 * n], state[4 * n + 1], state[4 * n + 2], state[4 * n + 3] := c.a, c.b, c.c, c.d;
  }

  method StoreBlock(state: array<bv8>, s: Block)
    requires state.Length == BLOCK_SIZE
    modifies state
    ensures BlockOf(state[..]) == s
  {
    StoreWord(state, 0, s.c0);
    StoreWord(state, 1, s.c1);
    StoreWord(state, 2, s.c2);
    StoreWord(state, 3, s.c3);
  }

  /** v128_xor_eq */
  method XorKey(state: array<bv8>, k: Block)
    requires state.Length == BLOCK_SIZE
    modifies state
    ensures BlockOf(state[..]) == AddKey(old(BlockOf(state[..])), k)
  {
    StoreBlock(state, AddKey(BlockOf(state[..]), k));
  }

  /** aes_round, table by table. */
  method AesRound(state: array<bv8>, k: Block)
    requires state.Length == BLOCK_SIZE
    modifies state
    ensures BlockOf(state[..]) == Round(old(BlockOf(state[..])), k)
  {
    hide SumCols, T0, T1, T2, T3, Mix, AddCol, Sbox;
    TablesMix(state[0], state[5], state[10], state[15]);
    TablesMix(state[4], state[9], state[14], state[3]);
    TablesMix(state[8], state[13], state[2], state[7]);
    TablesMix(state[12], state[1], state[6], state[11]);
    var column0 := SumCols(T0(state[0]), T1(state[5]), T2(state[10]), T3(state[15]));
    var column1 := SumCols(T0(state[4]), T1(state[9]), T2(state[14]), T3(state[3]));
    var column2 := SumCols(T0(state[8]), T1(state[13]), T2(state[2]), T3(state[7]));
    var column3 := SumCols(T0(state[12]), T1(state[1]), T2(state[6]), T3(state[11]));
    StoreBlock(state, Block(AddCol(column0, k.c0), AddCol(column1, k.c1), AddCol(column2, k.c2), AddCol(column3, k.c3)));
  }

  /** aes_inv_round */
  method AesInvRound(state: array<bv8>, k: Block)
    requires state.Length == BLOCK_SIZE
    modifies state
    ensures BlockOf(state[..]) == InvRound(old(BlockOf(state[..])), k)
  {
    hide SumCols, U0, U1, U2, U3, InvMix, AddCol, InvSbox;
    InverseTablesMix(state[0], state[13], state[10], state[7]);
    InverseTablesMix(state[4], state[1], state[14], state[11]);
    InverseTablesMix(state[8], state[5], state[2], state[15]);
    InverseTablesMix(state[12], state[9], state[6], state[3]);
    var column0 := SumCols(U0(state[0]), U1(state[13]), U2(state[10]), U3(state[7]));
    var column1 := SumCols(U0(state[4]), U1(state[1]), U2(state[14]), U3(state[11]));
    var column2 := SumCols(U0(state[8]), U1(state[5]), U2(state[2]), U3(state[15]));
    var column3 := SumCols(U0(state[12]), U1(state[9]), U2(state[6]), U3(state[3]));
    StoreBlock(state, Block(AddCol(column0, k.c0), AddCol(column1, k.c1), AddCol(column2, k.c2), AddCol(column3, k.c3)));
  }

  /** The substitutions and row shifts of aes_final_round, octet by octet. */
  method SubAndShift(state: array<bv8>)
    requires state.Length == BLOCK_SIZE
    modifies state
    ensures BlockOf(state[..]) == ShiftRows(SubBytes(old(BlockOf(state[..]))))
  {
    hide Sbox;
    SubAndShiftUpper(state);
    SubAndShiftLower(state);
  }

  method SubAndShiftUpper(state: array<bv8>)
    requires state.Length == BLOCK_SIZE
    modifies state
    ensures state[0] == Sbox(old(state[0])) && state[4] == Sbox(old(state[4])) && state[8] == Sbox(old(state[8])) && state[12] == Sbox(old(state[12]))
    ensures state[1] == Sbox(old(state[5])) && state[5] == Sbox(old(state[9])) && state[9] == Sbox(old(state[13])) && state[13] == Sbox(old(state[1]))
    ensures forall i :: 0 <= i < BLOCK_SIZE && i % 4 >= 2 ==> state[i] == old(state[i])
  {
    hide Sbox;
    state[0], state[4], state[8], state[12] := Sbox(state[0]), Sbox(state[4]), Sbox(state[8]), Sbox(state[12]);

    var tmp := Sbox(state[1]);
    state[1] := Sbox(state[5]);
    state[5] := Sbox(state[9]);
    state[9] := Sbox(state[13]);
    state[13] := tmp;
  }

  method SubAndShiftLower(state: array<bv8>)
    requires state.Length == BLOCK_SIZE
    modifies state
    ensures state[2] == Sbox(old(state[10])) && state[6] == Sbox(old(state[14])) && state[10] == Sbox(old(state[2])) && state[14] == Sbox(old(state[6]))
    ensures state[3] == Sbox(old(state[15])) && state[7] == Sbox(old(state[3])) && state[11] == Sbox(old(state[7])) && state[15] == Sbox(old(state[11]))
    ensures forall i :: 0 <= i < BLOCK_SIZE && i % 4 < 2 ==> state[i] == old(state[i])
  {
    hide Sbox;
    var tmp := Sbox(state[10]);
    state[10] := Sbox(state[2]);
    state[2] := tmp;
    tmp := Sbox(state[14]);
    state[14] := Sbox(state[6]);
    state[6] := tmp;

    tmp := Sbox(state[15]);
    state[15] := Sbox(state[11]);
    state[11] := Sbox(state[7]);
    state[7] := Sbox(state[3]);
    state[3] := tmp;
  }

  method AesFinalRound(state: array<bv8>, k: Block)
    requires state.Length == BLOCK_SIZE
    modifies state
    ensures BlockOf(state[..]) == FinalRound(old(BlockOf(state[..])), k)
  {
    SubAndShift(state);
    XorKey(state, k);
  }

  method InvSubAndShift(state: array<bv8>)
    requires state.Length == BLOCK_SIZE
    modifies state
    ensures BlockOf(state[..]) == InvShiftRows(InvSubBytes(old(BlockOf(state[..]))))
  {
    hide InvSbox;
    InvSubAndShiftUpper(state);
    InvSubAndShiftLower(state);
  }

  method InvSubAndShiftUpper(state: array<bv8>)
    requires state.Length == BLOCK_SIZE
    modifies state
    ensures state[0] == InvSbox(old(state[0])) && state[4] == InvSbox(old(state[4])) && state[8] == InvSbox(old(state[8])) && state[12] == InvSbox(old(state[12]))
    ensures state[1] == InvSbox(old(state[13])) && state[5] == InvSbox(old(state[1])) && state[9] == InvSbox(old(state[5])) && state[13] == InvSbox(old(state[9]))
    ensures forall i :: 0 <= i < BLOCK_SIZE && i % 4 >= 2 ==> state[i] == old(state[i])
  {
    hide InvSbox;
    state[0], state[4], state[8], state[12] := InvSbox(state[0]), InvSbox(state[4]), InvSbox(state[8]), InvSbox(state[12]);

    var tmp := InvSbox(state[13]);
    state[13] := InvSbox(state[9]);
    state[9] := InvSbox(state[5]);
    state[5] := InvSbox(state[1]);
    state[1] := tmp;
  }

  method InvSubAndShiftLower(state: array<bv8>)
    requires state.Length == BLOCK_SIZE
    modifies state
    ensures state[2] == InvSbox(old(state[10])) && state[6] == InvSbox(old(state[14])) && state[10] == InvSbox(old(state[2])) && state[14] == InvSbox(old(state[6]))
    ensures state[3] == InvSbox(old(state[7])) && state[7] == InvSbox(old(state[11])) && state[11] == InvSbox(old(state[15])) && state[15] == InvSbox(old(state[3]))
    ensures forall i :: 0 <= i < BLOCK_SIZE && i % 4 < 2 ==> state[i] == old(state[i])
  {
    hide InvSbox;
    var tmp := InvSbox(state[2]);
    state[2] := InvSbox(state[10]);
    state[10] := tmp;
    tmp := InvSbox(state[6]);
    state[6] := InvSbox(state[14]);
    state[14] := tmp;

    tmp := InvSbox(state[3]);
    state[3] := InvSbox(state[7]);
    state[7] := InvSbox(state[11]);
    state[11] := InvSbox(state[15]);
    state[15] := tmp;
  }

  method AesInvFinalRound(state: array<bv8>, k: Block)
    requires state.Length == BLOCK_SIZE
    modifies state
    ensures BlockOf(state[..]) == InvFinalRound(old(BlockOf(state[..])), k)
  {
    InvSubAndShift(state);
    XorKey(state, k);
  }
}
