/** The AES cipher, its key expansion and its equivalent inverse cipher, as FIPS 197 states them, and
    the proof that decryption undoes encryption. */
module AesCipher {
  import opened AesTables

  /** The state: four columns of four bytes. */
  datatype State = State(c0: Column, c1: Column, c2: Column, c3: Column)

  // ---------------------------------------------------------------- the transformations

  function SubBytes(s: State): State {
    State(SubColumn(s.c0), SubColumn(s.c1), SubColumn(s.c2), SubColumn(s.c3))
  }

  function InvSubBytes(s: State): State {
    State(InvSubColumn(s.c0), InvSubColumn(s.c1), InvSubColumn(s.c2), InvSubColumn(s.c3))
  }

  /** Row r of the state moves left by r columns. */
  function ShiftRows(s: State): State {
    State(Column(s.c0.b0, s.c1.b1, s.c2.b2, s.c3.b3), Column(s.c1.b0, s.c2.b1, s.c3.b2, s.c0.b3),
          Column(s.c2.b0, s.c3.b1, s.c0.b2, s.c1.b3), Column(s.c3.b0, s.c0.b1, s.c1.b2, s.c2.b3))
  }

  /** Row r of the state moves right by r columns. */
  function InvShiftRows(s: State): State {
    State(Column(s.c0.b0, s.c3.b1, s.c2.b2, s.c1.b3), Column(s.c1.b0, s.c0.b1, s.c3.b2, s.c2.b3),
          Column(s.c2.b0, s.c1.b1, s.c0.b2, s.c3.b3), Column(s.c3.b0, s.c2.b1, s.c1.b2, s.c0.b3))
  }

  function MixColumns(s: State): State {
    State(MixColumn(s.c0), MixColumn(s.c1), MixColumn(s.c2), MixColumn(s.c3))
  }

  function InvMixColumns(s: State): State {
    State(InvMixColumn(s.c0), InvMixColumn(s.c1), InvMixColumn(s.c2), InvMixColumn(s.c3))
  }

  function Xor(s: State, k: State): State {
    State(XorColumn(s.c0, k.c0), XorColumn(s.c1, k.c1), XorColumn(s.c2, k.c2), XorColumn(s.c3, k.c3))
  }

  // ---------------------------------------------------------------- the ciphers

  /** A key schedule for `nr` rounds: four words for the start and for each round. */
  type Schedule = seq<Column>

  function RoundKey(w: Schedule, r: nat): State
    requires 4 * r + 4 <= |w|
  {
    State(w[4 * r], w[4 * r + 1], w[4 * r + 2], w[4 * r + 3])
  }

  function EncRound(s: State, k: State): State {
    Xor(MixColumns(ShiftRows(SubBytes(s))), k)
  }

  function EncLast(s: State, k: State): State {
    Xor(ShiftRows(SubBytes(s)), k)
  }

  /** The state after the initial key and `r` full rounds: section 5.1 of FIPS 197. */
  function EncRounds(s: State, w: Schedule, r: nat): State
    requires 4 * r + 4 <= |w|
  {
    if r == 0 then Xor(s, RoundKey(w, 0)) else EncRound(EncRounds(s, w, r - 1), RoundKey(w, r))
  }

  function Cipher(s: State, w: Schedule, nr: nat): State
    requires nr > 0 && |w| == 4 * nr + 4
  {
    EncLast(EncRounds(s, w, nr - 1), RoundKey(w, nr))
  }

  function DecRound(s: State, k: State): State {
    Xor(InvMixColumns(InvShiftRows(InvSubBytes(s))), k)
  }

  function DecLast(s: State, k: State): State {
    Xor(InvShiftRows(InvSubBytes(s)), k)
  }

  function DecRounds(s: State, w: Schedule, r: nat): State
    requires 4 * r + 4 <= |w|
  {
    if r == 0 then Xor(s, RoundKey(w, 0)) else DecRound(DecRounds(s, w, r - 1), RoundKey(w, r))
  }

  /** The equivalent inverse cipher: section 5.3.5 of FIPS 197. */
  function EqInvCipher(s: State, w: Schedule, nr: nat): State
    requires nr > 0 && |w| == 4 * nr + 4
  {
    DecLast(DecRounds(s, w, nr - 1), RoundKey(w, nr))
  }

  /** Word `i` of the schedule for the equivalent inverse cipher: the round keys of `w` in reverse
      order, all but the first and the last through InvMixColumns. */
  function DecWord(w: Schedule, nr: nat, i: nat): Column
    requires |w| == 4 * nr + 4 && i < |w|
  {
    var k := w[4 * (nr - i / 4) + i % 4];
    if i / 4 == 0 || i / 4 == nr then k else InvMixColumn(k)
  }

  function DecSchedule(w: Schedule, nr: nat): (d: Schedule)
    requires |w| == 4 * nr + 4
    ensures |d| == |w|
  {
    seq(|w|, i requires 0 <= i < |w| => DecWord(w, nr, i))
  }

  // ---------------------------------------------------------------- key expansion

  function RconByte(j: nat): bv8 {
    if j <= 1 then 1 else Mul2(RconByte(j - 1))
  }

  function KeyWord(key: seq<bv8>, i: nat): Column
    requires 4 * i + 4 <= |key|
  {
    Column(key[4 * i], key[4 * i + 1], key[4 * i + 2], key[4 * i + 3])
  }

  predicate KeySize(key: seq<bv8>) {
    |key| == 16 || |key| == 24 || |key| == 32
  }

  /** Word `i` of the key expansion: section 5.2 of FIPS 197. */
  function Expanded(key: seq<bv8>, i: nat): Column
    requires KeySize(key)
  {
    var nk := |key| / 4;
    if i < nk then KeyWord(key, i) else
    var temp := Expanded(key, i - 1);
    var t := if i % nk == 0 then XorColumn(SubColumn(RotColumn(temp)), Column(RconByte(i / nk), 0, 0, 0))
             else if nk > 6 && i % nk == 4 then SubColumn(temp)
             else temp;
    XorColumn(Expanded(key, i - nk), t)
  }

  function Rounds(key: seq<bv8>): nat {
    |key| / 4 + 6
  }

  function KeySchedule(key: seq<bv8>): (w: Schedule)
    requires KeySize(key)
    ensures |w| == 4 * Rounds(key) + 4
  {
    seq(4 * Rounds(key) + 4, i requires i >= 0 => Expanded(key, i))
  }

  // ---------------------------------------------------------------- decryption undoes encryption

  lemma XorCancels(s: State, k: State)
    ensures Xor(Xor(s, k), k) == s
  {
    hide XorColumn;
    XorColumnCancels(s.c0, k.c0);
    XorColumnCancels(s.c1, k.c1);
    XorColumnCancels(s.c2, k.c2);
    XorColumnCancels(s.c3, k.c3);
  }

  lemma InvSubBytesUndoes(s: State)
    ensures InvSubBytes(SubBytes(s)) == s
  {
    hide SubColumn, InvSubColumn;
    InvSubColumnUndoes(s.c0);
    InvSubColumnUndoes(s.c1);
    InvSubColumnUndoes(s.c2);
    InvSubColumnUndoes(s.c3);
  }

  lemma InvSubColumnUndoes(c: Column)
    ensures InvSubColumn(SubColumn(c)) == c
  {
    hide SBox, InvSBox;
    SBoxInverse(c.b0);
    SBoxInverse(c.b1);
    SBoxInverse(c.b2);
    SBoxInverse(c.b3);
  }

  lemma InvShiftRowsUndoes(s: State)
    ensures InvShiftRows(ShiftRows(s)) == s
  {
  }

  /** Substitution works byte by byte, so it does not matter whether the rows move before or after. */
  lemma SubstitutionCommutesWithShift(s: State)
    ensures InvShiftRows(InvSubBytes(ShiftRows(SubBytes(s)))) == s
  {
    hide SBox, InvSBox;
    assert ShiftRows(SubBytes(s)) == SubBytes(ShiftRows(s));
    InvSubBytesUndoes(ShiftRows(s));
    InvShiftRowsUndoes(s);
  }

  lemma InvMixColumnsOfRound(s: State, k: State)
    ensures InvMixColumns(EncRound(s, k)) == Xor(ShiftRows(SubBytes(s)), InvMixColumns(k))
  {
    hide XorColumn, MixColumn, InvMixColumn, SubColumn;
    var m := ShiftRows(SubBytes(s));
    InvMixColumnIsLinear(MixColumn(m.c0), k.c0);
    InvMixColumnIsLinear(MixColumn(m.c1), k.c1);
    InvMixColumnIsLinear(MixColumn(m.c2), k.c2);
    InvMixColumnIsLinear(MixColumn(m.c3), k.c3);
    InvMixColumnUndoes(m.c0);
    InvMixColumnUndoes(m.c1);
    InvMixColumnUndoes(m.c2);
    InvMixColumnUndoes(m.c3);
  }

  lemma DecWordAt(w: Schedule, nr: nat, r: nat, j: nat)
    requires |w| == 4 * nr + 4 && r <= nr && j < 4
    ensures DecSchedule(w, nr)[4 * r + j] ==
            if r == 0 || r == nr then w[4 * (nr - r) + j] else InvMixColumn(w[4 * (nr - r) + j])
  {
    hide InvMixColumn;
    assert (4 * r + j) / 4 == r && (4 * r + j) % 4 == j;
  }

  lemma DecRoundKey(w: Schedule, nr: nat, r: nat)
    requires |w| == 4 * nr + 4 && r <= nr
    ensures RoundKey(DecSchedule(w, nr), r) ==
            if r == 0 || r == nr then RoundKey(w, nr - r) else InvMixColumns(RoundKey(w, nr - r))
  {
    hide InvMixColumn, DecSchedule;
    DecWordAt(w, nr, r, 0);
    DecWordAt(w, nr, r, 1);
    DecWordAt(w, nr, r, 2);
    DecWordAt(w, nr, r, 3);
  }

  /** One round of decryption goes back over one round of encryption. */
  lemma DecRoundUndoes(s: State, k: State)
    ensures DecRound(ShiftRows(SubBytes(EncRound(s, k))), InvMixColumns(k)) == ShiftRows(SubBytes(s))
  {
    hide XorColumn, MixColumn, InvMixColumn, SubColumn, InvSubColumn;
    SubstitutionCommutesWithShift(EncRound(s, k));
    InvMixColumnsOfRound(s, k);
    XorCancels(ShiftRows(SubBytes(s)), InvMixColumns(k));
  }

  lemma DecRoundsStep(x: State, d: Schedule, r: nat, s: State, k: State)
    requires r > 0 && 4 * r + 4 <= |d|
    requires DecRounds(x, d, r - 1) == ShiftRows(SubBytes(EncRound(s, k))) && RoundKey(d, r) == InvMixColumns(k)
    ensures DecRounds(x, d, r) == ShiftRows(SubBytes(s))
  {
    hide DecRound, EncRound, ShiftRows, SubBytes, InvMixColumns;
    DecRoundUndoes(s, k);
  }

  lemma EncRoundsStep(s: State, w: Schedule, r: nat)
    requires r > 0 && 4 * r + 4 <= |w|
    ensures EncRounds(s, w, r) == EncRound(EncRounds(s, w, r - 1), RoundKey(w, r))
  {
    hide EncRound;
  }

  lemma DecRoundsStart(s: State, w: Schedule, nr: nat)
    requires nr > 0 && |w| == 4 * nr + 4
    ensures DecRounds(Cipher(s, w, nr), DecSchedule(w, nr), 0) == ShiftRows(SubBytes(EncRounds(s, w, nr - 1)))
  {
    hide SubColumn, XorColumn;
    DecRoundKey(w, nr, 0);
    XorCancels(ShiftRows(SubBytes(EncRounds(s, w, nr - 1))), RoundKey(w, nr));
  }

  /** After `r` rounds, decryption holds the substituted and shifted state that encryption had
      before its last `r + 1` rounds. */
  lemma {:induction false} DecRoundsMeetEncRounds(s: State, w: Schedule, nr: nat, r: nat)
    requires |w| == 4 * nr + 4 && r < nr
    ensures DecRounds(Cipher(s, w, nr), DecSchedule(w, nr), r) == ShiftRows(SubBytes(EncRounds(s, w, nr - 1 - r)))
  {
    hide *;
    if r == 0 {
      DecRoundsStart(s, w, nr);
    } else {
      DecRoundKey(w, nr, r);
      DecRoundsMeetEncRounds(s, w, nr, r - 1);
      EncRoundsStep(s, w, nr - r);
      DecRoundsStep(Cipher(s, w, nr), DecSchedule(w, nr), r, EncRounds(s, w, nr - 1 - r), RoundKey(w, nr - r));
    }
  }

  lemma DecFinish(x: State, d: Schedule, nr: nat, s: State, k: State)
    requires nr > 0 && |d| == 4 * nr + 4
    requires DecRounds(x, d, nr - 1) == ShiftRows(SubBytes(Xor(s, k))) && RoundKey(d, nr) == k
    ensures EqInvCipher(x, d, nr) == s
  {
    hide ShiftRows, SubBytes, InvShiftRows, InvSubBytes, Xor, RoundKey, DecRounds;
    SubstitutionCommutesWithShift(Xor(s, k));
    XorCancels(s, k);
  }

  lemma EncStart(s: State, w: Schedule)
    requires |w| >= 4
    ensures EncRounds(s, w, 0) == Xor(s, RoundKey(w, 0))
  {
  }

  /** Decryption under the reversed schedule undoes encryption, for every schedule and block. */
  lemma EqInvCipherUndoesCipher(s: State, w: Schedule, nr: nat)
    requires nr > 0 && |w| == 4 * nr + 4
    ensures EqInvCipher(Cipher(s, w, nr), DecSchedule(w, nr), nr) == s
  {
    hide *;
    DecRoundsMeetEncRounds(s, w, nr, nr - 1);
    DecRoundKey(w, nr, nr);
    EncStart(s, w);
    DecFinish(Cipher(s, w, nr), DecSchedule(w, nr), nr, s, RoundKey(w, 0));
  }
}
