/** AES by lookup tables, in place: key schedules in an array of words, blocks in byte buffers. */
module Aes {
  import opened AesTables
  import opened AesCipher
  import opened AesStandard

  const MAX_WORDS: nat := 60
  const BLOCK: nat := 16

  const RCON: seq<bv32> := [
    0x01000000, 0x02000000, 0x04000000, 0x08000000,
    0x10000000, 0x20000000, 0x40000000, 0x80000000,
    0x1B000000, 0x36000000]

  // ---------------------------------------------------------------- words and columns

  function ColumnsOf(words: seq<bv32>): (r: Schedule)
    ensures |r| == |words|
  {
    seq(|words|, i requires 0 <= i < |words| => Unpack(words[i]))
  }

  function StateOf(b: seq<bv8>): State
    requires |b| == BLOCK
  {
    State(KeyWord(b, 0), KeyWord(b, 1), KeyWord(b, 2), KeyWord(b, 3))
  }

  function ColumnBytes(c: Column): (b: seq<bv8>)
    ensures |b| == 4
  {
    [c.b0, c.b1, c.b2, c.b3]
  }

  function BytesOf(s: State): (b: seq<bv8>)
    ensures |b| == BLOCK
  {
    ColumnBytes(s.c0) + ColumnBytes(s.c1) + ColumnBytes(s.c2) + ColumnBytes(s.c3)
  }

  lemma StateOfBytes(s: State)
    ensures StateOf(BytesOf(s)) == s
  {
  }

  lemma BytesOfState(b: seq<bv8>)
    requires |b| == BLOCK
    ensures BytesOf(StateOf(b)) == b
  {
  }

  /** A block fills the state column by column: section 3.4 of FIPS 197. */
  lemma StateBytes(b: seq<bv8>)
    requires |b| == BLOCK
    ensures StateOf(b) == State(Column(b[0], b[1], b[2], b[3]), Column(b[4], b[5], b[6], b[7]),
                                Column(b[8], b[9], b[10], b[11]), Column(b[12], b[13], b[14], b[15]))
  {
  }

  lemma XorColumnAssociates(a: Column, b: Column, c: Column)
    ensures XorColumn(XorColumn(a, b), c) == XorColumn(a, XorColumn(b, c))
  {
    hide Add;
    AddAssociates(a.b0, b.b0, c.b0);
    AddAssociates(a.b1, b.b1, c.b1);
    AddAssociates(a.b2, b.b2, c.b2);
    AddAssociates(a.b3, b.b3, c.b3);
  }

  lemma RconIsPower(i: nat)
    requires i < 10
    ensures Unpack(RCON[i]) == Column(RconByte(i + 1), 0, 0, 0)
  {
    if i > 0 {
      RconIsPower(i - 1);
      assert RconByte(i + 1) == Mul2(RconByte(i));
    }
  }

  /** SubWord(RotWord(w)) by table lookups. */
  function SubRotWord(w: bv32): bv32 {
    MaskedSum(Te4(Byte1(w)), Te4(Byte2(w)), Te4(Byte3(w)), Te4(Byte0(w)))
  }

  function SubWord(w: bv32): bv32 {
    MaskedSum(Te4(Byte0(w)), Te4(Byte1(w)), Te4(Byte2(w)), Te4(Byte3(w)))
  }

  lemma SubRotWordOk(w: bv32)
    ensures Unpack(SubRotWord(w)) == SubColumn(RotColumn(Unpack(w)))
  {
    hide MaskedSum, SBox, Word, Byte0, Byte1, Byte2, Byte3;
    MaskedBytes(SBox(Byte1(w)), SBox(Byte2(w)), SBox(Byte3(w)), SBox(Byte0(w)));
    assert Unpack(w) == Column(Byte0(w), Byte1(w), Byte2(w), Byte3(w));
  }

  lemma SubWordOk(w: bv32)
    ensures Unpack(SubWord(w)) == SubColumn(Unpack(w))
  {
    hide MaskedSum, SBox, Word, Byte0, Byte1, Byte2, Byte3;
    MaskedBytes(SBox(Byte0(w)), SBox(Byte1(w)), SBox(Byte2(w)), SBox(Byte3(w)));
    assert Unpack(w) == Column(Byte0(w), Byte1(w), Byte2(w), Byte3(w));
  }

  // ---------------------------------------------------------------- key schedules

  class AesKey {
    const rdKey: array<bv32>
    var rounds: int

    constructor ()
      ensures rdKey.Length == MAX_WORDS && fresh(rdKey)
    {
      rdKey := new bv32[MAX_WORDS];
      rounds := 0;
    }

    /** The schedule the key holds for its number of rounds. */
    ghost function Schedule(): (w: AesCipher.Schedule)
      requires rounds >= 0 && 4 * rounds + 4 <= rdKey.Length
      reads this, rdKey
      ensures |w| == 4 * rounds + 4
    {
      ColumnsOf(rdKey[..4 * rounds + 4])
    }
  }

  /** The first `n` words of `rk` are those of the key expansion. */
  ghost predicate ExpandedTo(rk: array<bv32>, key: seq<bv8>, n: nat)
    requires KeySize(key) && n <= rk.Length
    reads rk
  {
    forall j: nat :: j < n ==> Unpack(rk[j]) == Expanded(key, j)
  }

  /** A word whose index is a multiple of the key length. */
  lemma ExpandFirst(key: seq<bv8>, i: nat, v: bv32, temp: bv32)
    requires KeySize(key) && 1 <= i <= 10
    requires Unpack(v) == Expanded(key, (i - 1) * (|key| / 4)) && Unpack(temp) == Expanded(key, i * (|key| / 4) - 1)
    ensures Unpack(Xor32(Xor32(v, SubRotWord(temp)), RCON[i - 1])) == Expanded(key, i * (|key| / 4))
  {
    hide Unpack, Xor32, SubRotWord, XorColumn, SubColumn, RotColumn, Expanded;
    var nk := |key| / 4;
    UnpackXor(v, SubRotWord(temp));
    UnpackXor(Xor32(v, SubRotWord(temp)), RCON[i - 1]);
    SubRotWordOk(temp);
    RconIsPower(i - 1);
    XorColumnAssociates(Unpack(v), SubColumn(RotColumn(Unpack(temp))), Column(RconByte(i), 0, 0, 0));
    ExpandedFirst(key, i);
  }

  lemma ExpandedFirst(key: seq<bv8>, i: nat)
    requires KeySize(key) && i >= 1
    ensures var nk := |key| / 4;
            && (i - 1) * nk >= 0 && i * nk >= 1
            && Expanded(key, i * nk) ==
               XorColumn(Expanded(key, (i - 1) * nk),
                         XorColumn(SubColumn(RotColumn(Expanded(key, i * nk - 1))), Column(RconByte(i), 0, 0, 0)))
  {
    hide XorColumn, SubColumn, RotColumn, RconByte;
    MultipleIndex(i, |key| / 4);
  }

  lemma MultipleIndex(i: nat, nk: nat)
    requires i >= 1 && nk in {4, 6, 8}
    ensures i * nk >= nk && (i * nk) % nk == 0 && (i * nk) / nk == i && i * nk - nk == (i - 1) * nk
  {
    if nk == 4 {
      assert (i * 4) % 4 == 0 && (i * 4) / 4 == i;
    } else if nk == 6 {
      assert (i * 6) % 6 == 0 && (i * 6) / 6 == i;
    } else {
      assert (i * 8) % 8 == 0 && (i * 8) / 8 == i;
    }
  }

  /** A word between multiples of the key length. */
  lemma ExpandNext(key: seq<bv8>, i: nat, v: bv32, prev: bv32)
    requires KeySize(key) && i >= |key| / 4 && i % (|key| / 4) != 0 && !(|key| == 32 && i % 8 == 4)
    requires Unpack(v) == Expanded(key, i - |key| / 4) && Unpack(prev) == Expanded(key, i - 1)
    ensures Unpack(Xor32(v, prev)) == Expanded(key, i)
  {
    hide Unpack, Xor32, XorColumn;
    UnpackXor(v, prev);
  }

  /** With the longest keys, a word in the middle between multiples of the key length. */
  lemma ExpandMiddle(key: seq<bv8>, i: nat, v: bv32, prev: bv32)
    requires |key| == 32 && i >= 8 && i % 8 == 4
    requires Unpack(v) == Expanded(key, i - 8) && Unpack(prev) == Expanded(key, i - 1)
    ensures Unpack(Xor32(v, SubWord(prev))) == Expanded(key, i)
  {
    hide Unpack, Xor32, XorColumn, SubWord, SubColumn;
    UnpackXor(v, SubWord(prev));
    SubWordOk(prev);
  }

  /** The words from `n` on are the same. */
  ghost predicate SameFrom(a: seq<bv32>, b: seq<bv32>, n: nat) {
    |a| == |b| && forall k :: n <= k < |a| ==> b[k] == a[k]
  }

  /** Fills word `n`, a multiple of the key length, from the words before it. */
  method FirstWord(rk: array<bv32>, n: nat, nk: nat, i: nat, ghost key: seq<bv8>)
    requires KeySize(key) && nk == |key| / 4 && i < 10 && n == (i + 1) * nk && n < rk.Length && ExpandedTo(rk, key, n)
    modifies rk
    ensures ExpandedTo(rk, key, n + 1)
    ensures SameFrom(old(rk[..]), rk[..], n + 1)
  {
    hide Unpack, Xor32, SubRotWord, Expanded;
    MultipleIndex(i + 1, nk);
    ExpandFirst(key, i + 1, rk[n - nk], rk[n - 1]);
    rk[n] := Xor32(Xor32(rk[n - nk], SubRotWord(rk[n - 1])), RCON[i]);
  }

  /** Fills word `n` from the words before it, `nk` being the key length in words. */
  method NextWord(rk: array<bv32>, n: nat, nk: nat, ghost key: seq<bv8>)
    requires KeySize(key) && nk == |key| / 4 <= n < rk.Length && ExpandedTo(rk, key, n)
    requires n % nk != 0 && !(nk == 8 && n % 8 == 4)
    modifies rk
    ensures ExpandedTo(rk, key, n + 1)
    ensures SameFrom(old(rk[..]), rk[..], n + 1)
  {
    hide Unpack, Xor32, Expanded;
    ExpandNext(key, n, rk[n - nk], rk[n - 1]);
    rk[n] := Xor32(rk[n - nk], rk[n - 1]);
  }

  method MiddleWord(rk: array<bv32>, n: nat, ghost key: seq<bv8>)
    requires |key| == 32 && 8 <= n < rk.Length && n % 8 == 4 && ExpandedTo(rk, key, n)
    modifies rk
    ensures ExpandedTo(rk, key, n + 1)
    ensures SameFrom(old(rk[..]), rk[..], n + 1)
  {
    hide Unpack, Xor32, SubWord, Expanded;
    ExpandMiddle(key, n, rk[n - 8], rk[n - 1]);
    rk[n] := Xor32(rk[n - 8], SubWord(rk[n - 1]));
  }

  method Expand128(rk: array<bv32>, ghost key: seq<bv8>)
    requires rk.Length == MAX_WORDS && |key| == 16 && ExpandedTo(rk, key, 4)
    modifies rk
    ensures ExpandedTo(rk, key, 44)
    ensures SameFrom(old(rk[..]), rk[..], 44)
  {
    hide ExpandedTo;
    var i, p := 0, 0;
    while true
      invariant 0 <= i < 10 && p == 4 * i && ExpandedTo(rk, key, p + 4)
      invariant SameFrom(old(rk[..]), rk[..], 44)
      decreases 10 - i
    {
      FirstWord(rk, p + 4, 4, i, key);
      NextWord(rk, p + 5, 4, key);
      NextWord(rk, p + 6, 4, key);
      NextWord(rk, p + 7, 4, key);
      i := i + 1;
      if i == 10 {
        return;
      }
      p := p + 4;
    }
  }

  method Expand192(rk: array<bv32>, ghost key: seq<bv8>)
    requires rk.Length == MAX_WORDS && |key| == 24 && ExpandedTo(rk, key, 6)
    modifies rk
    ensures ExpandedTo(rk, key, 52)
    ensures SameFrom(old(rk[..]), rk[..], 52)
  {
    hide ExpandedTo;
    var i, p := 0, 0;
    while true
      invariant 0 <= i < 8 && p == 6 * i && ExpandedTo(rk, key, p + 6)
      invariant SameFrom(old(rk[..]), rk[..], 52)
      decreases 8 - i
    {
      FirstWord(rk, p + 6, 6, i, key);
      NextWord(rk, p + 7, 6, key);
      NextWord(rk, p + 8, 6, key);
      NextWord(rk, p + 9, 6, key);
      i := i + 1;
      if i == 8 {
        return;
      }
      NextWord(rk, p + 10, 6, key);
      NextWord(rk, p + 11, 6, key);
      p := p + 6;
    }
  }

  method Expand256(rk: array<bv32>, ghost key: seq<bv8>)
    requires rk.Length == MAX_WORDS && |key| == 32 && ExpandedTo(rk, key, 8)
    modifies rk
    ensures ExpandedTo(rk, key, 60)
    ensures SameFrom(old(rk[..]), rk[..], 60)
  {
    hide ExpandedTo;
    var i, p := 0, 0;
    while true
      invariant 0 <= i < 7 && p == 8 * i && ExpandedTo(rk, key, p + 8)
      invariant SameFrom(old(rk[..]), rk[..], 60)
      decreases 7 - i
    {
      FirstWord(rk, p + 8, 8, i, key);
      NextWord(rk, p + 9, 8, key);
      NextWord(rk, p + 10, 8, key);
      NextWord(rk, p + 11, 8, key);
      i := i + 1;
      if i == 7 {
        return;
      }
      MiddleWord(rk, p + 12, key);
      NextWord(rk, p + 13, 8, key);
      NextWord(rk, p + 14, 8, key);
      NextWord(rk, p + 15, 8, key);
      p := p + 8;
    }
  }

  lemma KeyWordExpands(key: seq<bv8>, i: nat)
    requires KeySize(key) && i < |key| / 4
    ensures Expanded(key, i) == KeyWord(key, i)
  {
  }

  /** Reads `n` words of the user key. */
  method LoadWords(userKey: array<bv8>, rk: array<bv32>, from: nat, to: nat, ghost key: seq<bv8>)
    requires KeySize(key) && from <= to <= |key| / 4 && |key| <= userKey.Length && key == userKey[..|key|]
    requires to <= rk.Length && ExpandedTo(rk, key, from)
    modifies rk
    ensures ExpandedTo(rk, key, to)
    ensures SameFrom(old(rk[..]), rk[..], to)
  {
    hide Unpack, Word, Expanded;
    var n := from;
    while n < to
      invariant from <= n <= to && ExpandedTo(rk, key, n)
      invariant SameFrom(old(rk[..]), rk[..], to)
    {
      KeyWordExpands(key, n);
      GetWord(userKey, 4 * n, key, n);
      rk[n] := Word(userKey[4 * n], userKey[4 * n + 1], userKey[4 * n + 2], userKey[4 * n + 3]);
      n := n + 1;
    }
  }

  lemma GetWord(buf: array<bv8>, off: nat, b: seq<bv8>, i: nat)
    requires off + 4 <= buf.Length && 4 * i + 4 <= |b| && b[4 * i..4 * i + 4] == buf[off..off + 4]
    ensures Unpack(Word(buf[off], buf[off + 1], buf[off + 2], buf[off + 3])) == KeyWord(b, i)
  {
    hide Unpack, Word;
    UnpackPack(Column(buf[off], buf[off + 1], buf[off + 2], buf[off + 3]));
    var s := b[4 * i..4 * i + 4];
    assert s[0] == buf[off] && s[1] == buf[off + 1] && s[2] == buf[off + 2] && s[3] == buf[off + 3];
  }

  /** Expands the cipher key into the encryption schedule. */
  method SetEncryptKey(userKey: array?<bv8>, bits: int, key: AesKey?) returns (status: int)
    requires key != null ==> key.rdKey.Length == MAX_WORDS
    requires userKey != null && bits in {128, 192, 256} ==> userKey.Length >= bits / 8
    modifies key, if key == null then {} else {key.rdKey}
    ensures status == if userKey == null || key == null then -1 else if bits !in {128, 192, 256} then -2 else 0
    ensures status == 0 ==>
              var k := old(userKey[..bits / 8]);
              && key.rounds == Rounds(k) && key.Schedule() == KeySchedule(k) && IsExpansion(k, key.Schedule())
              && key.rounds == (if bits == 128 then 10 else if bits == 192 then 12 else 14)
              && SameFrom(old(key.rdKey[..]), key.rdKey[..], 4 * key.rounds + 4)
    ensures status < 0 && key != null ==> key.rounds == old(key.rounds) && key.rdKey[..] == old(key.rdKey[..])
  {
    hide IsExpansion;
    if userKey == null || key == null {
      return -1;
    }
    if bits != 128 && bits != 192 && bits != 256 {
      return -2;
    }
    ghost var k := userKey[..bits / 8];
    var rk := key.rdKey;
    key.rounds := if bits == 128 then 10 else if bits == 192 then 12 else 14;
    LoadWords(userKey, rk, 0, 4, k);
    if bits == 128 {
      Expand128(rk, k);
    } else {
      LoadWords(userKey, rk, 4, 6, k);
      if bits == 192 {
        Expand192(rk, k);
      } else {
        LoadWords(userKey, rk, 6, 8, k);
        Expand256(rk, k);
      }
    }
    ScheduleFromWords(key, k);
    KeyScheduleExpands(k);
    return 0;
  }

  lemma ScheduleFromWords(key: AesKey, k: seq<bv8>)
    requires KeySize(k) && key.rounds == Rounds(k) && key.rdKey.Length == MAX_WORDS
    requires ExpandedTo(key.rdKey, k, 4 * Rounds(k) + 4)
    ensures key.Schedule() == KeySchedule(k)
  {
    hide Unpack, Expanded;
  }

  // ---------------------------------------------------------------- the decryption schedule

  function ReverseIndex(nr: nat, k: nat): (r: nat)
    requires k < 4 * nr + 4
    ensures r < 4 * nr + 4
  {
    4 * (nr - k / 4) + k % 4
  }

  method SwapWords(rk: array<bv32>, i: nat, j: nat)
    requires i < rk.Length && j < rk.Length
    modifies rk
    ensures rk[i] == old(rk[j]) && rk[j] == old(rk[i])
    ensures forall k :: 0 <= k < rk.Length && k != i && k != j ==> rk[k] == old(rk[k])
  {
    var temp := rk[i];
    rk[i] := rk[j];
    rk[j] := temp;
  }

  lemma ReverseIndexAt(nr: nat, i: nat, k: nat)
    requires i % 4 == 0 && i <= k < i + 4 && i <= 4 * nr
    ensures ReverseIndex(nr, k) == k - i + (4 * nr - i)
  {
  }

  lemma MirrorIsAligned(nr: nat, i: nat, j: nat)
    requires i % 4 == 0 && i + j == 4 * nr
    ensures j % 4 == 0
  {
  }

  lemma SwappedIndices(nr: nat, i: nat, j: nat)
    requires i % 4 == 0 && i <= j && i + j == 4 * nr
    ensures forall k: nat :: i <= k < i + 4 ==> ReverseIndex(nr, k) == k - i + j
    ensures forall k: nat :: j <= k < j + 4 ==> ReverseIndex(nr, k) == k - j + i
  {
    hide ReverseIndex;
    MirrorIsAligned(nr, i, j);
    forall k: nat
      ensures i <= k < i + 4 ==> ReverseIndex(nr, k) == k - i + j
      ensures j <= k < j + 4 ==> ReverseIndex(nr, k) == k - j + i
    {
      if i <= k < i + 4 {
        ReverseIndexAt(nr, i, k);
      }
      if j <= k < j + 4 {
        ReverseIndexAt(nr, j, k);
      }
    }
  }

  /** Exchanges two round keys. */
  method SwapRoundKeys(rk: array<bv32>, i: nat, j: nat)
    requires i + 4 <= j && j + 4 <= rk.Length
    modifies rk
    ensures forall k {:trigger rk[k]} :: 0 <= k < rk.Length ==>
              rk[k] == if i <= k < i + 4 then old(rk[k - i + j])
                       else if j <= k < j + 4 then old(rk[k - j + i]) else old(rk[k])
  {
    SwapWords(rk, i, j);
    SwapWords(rk, i + 1, j + 1);
    SwapWords(rk, i + 2, j + 2);
    SwapWords(rk, i + 3, j + 3);
  }

  /** Inverts the order of the round keys. */
  method ReverseRoundKeys(rk: array<bv32>, nr: nat)
    requires 4 * nr + 4 <= rk.Length
    modifies rk
    ensures forall k: nat :: k < 4 * nr + 4 ==> rk[k] == old(rk[ReverseIndex(nr, k)])
    ensures SameFrom(old(rk[..]), rk[..], 4 * nr + 4)
  {
    hide ReverseIndex, OuterReversed;
    var i, j: int := 0, 4 * nr;
    ghost var r0 := rk[..];
    NothingReversed(nr, r0);
    while i < j
      invariant 0 <= i && i % 4 == 0 && j == 4 * nr - i && i <= j + 4
      invariant OuterReversed(nr, r0, rk[..], i, j + 4)
      invariant SameFrom(r0, rk[..], 4 * nr + 4)
      decreases j - i
    {
      ghost var r := rk[..];
      SwapRoundKeys(rk, i, j);
      SwapReverses(nr, r0, r, rk[..], i, j);
      i := i + 4;
      j := j - 4;
    }
    AllReversed(nr, r0, rk[..], i, j);
  }

  /** Words before `i` and from `j` on are where reversal puts them, the others where they were. */
  ghost predicate OuterReversed(nr: nat, r0: seq<bv32>, r: seq<bv32>, i: int, j: int) {
    |r| == |r0| >= 4 * nr + 4
    && forall k: nat :: k < 4 * nr + 4 ==> r[k] == if k < i || k >= j then r0[ReverseIndex(nr, k)] else r0[k]
  }

  lemma NothingReversed(nr: nat, r0: seq<bv32>)
    requires |r0| >= 4 * nr + 4
    ensures OuterReversed(nr, r0, r0, 0, 4 * nr + 4)
  {
    hide ReverseIndex;
  }

  lemma SwapReverses(nr: nat, r0: seq<bv32>, r: seq<bv32>, r': seq<bv32>, i: nat, j: nat)
    requires i % 4 == 0 && i < j && i + j == 4 * nr && OuterReversed(nr, r0, r, i, j + 4) && |r'| == |r|
    requires forall k {:trigger r'[k]} :: 0 <= k < |r| ==>
               r'[k] == if i <= k < i + 4 then r[k - i + j] else if j <= k < j + 4 then r[k - j + i] else r[k]
    ensures OuterReversed(nr, r0, r', i + 4, j)
  {
    hide ReverseIndex;
    SwappedIndices(nr, i, j);
    forall k: nat | k < 4 * nr + 4
      ensures r'[k] == if k < i + 4 || k >= j then r0[ReverseIndex(nr, k)] else r0[k]
    {
      if i <= k < i + 4 {
        assert ReverseIndex(nr, k) == k - i + j;
      } else if j <= k < j + 4 {
        assert ReverseIndex(nr, k) == k - j + i;
      }
    }
  }

  /** An even number of rounds leaves a round key in the middle, where it belongs. */
  lemma AllReversed(nr: nat, r0: seq<bv32>, r: seq<bv32>, i: nat, j: int)
    requires i % 4 == 0 && j <= i && i + j == 4 * nr && i <= j + 4 && OuterReversed(nr, r0, r, i, j + 4)
    ensures forall k: nat :: k < 4 * nr + 4 ==> r[k] == r0[ReverseIndex(nr, k)]
  {
    hide ReverseIndex;
    EndsMeet(nr, i, j);
    if i == j {
      SwappedIndices(nr, i, i);
    }
  }

  lemma EndsMeet(nr: nat, i: nat, j: int)
    requires i % 4 == 0 && j <= i && i + j == 4 * nr && i <= j + 4
    ensures i == j || i == j + 4
  {
  }

  /** InvMixColumns of a word by the decryption tables, undoing their S-box with the encryption one. */
  function InvMixWord(w: bv32): bv32 {
    Sum(Td0((Te4(Byte0(w)) & 0xff) as bv8), Td1((Te4(Byte1(w)) & 0xff) as bv8),
        Td2((Te4(Byte2(w)) & 0xff) as bv8), Td3((Te4(Byte3(w)) & 0xff) as bv8))
  }

  lemma LowByteOfWord(a: bv8, b: bv8, c: bv8, d: bv8)
    ensures (Word(a, b, c, d) & 0xff) as bv8 == d
  {
  }

  lemma InvMixWordOk(w: bv32)
    ensures Unpack(InvMixWord(w)) == InvMixColumn(Unpack(w))
  {
    hide SBox, InvSBox, Word, Sum, Td0, Td1, Td2, Td3, Byte0, Byte1, Byte2, Byte3, InvMixColumn;
    var c := Column(Byte0(w), Byte1(w), Byte2(w), Byte3(w));
    LowByteOfWord(SBox(c.b0), SBox(c.b0), SBox(c.b0), SBox(c.b0));
    LowByteOfWord(SBox(c.b1), SBox(c.b1), SBox(c.b1), SBox(c.b1));
    LowByteOfWord(SBox(c.b2), SBox(c.b2), SBox(c.b2), SBox(c.b2));
    LowByteOfWord(SBox(c.b3), SBox(c.b3), SBox(c.b3), SBox(c.b3));
    DecTables(SBox(c.b0), SBox(c.b1), SBox(c.b2), SBox(c.b3));
    InvSubColumnUndoes(c);
    assert SubColumn(c) == Column(SBox(c.b0), SBox(c.b1), SBox(c.b2), SBox(c.b3));
  }

  /** Applies InvMixColumns to one round key. */
  method MixRoundKey(rk: array<bv32>, p: nat)
    requires p + 4 <= rk.Length
    modifies rk
    ensures forall k {:trigger rk[k]} :: 0 <= k < rk.Length ==>
              rk[k] == if p <= k < p + 4 then InvMixWord(old(rk[k])) else old(rk[k])
  {
    hide InvMixWord;
    rk[p] := InvMixWord(rk[p]);
    rk[p + 1] := InvMixWord(rk[p + 1]);
    rk[p + 2] := InvMixWord(rk[p + 2]);
    rk[p + 3] := InvMixWord(rk[p + 3]);
  }

  /** Applies InvMixColumns to all round keys but the first and the last. */
  method MixRoundKeys(rk: array<bv32>, nr: nat)
    requires 4 * nr + 4 <= rk.Length && nr > 0
    modifies rk
    ensures forall k: nat :: k < 4 * nr + 4 ==>
              rk[k] == if k < 4 || k >= 4 * nr then old(rk[k]) else InvMixWord(old(rk[k]))
    ensures SameFrom(old(rk[..]), rk[..], 4 * nr + 4)
  {
    hide InvMixWord;
    var p := 0;
    for i := 1 to nr
      invariant p == 4 * (i - 1)
      invariant forall k: nat :: k < 4 * nr + 4 ==>
                  rk[k] == if k < 4 || k >= p + 4 then old(rk[k]) else InvMixWord(old(rk[k]))
      invariant SameFrom(old(rk[..]), rk[..], 4 * nr + 4)
    {
      p := p + 4;
      MixRoundKey(rk, p);
    }
  }

  /** Turns an encryption schedule into the decryption schedule, in place. */
  method InvertSchedule(key: AesKey)
    requires key.rdKey.Length == MAX_WORDS && 0 < key.rounds && 4 * key.rounds + 4 <= MAX_WORDS
    modifies key.rdKey
    ensures key.Schedule() == DecSchedule(old(key.Schedule()), key.rounds)
    ensures SameFrom(old(key.rdKey[..]), key.rdKey[..], 4 * key.rounds + 4)
  {
    hide ColumnsOf, DecSchedule, InvMixWord, ReverseIndex;
    ghost var w := key.Schedule();
    var rk, nr := key.rdKey, key.rounds;
    ghost var r0 := rk[..];
    assert r0[..4 * nr + 4] == rk[..4 * nr + 4];
    ReverseRoundKeys(rk, nr);
    ghost var r1 := rk[..];
    MixRoundKeys(rk, nr);
    ghost var r2 := rk[..];
    DecScheduleFromWords(w, nr, r0, r1, r2);
    assert r2[..4 * nr + 4] == rk[..4 * nr + 4];
  }

  /** Expands the cipher key into the decryption schedule. */
  method SetDecryptKey(userKey: array?<bv8>, bits: int, key: AesKey?) returns (status: int)
    requires key != null ==> key.rdKey.Length == MAX_WORDS
    requires userKey != null && bits in {128, 192, 256} ==> userKey.Length >= bits / 8
    modifies key, if key == null then {} else {key.rdKey}
    ensures status == if userKey == null || key == null then -1 else if bits !in {128, 192, 256} then -2 else 0
    ensures status == 0 ==>
              var k := old(userKey[..bits / 8]);
              && key.rounds == Rounds(k) && key.Schedule() == DecSchedule(KeySchedule(k), Rounds(k))
              && SameFrom(old(key.rdKey[..]), key.rdKey[..], 4 * key.rounds + 4)
    ensures status < 0 && key != null ==> key.rounds == old(key.rounds) && key.rdKey[..] == old(key.rdKey[..])
  {
    hide ColumnsOf, DecSchedule, KeySchedule, IsExpansion;
    status := SetEncryptKey(userKey, bits, key);
    if status < 0 {
      return;
    }
    InvertSchedule(key);
  }

  lemma DecScheduleFromWords(w: AesCipher.Schedule, nr: nat, r0: seq<bv32>, r1: seq<bv32>, r2: seq<bv32>)
    requires nr > 0 && |w| == 4 * nr + 4 <= |r0| == |r1| == |r2| && w == ColumnsOf(r0[..4 * nr + 4])
    requires forall k: nat :: k < 4 * nr + 4 ==> r1[k] == r0[ReverseIndex(nr, k)]
    requires forall k: nat :: k < 4 * nr + 4 ==> r2[k] == if k < 4 || k >= 4 * nr then r1[k] else InvMixWord(r1[k])
    ensures ColumnsOf(r2[..4 * nr + 4]) == DecSchedule(w, nr)
  {
    hide Unpack, InvMixWord, InvMixColumn;
    forall k: nat | k < 4 * nr + 4
      ensures Unpack(r2[k]) == DecWord(w, nr, k)
    {
      var j := ReverseIndex(nr, k);
      assert r0[..4 * nr + 4][j] == r0[j] && w[j] == Unpack(r0[j]);
      InvMixWordOk(r1[k]);
    }
  }

  // ---------------------------------------------------------------- one block

  ghost predicate Ready(key: AesKey)
    reads key
  {
    key.rdKey.Length == MAX_WORDS && key.rounds in {10, 12, 14}
  }

  function GetU32(b: seq<bv8>, off: nat): bv32
    requires off + 4 <= |b|
  {
    Word(b[off], b[off + 1], b[off + 2], b[off + 3])
  }

  /** The state that four words hold. */
  function StateOfWords(s0: bv32, s1: bv32, s2: bv32, s3: bv32): State {
    State(Unpack(s0), Unpack(s1), Unpack(s2), Unpack(s3))
  }

  /** One word of an encryption round: four lookups and the round key. */
  function EncWord(a: bv32, b: bv32, c: bv32, d: bv32, k: bv32): bv32 {
    Xor32(Sum(Te0(Byte0(a)), Te1(Byte1(b)), Te2(Byte2(c)), Te3(Byte3(d))), k)
  }

  function EncLastWord(a: bv32, b: bv32, c: bv32, d: bv32, k: bv32): bv32 {
    Xor32(MaskedSum(Te4(Byte0(a)), Te4(Byte1(b)), Te4(Byte2(c)), Te4(Byte3(d))), k)
  }

  function DecWord32(a: bv32, b: bv32, c: bv32, d: bv32, k: bv32): bv32 {
    Xor32(Sum(Td0(Byte0(a)), Td1(Byte1(b)), Td2(Byte2(c)), Td3(Byte3(d))), k)
  }

  function DecLastWord(a: bv32, b: bv32, c: bv32, d: bv32, k: bv32): bv32 {
    Xor32(MaskedSum(Td4(Byte0(a)), Td4(Byte1(b)), Td4(Byte2(c)), Td4(Byte3(d))), k)
  }

  lemma EncWordOk(a: bv32, b: bv32, c: bv32, d: bv32, k: bv32)
    ensures Unpack(EncWord(a, b, c, d, k)) ==
            XorColumn(MixColumn(SubColumn(Column(Byte0(a), Byte1(b), Byte2(c), Byte3(d)))), Unpack(k))
  {
    hide Unpack, Xor32, Sum, Te0, Te1, Te2, Te3, Byte0, Byte1, Byte2, Byte3, XorColumn, MixColumn, SubColumn;
    UnpackXor(Sum(Te0(Byte0(a)), Te1(Byte1(b)), Te2(Byte2(c)), Te3(Byte3(d))), k);
    EncTables(Byte0(a), Byte1(b), Byte2(c), Byte3(d));
  }

  lemma EncLastWordOk(a: bv32, b: bv32, c: bv32, d: bv32, k: bv32)
    ensures Unpack(EncLastWord(a, b, c, d, k)) ==
            XorColumn(SubColumn(Column(Byte0(a), Byte1(b), Byte2(c), Byte3(d))), Unpack(k))
  {
    hide Unpack, Xor32, MaskedSum, Word, SBox, Byte0, Byte1, Byte2, Byte3, XorColumn;
    UnpackXor(MaskedSum(Te4(Byte0(a)), Te4(Byte1(b)), Te4(Byte2(c)), Te4(Byte3(d))), k);
    MaskedBytes(SBox(Byte0(a)), SBox(Byte1(b)), SBox(Byte2(c)), SBox(Byte3(d)));
  }

  lemma DecWord32Ok(a: bv32, b: bv32, c: bv32, d: bv32, k: bv32)
    ensures Unpack(DecWord32(a, b, c, d, k)) ==
            XorColumn(InvMixColumn(InvSubColumn(Column(Byte0(a), Byte1(b), Byte2(c), Byte3(d)))), Unpack(k))
  {
    hide Unpack, Xor32, Sum, Td0, Td1, Td2, Td3, Byte0, Byte1, Byte2, Byte3, XorColumn, InvMixColumn, InvSubColumn;
    UnpackXor(Sum(Td0(Byte0(a)), Td1(Byte1(b)), Td2(Byte2(c)), Td3(Byte3(d))), k);
    DecTables(Byte0(a), Byte1(b), Byte2(c), Byte3(d));
  }

  lemma DecLastWordOk(a: bv32, b: bv32, c: bv32, d: bv32, k: bv32)
    ensures Unpack(DecLastWord(a, b, c, d, k)) ==
            XorColumn(InvSubColumn(Column(Byte0(a), Byte1(b), Byte2(c), Byte3(d))), Unpack(k))
  {
    hide Unpack, Xor32, MaskedSum, Word, InvSBox, Byte0, Byte1, Byte2, Byte3, XorColumn;
    UnpackXor(MaskedSum(Td4(Byte0(a)), Td4(Byte1(b)), Td4(Byte2(c)), Td4(Byte3(d))), k);
    MaskedBytes(InvSBox(Byte0(a)), InvSBox(Byte1(b)), InvSBox(Byte2(c)), InvSBox(Byte3(d)));
  }

  /** Four such words are a whole round. */
  lemma EncRoundOk(s0: bv32, s1: bv32, s2: bv32, s3: bv32, k0: bv32, k1: bv32, k2: bv32, k3: bv32)
    ensures StateOfWords(EncWord(s0, s1, s2, s3, k0), EncWord(s1, s2, s3, s0, k1),
                         EncWord(s2, s3, s0, s1, k2), EncWord(s3, s0, s1, s2, k3)) ==
            EncRound(StateOfWords(s0, s1, s2, s3), StateOfWords(k0, k1, k2, k3))
  {
    hide SBox, MixColumn, XorColumn, EncWord, Byte0, Byte1, Byte2, Byte3;
    EncWordOk(s0, s1, s2, s3, k0);
    EncWordOk(s1, s2, s3, s0, k1);
    EncWordOk(s2, s3, s0, s1, k2);
    EncWordOk(s3, s0, s1, s2, k3);
  }

  lemma EncLastOk(s0: bv32, s1: bv32, s2: bv32, s3: bv32, k0: bv32, k1: bv32, k2: bv32, k3: bv32)
    ensures StateOfWords(EncLastWord(s0, s1, s2, s3, k0), EncLastWord(s1, s2, s3, s0, k1),
                         EncLastWord(s2, s3, s0, s1, k2), EncLastWord(s3, s0, s1, s2, k3)) ==
            EncLast(StateOfWords(s0, s1, s2, s3), StateOfWords(k0, k1, k2, k3))
  {
    hide SBox, XorColumn, EncLastWord, Byte0, Byte1, Byte2, Byte3;
    EncLastWordOk(s0, s1, s2, s3, k0);
    EncLastWordOk(s1, s2, s3, s0, k1);
    EncLastWordOk(s2, s3, s0, s1, k2);
    EncLastWordOk(s3, s0, s1, s2, k3);
  }

  lemma DecRoundOk(s0: bv32, s1: bv32, s2: bv32, s3: bv32, k0: bv32, k1: bv32, k2: bv32, k3: bv32)
    ensures StateOfWords(DecWord32(s0, s3, s2, s1, k0), DecWord32(s1, s0, s3, s2, k1),
                         DecWord32(s2, s1, s0, s3, k2), DecWord32(s3, s2, s1, s0, k3)) ==
            DecRound(StateOfWords(s0, s1, s2, s3), StateOfWords(k0, k1, k2, k3))
  {
    hide InvSBox, InvMixColumn, XorColumn, DecWord32, Byte0, Byte1, Byte2, Byte3;
    DecWord32Ok(s0, s3, s2, s1, k0);
    DecWord32Ok(s1, s0, s3, s2, k1);
    DecWord32Ok(s2, s1, s0, s3, k2);
    DecWord32Ok(s3, s2, s1, s0, k3);
  }

  lemma DecLastOk(s0: bv32, s1: bv32, s2: bv32, s3: bv32, k0: bv32, k1: bv32, k2: bv32, k3: bv32)
    ensures StateOfWords(DecLastWord(s0, s3, s2, s1, k0), DecLastWord(s1, s0, s3, s2, k1),
                         DecLastWord(s2, s1, s0, s3, k2), DecLastWord(s3, s2, s1, s0, k3)) ==
            DecLast(StateOfWords(s0, s1, s2, s3), StateOfWords(k0, k1, k2, k3))
  {
    hide InvSBox, XorColumn, DecLastWord, Byte0, Byte1, Byte2, Byte3;
    DecLastWordOk(s0, s3, s2, s1, k0);
    DecLastWordOk(s1, s0, s3, s2, k1);
    DecLastWordOk(s2, s1, s0, s3, k2);
    DecLastWordOk(s3, s2, s1, s0, k3);
  }

  /** The words of a round key are the schedule's columns. */
  lemma RoundKeyOfWords(rk: seq<bv32>, nr: nat, r: nat)
    requires r <= nr && 4 * nr + 4 <= |rk|
    ensures RoundKey(ColumnsOf(rk[..4 * nr + 4]), r) ==
            StateOfWords(rk[4 * r], rk[4 * r + 1], rk[4 * r + 2], rk[4 * r + 3])
  {
    hide Unpack;
  }

  lemma LoadState(b: seq<bv8>, k0: bv32, k1: bv32, k2: bv32, k3: bv32)
    requires |b| == BLOCK
    ensures StateOfWords(Xor32(GetU32(b, 0), k0), Xor32(GetU32(b, 4), k1), Xor32(GetU32(b, 8), k2),
              Xor32(GetU32(b, 12), k3)) ==
            Xor(StateOf(b), StateOfWords(k0, k1, k2, k3))
  {
    hide Unpack, Word, Xor32, XorColumn;
    UnpackXor(GetU32(b, 0), k0);
    UnpackXor(GetU32(b, 4), k1);
    UnpackXor(GetU32(b, 8), k2);
    UnpackXor(GetU32(b, 12), k3);
    UnpackPack(KeyWord(b, 0));
    UnpackPack(KeyWord(b, 1));
    UnpackPack(KeyWord(b, 2));
    UnpackPack(KeyWord(b, 3));
  }

  /** Stores a word, most significant byte first. */
  method PutU32(out: array<bv8>, off: nat, w: bv32)
    requires off + 4 <= out.Length
    modifies out
    ensures out[off..off + 4] == ColumnBytes(Unpack(w))
    ensures forall k :: 0 <= k < out.Length && !(off <= k < off + 4) ==> out[k] == old(out[k])
  {
    hide Byte0, Byte1, Byte2, Byte3;
    out[off] := Byte0(w);
    out[off + 1] := Byte1(w);
    out[off + 2] := Byte2(w);
    out[off + 3] := Byte3(w);
  }

  /** Stores the four words of a block. */
  method PutBlock(out: array<bv8>, off: nat, s0: bv32, s1: bv32, s2: bv32, s3: bv32)
    requires off + BLOCK <= out.Length
    modifies out
    ensures out[off..off + BLOCK] == BytesOf(StateOfWords(s0, s1, s2, s3))
    ensures forall k :: 0 <= k < out.Length && !(off <= k < off + BLOCK) ==> out[k] == old(out[k])
  {
    hide Unpack, ColumnBytes, BytesOf, StateOfWords;
    PutU32(out, off, s0);
    PutU32(out, off + 4, s1);
    assert out[off..off + 4] == ColumnBytes(Unpack(s0));
    PutU32(out, off + 8, s2);
    assert out[off..off + 4] == ColumnBytes(Unpack(s0)) && out[off + 4..off + 8] == ColumnBytes(Unpack(s1));
    PutU32(out, off + 12, s3);
    assert out[off..off + 4] == ColumnBytes(Unpack(s0)) && out[off + 4..off + 8] == ColumnBytes(Unpack(s1));
    assert out[off + 8..off + 12] == ColumnBytes(Unpack(s2));
    FourParts(out[..], off);
    BytesOfWords(s0, s1, s2, s3);
  }

  lemma FourParts(b: seq<bv8>, off: nat)
    requires off + BLOCK <= |b|
    ensures b[off..off + BLOCK] == b[off..off + 4] + b[off + 4..off + 8] + b[off + 8..off + 12] + b[off + 12..off + 16]
  {
    JoinSlices(b, off, off + 4, off + 8);
    JoinSlices(b, off, off + 8, off + 12);
    JoinSlices(b, off, off + 12, off + 16);
  }

  lemma JoinSlices(b: seq<bv8>, i: nat, j: nat, k: nat)
    requires i <= j <= k <= |b|
    ensures b[i..j] + b[j..k] == b[i..k]
  {
  }

  lemma BytesOfWords(s0: bv32, s1: bv32, s2: bv32, s3: bv32)
    ensures BytesOf(StateOfWords(s0, s1, s2, s3)) ==
            ColumnBytes(Unpack(s0)) + ColumnBytes(Unpack(s1)) + ColumnBytes(Unpack(s2)) + ColumnBytes(Unpack(s3))
  {
    hide Unpack;
  }

  /** What encryption under `w` makes of a block of bytes. */
  function EncryptBlock(b: seq<bv8>, w: AesCipher.Schedule, nr: nat): (r: seq<bv8>)
    requires |b| == BLOCK && nr > 0 && |w| == 4 * nr + 4
    ensures |r| == BLOCK
  {
    BytesOf(Cipher(StateOf(b), w, nr))
  }

  function DecryptBlock(b: seq<bv8>, w: AesCipher.Schedule, nr: nat): (r: seq<bv8>)
    requires |b| == BLOCK && nr > 0 && |w| == 4 * nr + 4
    ensures |r| == BLOCK
  {
    BytesOf(EqInvCipher(StateOf(b), w, nr))
  }

  /** The initial state of either cipher: the block and the first round key. */
  lemma StartOk(rk: array<bv32>, b: seq<bv8>, nr: nat)
    requires |b| == BLOCK && 4 * nr + 4 <= rk.Length
    ensures var s := StateOfWords(Xor32(GetU32(b, 0), rk[0]), Xor32(GetU32(b, 4), rk[1]),
                                  Xor32(GetU32(b, 8), rk[2]), Xor32(GetU32(b, 12), rk[3]));
            && s == EncRounds(StateOf(b), ColumnsOf(rk[..4 * nr + 4]), 0)
            && s == DecRounds(StateOf(b), ColumnsOf(rk[..4 * nr + 4]), 0)
  {
    hide Unpack, Xor32, GetU32, Xor, RoundKey, ColumnsOf, StateOf, StateOfWords;
    LoadState(b, rk[0], rk[1], rk[2], rk[3]);
    RoundKeyOfWords(rk[..], nr, 0);
    assert rk[..][..4 * nr + 4] == rk[..4 * nr + 4];
  }

  /** Round `r` by table lookups, with the round key at word `p`. */
  method EncTableRound(rk: array<bv32>, p: nat, s0: bv32, s1: bv32, s2: bv32, s3: bv32, ghost s: State, ghost nr: nat,
                       ghost r: nat)
    returns (t0: bv32, t1: bv32, t2: bv32, t3: bv32)
    requires 1 <= r <= nr && p == 4 * r && 4 * nr + 4 <= rk.Length
    requires StateOfWords(s0, s1, s2, s3) == EncRounds(s, ColumnsOf(rk[..4 * nr + 4]), r - 1)
    ensures StateOfWords(t0, t1, t2, t3) == EncRounds(s, ColumnsOf(rk[..4 * nr + 4]), r)
  {
    hide EncWord, EncRound, Unpack, RoundKey, ColumnsOf, StateOfWords;
    t0 := EncWord(s0, s1, s2, s3, rk[p]);
    t1 := EncWord(s1, s2, s3, s0, rk[p + 1]);
    t2 := EncWord(s2, s3, s0, s1, rk[p + 2]);
    t3 := EncWord(s3, s0, s1, s2, rk[p + 3]);
    EncRoundOk(s0, s1, s2, s3, rk[p], rk[p + 1], rk[p + 2], rk[p + 3]);
    RoundKeyOfWords(rk[..], nr, r);
    assert rk[..][..4 * nr + 4] == rk[..4 * nr + 4];
  }

  /** The double-round loop: all rounds but the last, from the state in `s0` to `s3`. */
  method EncFullRounds(rk: array<bv32>, a0: bv32, a1: bv32, a2: bv32, a3: bv32, nr: nat, ghost s: State)
    returns (t0: bv32, t1: bv32, t2: bv32, t3: bv32)
    requires nr in {10, 12, 14} && 4 * nr + 4 <= rk.Length
    requires StateOfWords(a0, a1, a2, a3) == EncRounds(s, ColumnsOf(rk[..4 * nr + 4]), 0)
    ensures StateOfWords(t0, t1, t2, t3) == EncRounds(s, ColumnsOf(rk[..4 * nr + 4]), nr - 1)
  {
    hide EncRounds, ColumnsOf, StateOfWords;
    var s0, s1, s2, s3 := a0, a1, a2, a3;
    var r, p := nr / 2, 0;
    while true
      invariant 1 <= r <= nr / 2 && p == 8 * (nr / 2 - r)
      invariant StateOfWords(s0, s1, s2, s3) == EncRounds(s, ColumnsOf(rk[..4 * nr + 4]), p / 4)
      decreases r
    {
      t0, t1, t2, t3 := EncTableRound(rk, p + 4, s0, s1, s2, s3, s, nr, p / 4 + 1);
      p := p + 8;
      r := r - 1;
      if r == 0 {
        break;
      }
      s0, s1, s2, s3 := EncTableRound(rk, p, t0, t1, t2, t3, s, nr, p / 4);
    }
  }

  /** Encrypts one block; input and output may be the same bytes. */
  method Encrypt(src: array<bv8>, so: nat, dst: array<bv8>, d: nat, key: AesKey)
    requires Ready(key) && so + BLOCK <= src.Length && d + BLOCK <= dst.Length
    modifies dst
    ensures dst[d..d + BLOCK] == EncryptBlock(old(src[so..so + BLOCK]), key.Schedule(), key.rounds)
    ensures forall k :: 0 <= k < dst.Length && !(d <= k < d + BLOCK) ==> dst[k] == old(dst[k])
  {
    hide EncLastWord, EncLast, Unpack, Xor32, GetU32, Xor, RoundKey, ColumnsOf, StateOf, BytesOf, StateOfWords,
        EncRounds;
    var rk, nr := key.rdKey, key.rounds;
    var b := src[so..so + BLOCK];
    StartOk(rk, b, nr);
    var t0, t1, t2, t3 := EncFullRounds(rk, Xor32(GetU32(b, 0), rk[0]), Xor32(GetU32(b, 4), rk[1]),
                                        Xor32(GetU32(b, 8), rk[2]), Xor32(GetU32(b, 12), rk[3]), nr, StateOf(b));
    var p := 4 * nr;
    EncLastOk(t0, t1, t2, t3, rk[p], rk[p + 1], rk[p + 2], rk[p + 3]);
    RoundKeyOfWords(rk[..], nr, nr);
    assert rk[..][..4 * nr + 4] == rk[..4 * nr + 4];
    var s0 := EncLastWord(t0, t1, t2, t3, rk[p]);
    var s1 := EncLastWord(t1, t2, t3, t0, rk[p + 1]);
    var s2 := EncLastWord(t2, t3, t0, t1, rk[p + 2]);
    var s3 := EncLastWord(t3, t0, t1, t2, rk[p + 3]);
    PutBlock(dst, d, s0, s1, s2, s3);
  }

  /** Round `r` by table lookups, with the round key at word `p`. */
  method DecTableRound(rk: array<bv32>, p: nat, s0: bv32, s1: bv32, s2: bv32, s3: bv32, ghost s: State, ghost nr: nat,
                       ghost r: nat)
    returns (t0: bv32, t1: bv32, t2: bv32, t3: bv32)
    requires 1 <= r <= nr && p == 4 * r && 4 * nr + 4 <= rk.Length
    requires StateOfWords(s0, s1, s2, s3) == DecRounds(s, ColumnsOf(rk[..4 * nr + 4]), r - 1)
    ensures StateOfWords(t0, t1, t2, t3) == DecRounds(s, ColumnsOf(rk[..4 * nr + 4]), r)
  {
    hide DecWord32, DecRound, Unpack, RoundKey, ColumnsOf, StateOfWords;
    t0 := DecWord32(s0, s3, s2, s1, rk[p]);
    t1 := DecWord32(s1, s0, s3, s2, rk[p + 1]);
    t2 := DecWord32(s2, s1, s0, s3, rk[p + 2]);
    t3 := DecWord32(s3, s2, s1, s0, rk[p + 3]);
    DecRoundOk(s0, s1, s2, s3, rk[p], rk[p + 1], rk[p + 2], rk[p + 3]);
    RoundKeyOfWords(rk[..], nr, r);
    assert rk[..][..4 * nr + 4] == rk[..4 * nr + 4];
  }

  /** The double-round loop: all rounds but the last, from the state in `s0` to `s3`. */
  method DecFullRounds(rk: array<bv32>, a0: bv32, a1: bv32, a2: bv32, a3: bv32, nr: nat, ghost s: State)
    returns (t0: bv32, t1: bv32, t2: bv32, t3: bv32)
    requires nr in {10, 12, 14} && 4 * nr + 4 <= rk.Length
    requires StateOfWords(a0, a1, a2, a3) == DecRounds(s, ColumnsOf(rk[..4 * nr + 4]), 0)
    ensures StateOfWords(t0, t1, t2, t3) == DecRounds(s, ColumnsOf(rk[..4 * nr + 4]), nr - 1)
  {
    hide DecRounds, ColumnsOf, StateOfWords;
    var s0, s1, s2, s3 := a0, a1, a2, a3;
    var r, p := nr / 2, 0;
    while true
      invariant 1 <= r <= nr / 2 && p == 8 * (nr / 2 - r)
      invariant StateOfWords(s0, s1, s2, s3) == DecRounds(s, ColumnsOf(rk[..4 * nr + 4]), p / 4)
      decreases r
    {
      t0, t1, t2, t3 := DecTableRound(rk, p + 4, s0, s1, s2, s3, s, nr, p / 4 + 1);
      p := p + 8;
      r := r - 1;
      if r == 0 {
        break;
      }
      s0, s1, s2, s3 := DecTableRound(rk, p, t0, t1, t2, t3, s, nr, p / 4);
    }
  }

  /** Decrypts one block; input and output may be the same bytes. */
  method Decrypt(src: array<bv8>, so: nat, dst: array<bv8>, d: nat, key: AesKey)
    requires Ready(key) && so + BLOCK <= src.Length && d + BLOCK <= dst.Length
    modifies dst
    ensures dst[d..d + BLOCK] == DecryptBlock(old(src[so..so + BLOCK]), key.Schedule(), key.rounds)
    ensures forall k :: 0 <= k < dst.Length && !(d <= k < d + BLOCK) ==> dst[k] == old(dst[k])
  {
    hide DecLastWord, DecLast, Unpack, Xor32, GetU32, Xor, RoundKey, ColumnsOf, StateOf, BytesOf, StateOfWords,
        DecRounds;
    var rk, nr := key.rdKey, key.rounds;
    var b := src[so..so + BLOCK];
    StartOk(rk, b, nr);
    var t0, t1, t2, t3 := DecFullRounds(rk, Xor32(GetU32(b, 0), rk[0]), Xor32(GetU32(b, 4), rk[1]),
                                        Xor32(GetU32(b, 8), rk[2]), Xor32(GetU32(b, 12), rk[3]), nr, StateOf(b));
    var p := 4 * nr;
    DecLastOk(t0, t1, t2, t3, rk[p], rk[p + 1], rk[p + 2], rk[p + 3]);
    RoundKeyOfWords(rk[..], nr, nr);
    assert rk[..][..4 * nr + 4] == rk[..4 * nr + 4];
    var s0 := DecLastWord(t0, t3, t2, t1, rk[p]);
    var s1 := DecLastWord(t1, t0, t3, t2, rk[p + 1]);
    var s2 := DecLastWord(t2, t1, t0, t3, rk[p + 2]);
    var s3 := DecLastWord(t3, t2, t1, t0, rk[p + 3]);
    PutBlock(dst, d, s0, s1, s2, s3);
  }

  /** For every key of 128, 192 or 256 bits and every block, decryption undoes encryption. */
  lemma DecryptUndoesEncrypt(k: seq<bv8>, b: seq<bv8>)
    requires KeySize(k) && |b| == BLOCK
    ensures DecryptBlock(EncryptBlock(b, KeySchedule(k), Rounds(k)), DecSchedule(KeySchedule(k), Rounds(k)),
              Rounds(k)) == b
  {
    hide Cipher, EqInvCipher, Expanded, StateOf, BytesOf, DecSchedule, DecryptBlock, EncryptBlock;
    BlockRoundTrip(b, KeySchedule(k), Rounds(k));
  }

  const EXAMPLE_INPUT: seq<bv8> := [
    0x32, 0x43, 0xf6, 0xa8, 0x88, 0x5a, 0x30, 0x8d, 0x31, 0x31, 0x98, 0xa2, 0xe0, 0x37, 0x07, 0x34]

  const EXAMPLE_OUTPUT: seq<bv8> := [
    0x39, 0x25, 0x84, 0x1d, 0x02, 0xdc, 0x09, 0xfb, 0xdc, 0x11, 0x85, 0x97, 0x19, 0x6a, 0x0b, 0x32]

  /** Appendix B of FIPS 197 as bytes. */
  lemma ExampleBlock()
    ensures |KeySchedule(EXAMPLE_KEY)| == 44
    ensures EncryptBlock(EXAMPLE_INPUT, KeySchedule(EXAMPLE_KEY), 10) == EXAMPLE_OUTPUT
  {
    hide Cipher, KeySchedule;
    ExampleCipher();
    ExampleInput();
    ExampleOutput();
  }

  lemma ExampleInput()
    ensures StateOf(EXAMPLE_INPUT) == Words(0x3243f6a8, 0x885a308d, 0x313198a2, 0xe0370734)
  {
  }

  lemma ExampleOutput()
    ensures BytesOf(Words(0x3925841d, 0x02dc09fb, 0xdc118597, 0x196a0b32)) == EXAMPLE_OUTPUT
  {
  }

  lemma BlockRoundTrip(b: seq<bv8>, w: AesCipher.Schedule, nr: nat)
    requires |b| == BLOCK && nr > 0 && |w| == 4 * nr + 4
    ensures DecryptBlock(EncryptBlock(b, w, nr), DecSchedule(w, nr), nr) == b
  {
    hide Cipher, EqInvCipher, StateOf, BytesOf, DecSchedule;
    StateOfBytes(Cipher(StateOf(b), w, nr));
    EqInvCipherUndoesCipher(StateOf(b), w, nr);
    BytesOfState(b);
  }
}
