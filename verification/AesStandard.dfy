/** The laws of FIPS 197 byte by byte, and its example: what the key expansion and each transformation of the
    cipher are, without the functions they are built from. */
module AesStandard {
  import opened AesTables
  import opened AesCipher

  // ---------------------------------------------------------------- the transformations

  /** The byte in row `r` and column `c` of the state. */
  function At(s: State, r: nat, c: nat): bv8
    requires r < 4 && c < 4
  {
    var col := if c == 0 then s.c0 else if c == 1 then s.c1 else if c == 2 then s.c2 else s.c3;
    if r == 0 then col.b0 else if r == 1 then col.b1 else if r == 2 then col.b2 else col.b3
  }

  /** Row `r` moves left by `r` columns; its inverse moves it right. */
  lemma ShiftRowsIs(s: State, r: nat, c: nat)
    requires r < 4 && c < 4
    ensures At(ShiftRows(s), r, c) == At(s, r, (c + r) % 4) && At(InvShiftRows(s), r, (c + r) % 4) == At(s, r, c)
  {
    if r == 0 {
      assert At(ShiftRows(s), 0, c) == At(s, 0, c);
    } else if r == 1 {
      assert At(ShiftRows(s), 1, c) == At(s, 1, (c + 1) % 4);
    } else if r == 2 {
      assert At(ShiftRows(s), 2, c) == At(s, 2, (c + 2) % 4);
    } else {
      assert At(ShiftRows(s), 3, c) == At(s, 3, (c + 3) % 4);
    }
  }

  lemma SubBytesIs(s: State, r: nat, c: nat)
    requires r < 4 && c < 4
    ensures At(SubBytes(s), r, c) == SBox(At(s, r, c)) && At(InvSubBytes(s), r, c) == InvSBox(At(s, r, c))
  {
    hide SBox, InvSBox;
  }

  lemma AddRoundKeyIs(s: State, k: State, r: nat, c: nat)
    requires r < 4 && c < 4
    ensures At(Xor(s, k), r, c) == Add(At(s, r, c), At(k, r, c))
  {
    hide Add;
  }

  /** Each column is multiplied by a fixed matrix: sections 5.1.3 and 5.3.3. */
  lemma MixColumnsIs(s: State, r: nat, c: nat)
    requires r < 4 && c < 4
    ensures At(MixColumns(s), r, c) ==
            Add(Add(Product(2, At(s, r, c)), Product(3, At(s, (r + 1) % 4, c))),
                Add(At(s, (r + 2) % 4, c), At(s, (r + 3) % 4, c)))
    ensures At(InvMixColumns(s), r, c) ==
            Add(Add(Product(0xe, At(s, r, c)), Product(0xb, At(s, (r + 1) % 4, c))),
                Add(Product(0xd, At(s, (r + 2) % 4, c)), Product(9, At(s, (r + 3) % 4, c))))
  {
    hide Product, MixByte, InvMixByte, Add;
    var w, x, y, z := At(s, r, c), At(s, (r + 1) % 4, c), At(s, (r + 2) % 4, c), At(s, (r + 3) % 4, c);
    MixBytesAre(w, x, y, z);
  }

  lemma MixBytesAre(a: bv8, b: bv8, c: bv8, d: bv8)
    ensures MixByte(a, b, c, d) == Add(Add(Product(2, a), Product(3, b)), Add(c, d))
    ensures InvMixByte(a, b, c, d) ==
            Add(Add(Product(0xe, a), Product(0xb, b)), Add(Product(0xd, c), Product(9, d)))
  {
    hide Product, Mul2, Mul3, Mul9, MulB, MulD, MulE, Add;
    MixCoefficientsAreProducts(a);
    MixCoefficientsAreProducts(b);
    InvMixCoefficientsAreProducts(a);
    InvMixCoefficientsAreProducts(b);
    InvMixCoefficientsAreProducts(c);
    InvMixCoefficientsAreProducts(d);
  }

  // ---------------------------------------------------------------- the key expansion

  const RCON_BYTES: seq<bv8> := [0x01, 0x02, 0x04, 0x08, 0x10, 0x20, 0x40, 0x80, 0x1b, 0x36]

  /** Word `i` of the expansion of a key of `nk` words, by the words before it: section 5.2. At multiples of `nk` the
      word before is rotated by one byte, substituted, and its first byte changed by a constant. */
  predicate Expands(w: Schedule, nk: nat, i: nat)
    requires nk in {4, 6, 8} && nk <= i < |w|
  {
    Follows(nk, i, w[i - 1], w[i - nk], w[i])
  }

  /** Word `i` is `c` when the word before is `a` and that `nk` words before is `b`. */
  predicate Follows(nk: nat, i: nat, a: Column, b: Column, c: Column)
    requires nk in {4, 6, 8}
  {
    if i % nk == 0 then
      && 1 <= i / nk <= 10
      && c.b0 == Add(Add(b.b0, SBox(a.b1)), RCON_BYTES[i / nk - 1])
      && c.b1 == Add(b.b1, SBox(a.b2)) && c.b2 == Add(b.b2, SBox(a.b3)) && c.b3 == Add(b.b3, SBox(a.b0))
    else if nk == 8 && i % 8 == 4 then
      && c.b0 == Add(b.b0, SBox(a.b0)) && c.b1 == Add(b.b1, SBox(a.b1))
      && c.b2 == Add(b.b2, SBox(a.b2)) && c.b3 == Add(b.b3, SBox(a.b3))
    else
      c.b0 == Add(b.b0, a.b0) && c.b1 == Add(b.b1, a.b1) && c.b2 == Add(b.b2, a.b2) && c.b3 == Add(b.b3, a.b3)
  }

  /** The words are the key, and then its expansion. */
  ghost predicate IsExpansion(key: seq<bv8>, w: Schedule)
    requires |key| in {16, 24, 32}
  {
    var nk := |key| / 4;
    && |w| == 4 * (nk + 7)
    && (forall i :: 0 <= i < nk ==> w[i] == Column(key[4 * i], key[4 * i + 1], key[4 * i + 2], key[4 * i + 3]))
    && forall i :: nk <= i < |w| ==> Expands(w, nk, i)
  }

  lemma RconBytes(j: nat)
    requires 1 <= j <= 10
    ensures RconByte(j) == RCON_BYTES[j - 1]
  {
    if j > 1 {
      RconBytes(j - 1);
      assert RconByte(j) == Mul2(RconByte(j - 1));
    }
  }

  lemma Multiples(i: nat, nk: nat)
    requires nk in {4, 6, 8} && nk <= i < 4 * (nk + 7)
    ensures 1 <= i / nk <= 10
  {
  }

  lemma WordFollows(key: seq<bv8>, i: nat)
    requires KeySize(key) && |key| / 4 <= i < 4 * Rounds(key) + 4
    ensures Follows(|key| / 4, i, Expanded(key, i - 1), Expanded(key, i - |key| / 4), Expanded(key, i))
  {
    hide SBox, RconByte, Expanded, Add, XorColumn, SubColumn, RotColumn, Follows;
    var nk := |key| / 4;
    Multiples(i, nk);
    ExpandedBy(key, i);
    var a, b := Expanded(key, i - 1), Expanded(key, i - nk);
    if i % nk == 0 {
      RconBytes(i / nk);
      FirstFollows(nk, i, a, b);
    } else if nk == 8 && i % 8 == 4 {
      MiddleFollows(i, a, b);
    } else {
      PlainFollows(nk, i, a, b);
    }
  }

  lemma FirstFollows(nk: nat, i: nat, a: Column, b: Column)
    requires nk in {4, 6, 8} && i % nk == 0 && 1 <= i / nk <= 10
    ensures var rcon := RCON_BYTES[i / nk - 1];
            Follows(nk, i, a, b, XorColumn(b, XorColumn(SubColumn(RotColumn(a)), Column(rcon, 0, 0, 0))))
  {
    hide SBox, Add, XorColumn, SubColumn, RotColumn;
    ColumnExpands(a, b, RCON_BYTES[i / nk - 1]);
  }

  lemma MiddleFollows(i: nat, a: Column, b: Column)
    requires i % 8 == 4
    ensures Follows(8, i, a, b, XorColumn(b, SubColumn(a)))
  {
    hide SBox, Add, XorColumn, SubColumn;
    ColumnExpands(a, b, 0);
  }

  lemma PlainFollows(nk: nat, i: nat, a: Column, b: Column)
    requires nk in {4, 6, 8} && i % nk != 0 && !(nk == 8 && i % 8 == 4)
    ensures Follows(nk, i, a, b, XorColumn(b, a))
  {
    hide SBox, Add, XorColumn;
    ColumnExpands(a, b, 0);
  }

  lemma ColumnExpands(a: Column, b: Column, rcon: bv8)
    ensures XorColumn(b, XorColumn(SubColumn(RotColumn(a)), Column(rcon, 0, 0, 0))) ==
            Column(Add(Add(b.b0, SBox(a.b1)), rcon), Add(b.b1, SBox(a.b2)),
                   Add(b.b2, SBox(a.b3)), Add(b.b3, SBox(a.b0)))
    ensures XorColumn(b, SubColumn(a)) ==
            Column(Add(b.b0, SBox(a.b0)), Add(b.b1, SBox(a.b1)), Add(b.b2, SBox(a.b2)), Add(b.b3, SBox(a.b3)))
    ensures XorColumn(b, a) == Column(Add(b.b0, a.b0), Add(b.b1, a.b1), Add(b.b2, a.b2), Add(b.b3, a.b3))
  {
    hide SBox, Add;
    AddZero(SBox(a.b2));
    AddZero(SBox(a.b3));
    AddZero(SBox(a.b0));
    AddAssociates(b.b0, SBox(a.b1), rcon);
  }

  lemma AddZero(a: bv8)
    ensures Add(a, 0) == a
  {
  }

  lemma ExpandedBy(key: seq<bv8>, i: nat)
    requires KeySize(key) && i >= |key| / 4
    ensures var nk, temp := |key| / 4, Expanded(key, i - 1);
            Expanded(key, i) ==
            XorColumn(Expanded(key, i - nk),
                      if i % nk == 0 then XorColumn(SubColumn(RotColumn(temp)), Column(RconByte(i / nk), 0, 0, 0))
                      else if nk > 6 && i % nk == 4 then SubColumn(temp) else temp)
  {
    hide SBox, RconByte, XorColumn, SubColumn, RotColumn;
  }

  /** The key schedule is the expansion of its key, for every key of every size. */
  lemma KeyScheduleExpands(key: seq<bv8>)
    requires KeySize(key)
    ensures IsExpansion(key, KeySchedule(key))
  {
    hide Follows, Expanded;
    forall i | |key| / 4 <= i < 4 * Rounds(key) + 4
      ensures Expands(KeySchedule(key), |key| / 4, i)
    {
      WordFollows(key, i);
    }
    forall i: nat | i < |key| / 4
      ensures Expanded(key, i) == KeyWord(key, i)
    {
      FirstWords(key, i);
    }
  }

  lemma FirstWords(key: seq<bv8>, i: nat)
    requires KeySize(key) && i < |key| / 4
    ensures Expanded(key, i) == KeyWord(key, i)
  {
  }

  /** There is only one. */
  lemma {:induction false} ExpansionIsUnique(key: seq<bv8>, v: Schedule, w: Schedule, n: nat)
    requires KeySize(key) && IsExpansion(key, v) && IsExpansion(key, w) && n <= |w|
    ensures v[..n] == w[..n]
  {
    hide SBox, Add, Expands;
    if n > 0 {
      ExpansionIsUnique(key, v, w, n - 1);
      var i, nk := n - 1, |key| / 4;
      assert v[..n] == v[..i] + [v[i]] && w[..n] == w[..i] + [w[i]];
      if i >= nk {
        assert v[..i][i - 1] == v[i - 1] && w[..i][i - 1] == w[i - 1];
        assert v[..i][i - nk] == v[i - nk] && w[..i][i - nk] == w[i - nk];
        assert Expands(v, nk, i) && Expands(w, nk, i);
        OneNextWord(v, w, nk, i);
      }
    }
  }

  lemma OneNextWord(v: Schedule, w: Schedule, nk: nat, i: nat)
    requires nk in {4, 6, 8} && nk <= i < |v| == |w| && Expands(v, nk, i) && Expands(w, nk, i)
    requires v[i - 1] == w[i - 1] && v[i - nk] == w[i - nk]
    ensures v[i] == w[i]
  {
    hide SBox, Add;
  }

  // ---------------------------------------------------------------- the example of FIPS 197

  function Words(w0: bv32, w1: bv32, w2: bv32, w3: bv32): State {
    State(Unpack(w0), Unpack(w1), Unpack(w2), Unpack(w3))
  }

  /** The first byte of a word is its most significant one. */
  lemma WordBytes()
    ensures Unpack(0xa0fafe17) == Column(0xa0, 0xfa, 0xfe, 0x17) && Pack(Column(0xa0, 0xfa, 0xfe, 0x17)) == 0xa0fafe17
  {
  }

  /** The next round key of a 16-byte key. */
  function NextKey(k: State, rcon: bv8): State {
    var c0 := XorColumn(k.c0, XorColumn(SubColumn(RotColumn(k.c3)), Column(rcon, 0, 0, 0)));
    var c1 := XorColumn(k.c1, c0);
    var c2 := XorColumn(k.c2, c1);
    State(c0, c1, c2, XorColumn(k.c3, c2))
  }

  lemma RoundIndex(i: nat, r: nat)
    requires i == 4 * r + 4
    ensures i / 4 == r + 1 && i % 4 == 0 && (i + 1) % 4 == 1 && (i + 2) % 4 == 2 && (i + 3) % 4 == 3
  {
  }

  lemma RoundKeyFollows(key: seq<bv8>, r: nat)
    requires |key| == 16 && r < 10
    ensures RoundKey(KeySchedule(key), r + 1) == NextKey(RoundKey(KeySchedule(key), r), RCON_BYTES[r])
  {
    hide SBox, RconByte, XorColumn, SubColumn, RotColumn, Expanded;
    var i := 4 * r + 4;
    RoundIndex(i, r);
    RconBytes(r + 1);
    ExpandedBy(key, i);
    ExpandedBy(key, i + 1);
    ExpandedBy(key, i + 2);
    ExpandedBy(key, i + 3);
  }

  lemma ExampleKey1()
    ensures NextKey(Words(0x2b7e1516, 0x28aed2a6, 0xabf71588, 0x09cf4f3c), 0x01) ==
            Words(0xa0fafe17, 0x88542cb1, 0x23a33939, 0x2a6c7605)
  {
  }

  lemma ExampleKey2()
    ensures NextKey(Words(0xa0fafe17, 0x88542cb1, 0x23a33939, 0x2a6c7605), 0x02) ==
            Words(0xf2c295f2, 0x7a96b943, 0x5935807a, 0x7359f67f)
  {
  }

  lemma ExampleKey3()
    ensures NextKey(Words(0xf2c295f2, 0x7a96b943, 0x5935807a, 0x7359f67f), 0x04) ==
            Words(0x3d80477d, 0x4716fe3e, 0x1e237e44, 0x6d7a883b)
  {
  }

  lemma ExampleKey4()
    ensures NextKey(Words(0x3d80477d, 0x4716fe3e, 0x1e237e44, 0x6d7a883b), 0x08) ==
            Words(0xef44a541, 0xa8525b7f, 0xb671253b, 0xdb0bad00)
  {
  }

  lemma ExampleKey5()
    ensures NextKey(Words(0xef44a541, 0xa8525b7f, 0xb671253b, 0xdb0bad00), 0x10) ==
            Words(0xd4d1c6f8, 0x7c839d87, 0xcaf2b8bc, 0x11f915bc)
  {
  }

  lemma ExampleKey6()
    ensures NextKey(Words(0xd4d1c6f8, 0x7c839d87, 0xcaf2b8bc, 0x11f915bc), 0x20) ==
            Words(0x6d88a37a, 0x110b3efd, 0xdbf98641, 0xca0093fd)
  {
  }

  lemma ExampleKey7()
    ensures NextKey(Words(0x6d88a37a, 0x110b3efd, 0xdbf98641, 0xca0093fd), 0x40) ==
            Words(0x4e54f70e, 0x5f5fc9f3, 0x84a64fb2, 0x4ea6dc4f)
  {
  }

  lemma ExampleKey8()
    ensures NextKey(Words(0x4e54f70e, 0x5f5fc9f3, 0x84a64fb2, 0x4ea6dc4f), 0x80) ==
            Words(0xead27321, 0xb58dbad2, 0x312bf560, 0x7f8d292f)
  {
  }

  lemma ExampleKey9()
    ensures NextKey(Words(0xead27321, 0xb58dbad2, 0x312bf560, 0x7f8d292f), 0x1b) ==
            Words(0xac7766f3, 0x19fadc21, 0x28d12941, 0x575c006e)
  {
  }

  lemma ExampleKey10()
    ensures NextKey(Words(0xac7766f3, 0x19fadc21, 0x28d12941, 0x575c006e), 0x36) ==
            Words(0xd014f9a8, 0xc9ee2589, 0xe13f0cc8, 0xb6630ca6)
  {
  }

  lemma ExampleRound1()
    ensures EncRound(Words(0x193de3be, 0xa0f4e22b, 0x9ac68d2a, 0xe9f84808),
                     Words(0xa0fafe17, 0x88542cb1, 0x23a33939, 0x2a6c7605)) ==
            Words(0xa49c7ff2, 0x689f352b, 0x6b5bea43, 0x026a5049)
  {
  }

  lemma ExampleRound2()
    ensures EncRound(Words(0xa49c7ff2, 0x689f352b, 0x6b5bea43, 0x026a5049),
                     Words(0xf2c295f2, 0x7a96b943, 0x5935807a, 0x7359f67f)) ==
            Words(0xaa8f5f03, 0x61dde3ef, 0x82d24ad2, 0x6832469a)
  {
  }

  lemma ExampleRound3()
    ensures EncRound(Words(0xaa8f5f03, 0x61dde3ef, 0x82d24ad2, 0x6832469a),
                     Words(0x3d80477d, 0x4716fe3e, 0x1e237e44, 0x6d7a883b)) ==
            Words(0x486c4eee, 0x671d9d0d, 0x4de3b138, 0xd65f58e7)
  {
  }

  lemma ExampleRound4()
    ensures EncRound(Words(0x486c4eee, 0x671d9d0d, 0x4de3b138, 0xd65f58e7),
                     Words(0xef44a541, 0xa8525b7f, 0xb671253b, 0xdb0bad00)) ==
            Words(0xe0927fe8, 0xc86363c0, 0xd9b13550, 0x85b8be01)
  {
  }

  lemma ExampleRound5()
    ensures EncRound(Words(0xe0927fe8, 0xc86363c0, 0xd9b13550, 0x85b8be01),
                     Words(0xd4d1c6f8, 0x7c839d87, 0xcaf2b8bc, 0x11f915bc)) ==
            Words(0xf1006f55, 0xc1924cef, 0x7cc88b32, 0x5db5d50c)
  {
  }

  lemma ExampleRound6()
    ensures EncRound(Words(0xf1006f55, 0xc1924cef, 0x7cc88b32, 0x5db5d50c),
                     Words(0x6d88a37a, 0x110b3efd, 0xdbf98641, 0xca0093fd)) ==
            Words(0x260e2e17, 0x3d41b77d, 0xe86472a9, 0xfdd28b25)
  {
  }

  lemma ExampleRound7()
    ensures EncRound(Words(0x260e2e17, 0x3d41b77d, 0xe86472a9, 0xfdd28b25),
                     Words(0x4e54f70e, 0x5f5fc9f3, 0x84a64fb2, 0x4ea6dc4f)) ==
            Words(0x5a4142b1, 0x1949dc1f, 0xa3e01965, 0x7a8c040c)
  {
  }

  lemma ExampleRound8()
    ensures EncRound(Words(0x5a4142b1, 0x1949dc1f, 0xa3e01965, 0x7a8c040c),
                     Words(0xead27321, 0xb58dbad2, 0x312bf560, 0x7f8d292f)) ==
            Words(0xea835cf0, 0x0445332d, 0x655d98ad, 0x8596b0c5)
  {
  }

  lemma ExampleRound9()
    ensures EncRound(Words(0xea835cf0, 0x0445332d, 0x655d98ad, 0x8596b0c5),
                     Words(0xac7766f3, 0x19fadc21, 0x28d12941, 0x575c006e)) ==
            Words(0xeb40f21e, 0x592e3884, 0x8ba113e7, 0x1bc342d2)
  {
  }

  lemma ExampleRound10()
    ensures EncLast(Words(0xeb40f21e, 0x592e3884, 0x8ba113e7, 0x1bc342d2),
                     Words(0xd014f9a8, 0xc9ee2589, 0xe13f0cc8, 0xb6630ca6)) ==
            Words(0x3925841d, 0x02dc09fb, 0xdc118597, 0x196a0b32)
  {
  }

  const EXAMPLE_KEY: seq<bv8> := [
    0x2b, 0x7e, 0x15, 0x16, 0x28, 0xae, 0xd2, 0xa6,
    0xab, 0xf7, 0x15, 0x88, 0x09, 0xcf, 0x4f, 0x3c]

  lemma ExampleSize()
    ensures |EXAMPLE_KEY| == 16 && KeySize(EXAMPLE_KEY) && |KeySchedule(EXAMPLE_KEY)| == 44
  {
  }

  lemma ExampleFirst()
    ensures RoundKey(KeySchedule(EXAMPLE_KEY), 0) == Words(0x2b7e1516, 0x28aed2a6, 0xabf71588, 0x09cf4f3c)
  {
    hide Expanded;
    FirstWords(EXAMPLE_KEY, 0);
    FirstWords(EXAMPLE_KEY, 1);
    FirstWords(EXAMPLE_KEY, 2);
    FirstWords(EXAMPLE_KEY, 3);
  }

  lemma ExampleStart()
    ensures Xor(Words(0x3243f6a8, 0x885a308d, 0x313198a2, 0xe0370734),
                Words(0x2b7e1516, 0x28aed2a6, 0xabf71588, 0x09cf4f3c)) ==
            Words(0x193de3be, 0xa0f4e22b, 0x9ac68d2a, 0xe9f84808)
  {
  }

  lemma RconAt()
    ensures RCON_BYTES[0] == 0x01 && RCON_BYTES[1] == 0x02 && RCON_BYTES[2] == 0x04 && RCON_BYTES[3] == 0x08
    ensures RCON_BYTES[4] == 0x10 && RCON_BYTES[5] == 0x20 && RCON_BYTES[6] == 0x40 && RCON_BYTES[7] == 0x80
    ensures RCON_BYTES[8] == 0x1b && RCON_BYTES[9] == 0x36
  {
  }

  /** The key expansion of appendix A.1. */
  lemma ExampleExpands()
    ensures |KeySchedule(EXAMPLE_KEY)| == 44
    ensures var w := KeySchedule(EXAMPLE_KEY);
            && RoundKey(w, 0) == Words(0x2b7e1516, 0x28aed2a6, 0xabf71588, 0x09cf4f3c)
            && RoundKey(w, 1) == Words(0xa0fafe17, 0x88542cb1, 0x23a33939, 0x2a6c7605)
            && RoundKey(w, 2) == Words(0xf2c295f2, 0x7a96b943, 0x5935807a, 0x7359f67f)
            && RoundKey(w, 3) == Words(0x3d80477d, 0x4716fe3e, 0x1e237e44, 0x6d7a883b)
            && RoundKey(w, 4) == Words(0xef44a541, 0xa8525b7f, 0xb671253b, 0xdb0bad00)
            && RoundKey(w, 5) == Words(0xd4d1c6f8, 0x7c839d87, 0xcaf2b8bc, 0x11f915bc)
            && RoundKey(w, 6) == Words(0x6d88a37a, 0x110b3efd, 0xdbf98641, 0xca0093fd)
            && RoundKey(w, 7) == Words(0x4e54f70e, 0x5f5fc9f3, 0x84a64fb2, 0x4ea6dc4f)
            && RoundKey(w, 8) == Words(0xead27321, 0xb58dbad2, 0x312bf560, 0x7f8d292f)
            && RoundKey(w, 9) == Words(0xac7766f3, 0x19fadc21, 0x28d12941, 0x575c006e)
            && RoundKey(w, 10) == Words(0xd014f9a8, 0xc9ee2589, 0xe13f0cc8, 0xb6630ca6)
  {
    hide *;
    ExampleSize();
    RconAt();
    ExampleFirst();
    RoundKeyFollows(EXAMPLE_KEY, 0);
    ExampleKey1();
    RoundKeyFollows(EXAMPLE_KEY, 1);
    ExampleKey2();
    RoundKeyFollows(EXAMPLE_KEY, 2);
    ExampleKey3();
    RoundKeyFollows(EXAMPLE_KEY, 3);
    ExampleKey4();
    RoundKeyFollows(EXAMPLE_KEY, 4);
    ExampleKey5();
    RoundKeyFollows(EXAMPLE_KEY, 5);
    ExampleKey6();
    RoundKeyFollows(EXAMPLE_KEY, 6);
    ExampleKey7();
    RoundKeyFollows(EXAMPLE_KEY, 7);
    ExampleKey8();
    RoundKeyFollows(EXAMPLE_KEY, 8);
    ExampleKey9();
    RoundKeyFollows(EXAMPLE_KEY, 9);
    ExampleKey10();
  }

  /** The cipher example of appendix B. */
  lemma ExampleCipher()
    ensures |KeySchedule(EXAMPLE_KEY)| == 44
    ensures Cipher(Words(0x3243f6a8, 0x885a308d, 0x313198a2, 0xe0370734), KeySchedule(EXAMPLE_KEY), 10) ==
            Words(0x3925841d, 0x02dc09fb, 0xdc118597, 0x196a0b32)
  {
    hide *;
    ExampleSize();
    var w := KeySchedule(EXAMPLE_KEY);
    var s := Words(0x3243f6a8, 0x885a308d, 0x313198a2, 0xe0370734);
    ExampleExpands();
    EncStart(s, w);
    ExampleStart();
    EncRoundsStep(s, w, 1);
    ExampleRound1();
    EncRoundsStep(s, w, 2);
    ExampleRound2();
    EncRoundsStep(s, w, 3);
    ExampleRound3();
    EncRoundsStep(s, w, 4);
    ExampleRound4();
    EncRoundsStep(s, w, 5);
    ExampleRound5();
    EncRoundsStep(s, w, 6);
    ExampleRound6();
    EncRoundsStep(s, w, 7);
    ExampleRound7();
    EncRoundsStep(s, w, 8);
    ExampleRound8();
    EncRoundsStep(s, w, 9);
    ExampleRound9();
    ExampleRound10();
    LastRound(s, w, 10);
  }

  lemma LastRound(s: State, w: Schedule, nr: nat)
    requires nr > 0 && |w| == 4 * nr + 4
    ensures Cipher(s, w, nr) == EncLast(EncRounds(s, w, nr - 1), RoundKey(w, nr))
  {
  }
}
