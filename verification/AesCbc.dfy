/** AES in cipher block chaining mode, over buffers that may be one and the same, with the last block
    possibly partial. */
module AesCbc {
  import opened Sectors
  import opened AesTables
  import opened AesCipher
  import opened Aes

  type Block = b: seq<bv8> | |b| == 16 witness [0, 0, 0, 0, 0, 0, 0, 0, 0, 0, 0, 0, 0, 0, 0, 0]

  /** Encryption of one block under a schedule. */
  function Encryption(w: Schedule, nr: nat): Block -> Block
    requires nr > 0 && |w| == 4 * nr + 4
  {
    (b: Block) => EncryptBlock(b, w, nr)
  }

  function Decryption(w: Schedule, nr: nat): Block -> Block
    requires nr > 0 && |w| == 4 * nr + 4
  {
    (b: Block) => DecryptBlock(b, w, nr)
  }

  function RoundUp(n: nat): nat {
    (n + 15) / 16 * 16
  }

  /** `p`, extended with zeros to a whole block, added to `iv`. */
  function Whiten(p: seq<bv8>, iv: Block): Block
    requires |p| <= 16
  {
    seq(16, n requires 0 <= n < 16 => if n < |p| then Add(p[n], iv[n]) else iv[n])
  }

  /** The first `n` bytes of `x` added to `iv`. */
  function Unwhiten(x: Block, iv: Block, n: nat): (r: seq<bv8>)
    requires n <= 16
    ensures |r| == n
  {
    seq(n, k requires 0 <= k < n => Add(x[k], iv[k]))
  }

  lemma AddTwice(a: bv8, b: bv8)
    ensures Add(Add(a, b), b) == a
  {
  }

  lemma UnwhitenUndoes(p: seq<bv8>, iv: Block)
    requires |p| <= 16
    ensures Unwhiten(Whiten(p, iv), iv, |p|) == p
  {
    hide Add;
    forall k | 0 <= k < |p|
      ensures Add(Add(p[k], iv[k]), iv[k]) == p[k]
    {
      AddTwice(p[k], iv[k]);
    }
  }

  // ---------------------------------------------------------------- the chains

  /** The ciphertext of `p`: section 6.2 of NIST SP 800-38A, the last block zero-padded. */
  function EncChain(e: Block -> Block, iv: Block, p: seq<bv8>): (c: seq<bv8>)
    ensures |c| == RoundUp(|p|)
    decreases |p|
  {
    if p == [] then [] else
    var n := Min(16, |p|);
    var c := e(Whiten(p[..n], iv));
    c + EncChain(e, c, p[n..])
  }

  /** The chaining value after encrypting `p`: the last ciphertext block. */
  function EncIv(e: Block -> Block, iv: Block, p: seq<bv8>): Block
    decreases |p|
  {
    if p == [] then iv else
    var n := Min(16, |p|);
    EncIv(e, e(Whiten(p[..n], iv)), p[n..])
  }

  /** The `len` bytes of plaintext of the ciphertext `c`. */
  function DecChain(d: Block -> Block, iv: Block, c: seq<bv8>, len: nat): (p: seq<bv8>)
    requires |c| == RoundUp(len)
    ensures |p| == len
    decreases len
  {
    if len == 0 then [] else
    var n := Min(16, len);
    Unwhiten(d(c[..16]), iv, n) + DecChain(d, c[..16], c[16..], len - n)
  }

  /** The chaining value the code leaves after decrypting: the last ciphertext block, except that
      after a partial block it is that block decrypted. */
  function DecIv(d: Block -> Block, iv: Block, c: seq<bv8>, len: nat): Block
    requires |c| == RoundUp(len)
    decreases len
  {
    if len == 0 then iv
    else if len < 16 then d(c[..16])
    else DecIv(d, c[..16], c[16..], len - 16)
  }

  ghost predicate Inverts(d: Block -> Block, e: Block -> Block) {
    forall b: Block :: d(e(b)) == b
  }

  /** The block of ciphertext `c` before block `i`; before the first the initial chaining value. */
  function Previous(iv: Block, c: seq<bv8>, i: nat): Block
    requires 16 * i <= |c|
  {
    if i == 0 then iv else c[16 * i - 16..16 * i]
  }

  /** Block `i` is the encryption of the plaintext added to the block before; where the plaintext has ended, of the
      block before alone. */
  lemma {:induction false} EncBlockIs(e: Block -> Block, iv: Block, p: seq<bv8>, i: nat) returns (x: Block)
    requires 16 * i < |p|
    ensures var c := EncChain(e, iv, p);
            && 16 * i + 16 <= |c| && c[16 * i..16 * i + 16] == e(x)
            && forall k :: 0 <= k < 16 ==>
                 x[k] == if 16 * i + k < |p| then Add(p[16 * i + k], Previous(iv, c, i)[k]) else Previous(iv, c, i)[k]
    decreases i
  {
    hide EncChain, Add;
    var n := Min(16, |p|);
    var c := EncChain(e, iv, p);
    EncChainHead(e, iv, p);
    if i == 0 {
      x := Whiten(p[..n], iv);
      assert c[0..16] == c[..16];
    } else {
      var first := c[..16];
      x := EncBlockIs(e, first, p[16..], i - 1);
      PreviousOfRest(iv, c, i);
      BlockOfRest(c, i);
    }
  }

  lemma BlockOfRest(c: seq<bv8>, i: nat)
    requires i > 0 && 16 * i + 16 <= |c|
    ensures c[16..][16 * (i - 1)..16 * (i - 1) + 16] == c[16 * i..16 * i + 16]
  {
    var n := 16 * i - 16;
    assert c[16..][n..n + 16] == c[16 + n..16 + n + 16];
  }

  lemma PreviousOfRest(iv: Block, c: seq<bv8>, i: nat)
    requires i > 0 && 16 * i <= |c|
    ensures Previous(c[..16], c[16..], i - 1) == Previous(iv, c, i)
  {
    if i > 1 {
      assert c[16..][16 * (i - 1) - 16..16 * (i - 1)] == c[16 * i - 16..16 * i];
    } else {
      assert c[0..16] == c[..16];
    }
  }

  /** Byte `k` of plaintext block `i` is that of ciphertext block `i` decrypted, added to that of the block before. */
  lemma {:induction false} DecByteIs(d: Block -> Block, iv: Block, c: seq<bv8>, len: nat, i: nat, k: nat)
    requires |c| == RoundUp(len) && k < 16 && 16 * i + k < len
    ensures 16 * i + 16 <= |c|
    ensures DecChain(d, iv, c, len)[16 * i + k] == Add(d(c[16 * i..16 * i + 16])[k], Previous(iv, c, i)[k])
    decreases i
  {
    RoundUpIs(len);
    hide DecChain, Add, RoundUp, Unwhiten, Previous;
    if i == 0 {
      DecFirst(d, iv, c, len, k);
    } else {
      var rest := DecChain(d, c[..16], c[16..], len - 16);
      DecChainHead(d, iv, c, len);
      DecByteIs(d, c[..16], c[16..], len - 16, i - 1, k);
      PreviousOfRest(iv, c, i);
      BlockOfRest(c, i);
      ByteOfRest(Unwhiten(d(c[..16]), iv, 16), rest, 16 * i + k);
    }
  }

  lemma ByteOfRest(a: seq<bv8>, b: seq<bv8>, n: nat)
    requires |a| <= n < |a| + |b|
    ensures (a + b)[n] == b[n - |a|]
  {
  }

  lemma RoundUpIs(len: nat)
    ensures RoundUp(len) % 16 == 0 && len <= RoundUp(len) < len + 16
    ensures len >= 16 ==> RoundUp(len - 16) == RoundUp(len) - 16
  {
  }

  lemma DecFirst(d: Block -> Block, iv: Block, c: seq<bv8>, len: nat, k: nat)
    requires |c| == RoundUp(len) && k < 16 && k < len
    ensures |c| >= 16 && DecChain(d, iv, c, len)[k] == Add(d(c[0..16])[k], Previous(iv, c, 0)[k])
  {
    hide Add;
    assert c[0..16] == c[..16];
  }

  /** The chaining value carried on is the last block of ciphertext; after a partial block decryption carries that
      block decrypted. */
  lemma {:induction false} CarriedOn(e: Block -> Block, d: Block -> Block, iv: Block, p: seq<bv8>)
    requires p != []
    ensures var c := EncChain(e, iv, p);
            |c| >= 16 && EncIv(e, iv, p) == c[|c| - 16..]
            && DecIv(d, iv, c, |p|) == if |p| % 16 == 0 then c[|c| - 16..] else d(c[|c| - 16..])
    decreases |p|
  {
    hide Whiten, EncChain, EncIv, DecIv;
    ChainingValuesAgree(e, d, iv, p);
    EncChainHead(e, iv, p);
    EncIvHead(e, iv, p);
    var c := EncChain(e, iv, p);
    if |p| <= 16 {
      ValuesOfNothing(e, d, c[..16]);
      assert |c| == 16 && c[0..] == c[..16];
      assert p[|p|..] == [];
    } else {
      CarriedOn(e, d, c[..16], p[16..]);
      assert c[16..][|c| - 32..] == c[|c| - 16..];
    }
  }

  /** Decryption undoes encryption for every length, whole blocks or not. */
  lemma {:induction false} ChainRoundTrip(e: Block -> Block, d: Block -> Block, iv: Block, p: seq<bv8>)
    requires Inverts(d, e)
    ensures DecChain(d, iv, EncChain(e, iv, p), |p|) == p
    decreases |p|
  {
    hide Whiten, Unwhiten;
    if p != [] {
      var n := Min(16, |p|);
      var c := e(Whiten(p[..n], iv));
      var all := EncChain(e, iv, p);
      assert all[..16] == c && all[16..] == EncChain(e, c, p[n..]);
      UnwhitenUndoes(p[..n], iv);
      ChainRoundTrip(e, d, c, p[n..]);
      assert p == p[..n] + p[n..];
    }
  }

  /** CBC with AES: for every key size, key, chaining value and message. */
  lemma CbcRoundTrip(k: seq<bv8>, iv: Block, p: seq<bv8>)
    requires KeySize(k)
    ensures var w, nr := KeySchedule(k), Rounds(k);
            DecChain(Decryption(DecSchedule(w, nr), nr), iv, EncChain(Encryption(w, nr), iv, p), |p|) == p
  {
    hide EncryptBlock, DecryptBlock, KeySchedule, DecSchedule, EncChain, DecChain;
    var w, nr := KeySchedule(k), Rounds(k);
    forall b: Block
      ensures Decryption(DecSchedule(w, nr), nr)(Encryption(w, nr)(b)) == b
    {
      BlockRoundTrip(b, w, nr);
    }
    ChainRoundTrip(Encryption(w, nr), Decryption(DecSchedule(w, nr), nr), iv, p);
  }

  /** Encrypting whole blocks and then the rest, with the chaining value carried over, is encrypting
      everything at once. */
  lemma {:induction false} EncChainSplits(e: Block -> Block, iv: Block, p: seq<bv8>, q: seq<bv8>)
    requires |p| % 16 == 0
    ensures EncChain(e, iv, p + q) == EncChain(e, iv, p) + EncChain(e, EncIv(e, iv, p), q)
    ensures EncIv(e, iv, p + q) == EncIv(e, EncIv(e, iv, p), q)
    decreases |p|
  {
    hide Whiten;
    if p == [] {
      assert p + q == q;
    } else {
      var c := e(Whiten(p[..16], iv));
      assert (p + q)[..16] == p[..16] && (p + q)[16..] == p[16..] + q;
      EncChainSplits(e, c, p[16..], q);
      var x, y := EncChain(e, c, p[16..]), EncChain(e, EncIv(e, c, p[16..]), q);
      assert c + (x + y) == (c + x) + y;
    }
  }

  lemma {:induction false} DecChainSplits(d: Block -> Block, iv: Block, c: seq<bv8>, c': seq<bv8>, len: nat)
    requires |c| % 16 == 0 && |c'| == RoundUp(len)
    ensures DecChain(d, iv, c + c', |c| + len) == DecChain(d, iv, c, |c|) + DecChain(d, DecIv(d, iv, c, |c|), c', len)
    ensures DecIv(d, iv, c + c', |c| + len) == DecIv(d, DecIv(d, iv, c, |c|), c', len)
    decreases |c|
  {
    hide Unwhiten, DecChain, DecIv;
    if c == [] {
      assert c + c' == c';
      DecNothing(d, iv);
    } else {
      assert (c + c')[..16] == c[..16] && (c + c')[16..] == c[16..] + c';
      DecChainHead(d, iv, c, |c|);
      DecChainHead(d, iv, c + c', |c| + len);
      DecChainSplits(d, c[..16], c[16..], c', len);
      var v, x := Unwhiten(d(c[..16]), iv, 16), DecChain(d, c[..16], c[16..], |c| - 16);
      var y := DecChain(d, DecIv(d, c[..16], c[16..], |c| - 16), c', len);
      assert v + (x + y) == (v + x) + y;
    }
  }

  lemma DecNothing(d: Block -> Block, iv: Block)
    ensures DecChain(d, iv, [], 0) == [] && DecIv(d, iv, [], 0) == iv
  {
  }

  lemma DecChainHead(d: Block -> Block, iv: Block, c: seq<bv8>, len: nat)
    requires len >= 16 && |c| == RoundUp(len)
    ensures DecChain(d, iv, c, len) == Unwhiten(d(c[..16]), iv, 16) + DecChain(d, c[..16], c[16..], len - 16)
    ensures DecIv(d, iv, c, len) == DecIv(d, c[..16], c[16..], len - 16)
  {
    hide Unwhiten;
  }

  /** Both sides carry the same chaining value on exactly when the length is whole blocks, or the last
      ciphertext block happens to be a fixed point of decryption. */
  lemma {:induction false} ChainingValuesAgree(e: Block -> Block, d: Block -> Block, iv: Block, p: seq<bv8>)
    ensures DecIv(d, iv, EncChain(e, iv, p), |p|) ==
            if |p| % 16 == 0 then EncIv(e, iv, p) else d(EncIv(e, iv, p))
    decreases |p|
  {
    hide Whiten, EncChain, EncIv, DecIv, DecChain;
    ValuesOfNothing(e, d, iv);
    if p != [] {
      EncChainHead(e, iv, p);
      EncIvHead(e, iv, p);
      if |p| >= 16 {
        DecChainHead(d, iv, EncChain(e, iv, p), |p|);
        ChainingValuesAgree(e, d, e(Whiten(p[..16], iv)), p[16..]);
      } else {
        ValuesOfNothing(e, d, e(Whiten(p, iv)));
        DecIvPart(d, iv, EncChain(e, iv, p), |p|);
        assert p[..|p|] == p;
      }
    } else {
      assert EncChain(e, iv, p) == [];
    }
  }

  lemma ValuesOfNothing(e: Block -> Block, d: Block -> Block, iv: Block)
    ensures EncIv(e, iv, []) == iv == DecIv(d, iv, [], 0)
  {
  }

  lemma EncIvHead(e: Block -> Block, iv: Block, p: seq<bv8>)
    requires p != []
    ensures var n := Min(16, |p|); EncIv(e, iv, p) == EncIv(e, e(Whiten(p[..n], iv)), p[n..])
  {
    hide Whiten;
  }

  lemma DecIvPart(d: Block -> Block, iv: Block, c: seq<bv8>, len: nat)
    requires 0 < len < 16 && |c| == RoundUp(len)
    ensures DecIv(d, iv, c, len) == d(c[..16])
  {
  }

  /** One byte under a chaining value that is no fixed point of the cipher: the two sides carry different values on. */
  lemma ChainingValuesDiffer(e: Block -> Block, d: Block -> Block, iv: Block)
    requires Inverts(d, e) && e(iv) != iv
    ensures EncIv(e, iv, [0]) == e(iv) && DecIv(d, iv, EncChain(e, iv, [0]), 1) == iv
    ensures DecIv(d, iv, EncChain(e, iv, [0]), 1) != EncIv(e, iv, [0])
  {
    var p: seq<bv8> := [0];
    ChainingValuesAgree(e, d, iv, p);
    ZeroIsWhitened(iv);
    assert p[..1] == p && p[1..] == [];
    assert EncIv(e, iv, p) == e(iv) && d(e(iv)) == iv;
  }

  lemma ZeroIsWhitened(iv: Block)
    ensures Whiten([0], iv) == iv
  {
  }

  lemma EncChainHead(e: Block -> Block, iv: Block, p: seq<bv8>)
    requires p != []
    ensures var n := Min(16, |p|); var c := e(Whiten(p[..n], iv));
            && EncChain(e, iv, p)[..16] == c && EncChain(e, iv, p)[16..] == EncChain(e, c, p[n..])
            && (|p| < 16 ==> p[n..] == [])
  {
    hide Whiten;
  }

  // ---------------------------------------------------------------- one block more

  lemma EncChainOneMore(e: Block -> Block, iv: Block, head: seq<bv8>, block: seq<bv8>)
    requires |head| % 16 == 0 && 0 < |block| <= 16
    ensures var c := e(Whiten(block, EncIv(e, iv, head)));
            EncChain(e, iv, head + block) == EncChain(e, iv, head) + c && EncIv(e, iv, head + block) == c
  {
    hide Whiten;
    EncChainSplits(e, iv, head, block);
    assert block[..|block|] == block && block[|block|..] == [];
  }

  lemma DecChainOneMore(d: Block -> Block, iv: Block, head: seq<bv8>, block: Block, len: nat)
    requires |head| % 16 == 0 && 0 < len <= 16
    ensures DecChain(d, iv, head + block, |head| + len) ==
            DecChain(d, iv, head, |head|) + Unwhiten(d(block), DecIv(d, iv, head, |head|), len)
    ensures DecIv(d, iv, head + block, |head| + len) == if len == 16 then block else d(block)
  {
    hide Unwhiten;
    DecChainSplits(d, iv, head, block, len);
    assert block[..16] == block && block[16..] == [];
  }

  // ---------------------------------------------------------------- in the buffers

  /** Names a block, so that what is known of all blocks can be applied to it. */
  ghost predicate Named(b: Block) {
    true
  }

  /** `e` is encryption under the schedule in `key`. */
  ghost predicate Encrypts(e: Block -> Block, key: AesKey)
    requires Ready(key)
    reads key, key.rdKey
  {
    forall b: Block {:trigger Named(b)} :: Named(b) ==> e(b) == EncryptBlock(b, key.Schedule(), key.rounds)
  }

  ghost predicate Decrypts(f: Block -> Block, key: AesKey)
    requires Ready(key)
    reads key, key.rdKey
  {
    forall b: Block {:trigger Named(b)} :: Named(b) ==> f(b) == DecryptBlock(b, key.Schedule(), key.rounds)
  }

  /** tmp := the `len` input bytes, added to `ivec`, the rest of the block from `ivec` alone. */
  method WhitenInto(tmp: array<bv8>, src: array<bv8>, so: nat, len: nat, ivec: array<bv8>)
    requires tmp.Length == 16 == ivec.Length && tmp != src && tmp != ivec && len <= 16 && so + len <= src.Length
    modifies tmp
    ensures tmp[..] == Whiten(src[so..so + len], ivec[..])
  {
    hide Add;
    for n := 0 to len
      invariant forall k :: 0 <= k < n ==> tmp[k] == Add(src[so + k], ivec[k])
    {
      tmp[n] := Add(src[so + n], ivec[n]);
    }
    for n := len to 16
      invariant forall k :: 0 <= k < len ==> tmp[k] == Add(src[so + k], ivec[k])
      invariant forall k :: len <= k < n ==> tmp[k] == ivec[k]
    {
      tmp[n] := ivec[n];
    }
  }

  /** to := one block of `from`. */
  method CopyBlock(from: array<bv8>, off: nat, to: array<bv8>)
    requires from != to && to.Length == 16 && off + 16 <= from.Length
    modifies to
    ensures to[..] == from[off..off + 16]
  {
    for n := 0 to 16
      invariant forall k :: 0 <= k < n ==> to[k] == from[off + k]
    {
      to[n] := from[off + n];
    }
  }

  /** out := the first `len` bytes of `x` added to `ivec`; `x` may be those bytes of `out`. */
  method UnwhitenInto(out: array<bv8>, off: nat, x: array<bv8>, xo: nat, len: nat, ivec: array<bv8>)
    requires ivec.Length == 16 && len <= 16 && off + len <= out.Length && xo + 16 <= x.Length
    requires out != ivec && (x == out ==> xo == off)
    modifies out
    ensures out[off..off + len] == Unwhiten(old(x[xo..xo + 16]), ivec[..], len)
    ensures forall k :: 0 <= k < out.Length && !(off <= k < off + len) ==> out[k] == old(out[k])
  {
    hide Add, Unwhiten;
    ghost var x0 := x[xo..xo + 16];
    for n := 0 to len
      invariant forall k :: 0 <= k < n ==> out[off + k] == Add(x0[k], ivec[k])
      invariant forall k :: 0 <= k < out.Length && !(off <= k < off + n) ==> out[k] == old(out[k])
    {
      assert x[xo + n] == x0[n];
      out[off + n] := Add(x[xo + n], ivec[n]);
    }
    UnwhitenIs(x0, ivec[..], out[off..off + len]);
  }

  lemma UnwhitenIs(x: Block, iv: Block, r: seq<bv8>)
    requires |r| <= 16 && forall k :: 0 <= k < |r| ==> r[k] == Add(x[k], iv[k])
    ensures r == Unwhiten(x, iv, |r|)
  {
    hide Add;
  }

  /** Encrypts one block, whole or partial, and leaves it in `ivec` too. */
  method EncryptStep(src: array<bv8>, so: nat, dst: array<bv8>, d: nat, len: nat, key: AesKey, ivec: array<bv8>,
                     ghost e: Block -> Block)
    requires Ready(key) && Encrypts(e, key)
    requires ivec.Length == 16 && ivec != src && ivec != dst && len <= 16
    requires so + len <= src.Length && d + 16 <= dst.Length
    modifies dst, ivec
    ensures ivec[..] == e(Whiten(old(src[so..so + len]), old(ivec[..])))
    ensures dst[d..d + 16] == ivec[..]
    ensures forall k :: 0 <= k < dst.Length && !(d <= k < d + 16) ==> dst[k] == old(dst[k])
  {
    hide Whiten, EncryptBlock;
    var tmp := new bv8[16];
    WhitenInto(tmp, src, so, len, ivec);
    ghost var x := tmp[..];
    assert tmp[0..16] == x && Named(x);
    Encrypt(tmp, 0, dst, d, key);
    CopyBlock(dst, d, ivec);
  }

  method CbcEncryptBuffer(src: array<bv8>, so: nat, dst: array<bv8>, d: nat, length: nat, key: AesKey, ivec: array<bv8>,
                          ghost e: Block -> Block)
    requires Ready(key) && Encrypts(e, key)
    requires ivec.Length == 16 && ivec != src && ivec != dst
    requires so + length <= src.Length && d + RoundUp(length) <= dst.Length && (src == dst ==> so == d)
    modifies dst, ivec
    ensures dst[d..d + RoundUp(length)] ==
            EncChain(e, old(ivec[..]), old(src[so..so + length]))
    ensures ivec[..] == EncIv(e, old(ivec[..]), old(src[so..so + length]))
    ensures forall k :: 0 <= k < dst.Length && !(d <= k < d + RoundUp(length)) ==> dst[k] == old(dst[k])
  {
    hide EncChain, EncIv, Encrypts;
    ghost var iv0, p, out := ivec[..], src[so..so + length], dst[..];
    var done := 0;
    ChainsOfNothing(e, iv0);
    assert p[..0] == [];
    while done < length
      invariant 0 <= done <= RoundUp(length) && done % 16 == 0
      invariant EncryptedTo(src[..], so, dst[..], d, ivec[..], e, iv0, p, out, done)
      decreases length - done
    {
      EncryptNext(src, so, dst, d, length, done, key, ivec, e, iv0, p, out);
      done := done + 16;
    }
    assert p[..Min(done, |p|)] == p && dst[..][d..d + done] == dst[d..d + done];
  }

  /** The contents of the buffers after `done` bytes of output: the rest of the input is still there,
      the output so far is the chain's, and nothing else has changed. */
  ghost predicate EncryptedTo(src: seq<bv8>, so: nat, dst: seq<bv8>, d: nat, iv: Block,
                              e: Block -> Block, iv0: Block, p: seq<bv8>, out: seq<bv8>, done: nat)
  {
    && so + |p| <= |src| && d + done <= |dst| == |out| && done % 16 == 0
    && (forall k :: done <= k < |p| ==> src[so + k] == p[k])
    && dst[d..d + done] == EncChain(e, iv0, p[..Min(done, |p|)])
    && iv == EncIv(e, iv0, p[..Min(done, |p|)])
    && forall k :: 0 <= k < |dst| && !(d <= k < d + done) ==> dst[k] == out[k]
  }

  /** `after` is `before` with the `n` bytes at `off` written over. */
  ghost predicate Overwritten(before: seq<bv8>, after: seq<bv8>, off: nat, n: nat) {
    && |after| == |before| && off + n <= |before|
    && forall k :: 0 <= k < |before| && !(off <= k < off + n) ==> after[k] == before[k]
  }

  lemma JoinOutput(dst: seq<bv8>, dst': seq<bv8>, d: nat, done: nat, n: nat)
    requires Overwritten(dst, dst', d + done, n)
    ensures dst'[d..d + done + n] == dst[d..d + done] + dst'[d + done..d + done + n]
  {
  }

  lemma EncryptAdvance(src: seq<bv8>, src': seq<bv8>, so: nat, dst: seq<bv8>, dst': seq<bv8>, d: nat,
                       iv: Block, iv': Block, e: Block -> Block, iv0: Block, p: seq<bv8>, out: seq<bv8>,
                       done: nat, len: nat)
    requires EncryptedTo(src, so, dst, d, iv, e, iv0, p, out, done)
    requires done < |p| && len == Min(16, |p| - done) && Overwritten(dst, dst', d + done, 16)
    requires src' == src || (src == dst && src' == dst' && so == d)
    requires iv' == e(Whiten(src[so + done..so + done + len], iv)) && dst'[d + done..d + done + 16] == iv'
    ensures EncryptedTo(src', so, dst', d, iv', e, iv0, p, out, done + 16)
  {
    hide EncChain, EncIv, Whiten;
    assert src[so + done..so + done + len] == p[done..done + len];
    assert Min(done, |p|) == done && Min(done + 16, |p|) == done + len;
    EncChainOneMore(e, iv0, p[..done], p[done..done + len]);
    assert p[..done + len] == p[..done] + p[done..done + len];
    JoinOutput(dst, dst', d, done, 16);
  }

  method EncryptNext(src: array<bv8>, so: nat, dst: array<bv8>, d: nat, length: nat, done: nat, key: AesKey,
                     ivec: array<bv8>, ghost e: Block -> Block, ghost iv0: Block, ghost p: seq<bv8>,
                     ghost out: seq<bv8>)
    requires Ready(key) && Encrypts(e, key) && ivec.Length == 16 && ivec != src && ivec != dst
    requires src == dst ==> so == d
    requires |p| == length && done < length && d + RoundUp(length) <= dst.Length
    requires EncryptedTo(src[..], so, dst[..], d, ivec[..], e, iv0, p, out, done)
    modifies dst, ivec
    ensures EncryptedTo(src[..], so, dst[..], d, ivec[..], e, iv0, p, out, done + 16)
  {
    hide EncChain, EncIv, Whiten, Encrypts;
    var len := Min(16, length - done);
    ghost var src0, dst0, iv := src[..], dst[..], ivec[..];
    assert src0[so + done..so + done + len] == src[so + done..so + done + len];
    EncryptStep(src, so + done, dst, d + done, len, key, ivec, e);
    assert dst[..][d + done..d + done + 16] == dst[d + done..d + done + 16];
    assert src != dst ==> src[..] == src0;
    EncryptAdvance(src0, src[..], so, dst0, dst[..], d, iv, ivec[..], e, iv0, p, out, done, len);
  }

  lemma ChainsOfNothing(f: Block -> Block, iv: Block)
    ensures EncChain(f, iv, []) == [] && EncIv(f, iv, []) == iv
    ensures DecChain(f, iv, [], 0) == [] && DecIv(f, iv, [], 0) == iv
  {
  }

  /** Decrypts one whole block. */
  method DecryptStep(src: array<bv8>, so: nat, dst: array<bv8>, d: nat, key: AesKey, ivec: array<bv8>,
                     ghost f: Block -> Block)
    requires Ready(key) && Decrypts(f, key)
    requires ivec.Length == 16 && ivec != src && ivec != dst
    requires so + 16 <= src.Length && d + 16 <= dst.Length
    modifies dst, ivec
    ensures ivec[..] == old(src[so..so + 16])
    ensures dst[d..d + 16] ==
            Unwhiten(f(old(src[so..so + 16])), old(ivec[..]), 16)
    ensures forall k :: 0 <= k < dst.Length && !(d <= k < d + 16) ==> dst[k] == old(dst[k])
  {
    hide Unwhiten, DecryptBlock;
    assert Named(src[so..so + 16]);
    var tmp := new bv8[16];
    CopyBlock(src, so, tmp);
    Decrypt(src, so, dst, d, key);
    UnwhitenInto(dst, d, dst, d, 16, ivec);
    assert tmp[0..16] == tmp[..];
    CopyBlock(tmp, 0, ivec);
  }

  /** Decrypts a partial last block: reads a whole block, writes `len` bytes, and leaves the decrypted
      block, not the ciphertext, as the chaining value. */
  method DecryptPartial(src: array<bv8>, so: nat, dst: array<bv8>, d: nat, len: nat, key: AesKey, ivec: array<bv8>,
                        ghost f: Block -> Block)
    requires Ready(key) && Decrypts(f, key)
    requires ivec.Length == 16 && ivec != src && ivec != dst && len <= 16
    requires so + 16 <= src.Length && d + len <= dst.Length
    modifies dst, ivec
    ensures ivec[..] == f(old(src[so..so + 16]))
    ensures dst[d..d + len] == Unwhiten(ivec[..], old(ivec[..]), len)
    ensures forall k :: 0 <= k < dst.Length && !(d <= k < d + len) ==> dst[k] == old(dst[k])
  {
    hide Unwhiten, DecryptBlock;
    assert Named(src[so..so + 16]);
    var tmp := new bv8[16];
    CopyBlock(src, so, tmp);
    assert tmp[0..16] == tmp[..];
    Decrypt(tmp, 0, tmp, 0, key);
    assert tmp[0..16] == tmp[..];
    UnwhitenInto(dst, d, tmp, 0, len, ivec);
    CopyBlock(tmp, 0, ivec);
  }

  method CbcDecryptBuffer(src: array<bv8>, so: nat, dst: array<bv8>, d: nat, length: nat, key: AesKey, ivec: array<bv8>,
                          ghost f: Block -> Block)
    requires Ready(key) && Decrypts(f, key)
    requires ivec.Length == 16 && ivec != src && ivec != dst
    requires so + RoundUp(length) <= src.Length && d + length <= dst.Length && (src == dst ==> so == d)
    modifies dst, ivec
    ensures dst[d..d + length] ==
            DecChain(f, old(ivec[..]), old(src[so..so + RoundUp(length)]), length)
    ensures ivec[..] ==
            DecIv(f, old(ivec[..]), old(src[so..so + RoundUp(length)]), length)
    ensures forall k :: 0 <= k < dst.Length && !(d <= k < d + length) ==> dst[k] == old(dst[k])
  {
    hide DecChain, DecIv, Decrypts;
    ghost var iv0, c, out := ivec[..], src[so..so + RoundUp(length)], dst[..];
    var done := 0;
    ChainsOfNothing(f, iv0);
    assert c[..0] == [];
    while length - done >= 16
      invariant 0 <= done <= length && done % 16 == 0
      invariant DecryptedTo(src[..], so, dst[..], d, ivec[..], f, iv0, c, out, done)
      decreases length - done
    {
      DecryptNext(src, so, dst, d, done, key, ivec, f, iv0, c, out);
      done := done + 16;
    }
    if done < length {
      DecryptLast(src, so, dst, d, length, done, key, ivec, f, iv0, c, out);
    } else {
      assert c[..done] == c && dst[..][d..d + done] == dst[d..d + done];
    }
  }

  ghost predicate DecryptedTo(src: seq<bv8>, so: nat, dst: seq<bv8>, d: nat, iv: Block,
                              f: Block -> Block, iv0: Block, c: seq<bv8>, out: seq<bv8>, done: nat)
  {
    && so + |c| <= |src| && d + done <= |dst| == |out| && done <= |c| && done % 16 == 0
    && (forall k :: done <= k < |c| ==> src[so + k] == c[k])
    && dst[d..d + done] == DecChain(f, iv0, c[..done], done)
    && iv == DecIv(f, iv0, c[..done], done)
    && forall k :: 0 <= k < |dst| && !(d <= k < d + done) ==> dst[k] == out[k]
  }

  lemma DecryptAdvance(src: seq<bv8>, src': seq<bv8>, so: nat, dst: seq<bv8>, dst': seq<bv8>, d: nat,
                       iv: Block, iv': Block, f: Block -> Block, iv0: Block, c: seq<bv8>, out: seq<bv8>, done: nat)
    requires DecryptedTo(src, so, dst, d, iv, f, iv0, c, out, done)
    requires done + 16 <= |c| && Overwritten(dst, dst', d + done, 16)
    requires src' == src || (src == dst && src' == dst' && so == d)
    requires iv' == src[so + done..so + done + 16] && dst'[d + done..d + done + 16] == Unwhiten(f(iv'), iv, 16)
    ensures DecryptedTo(src', so, dst', d, iv', f, iv0, c, out, done + 16)
  {
    hide DecChain, DecIv, Unwhiten;
    assert src[so + done..so + done + 16] == c[done..done + 16];
    DecChainOneMore(f, iv0, c[..done], c[done..done + 16], 16);
    assert c[..done + 16] == c[..done] + c[done..done + 16];
    JoinOutput(dst, dst', d, done, 16);
  }

  method DecryptNext(src: array<bv8>, so: nat, dst: array<bv8>, d: nat, done: nat, key: AesKey,
                     ivec: array<bv8>, ghost f: Block -> Block, ghost iv0: Block, ghost c: seq<bv8>,
                     ghost out: seq<bv8>)
    requires Ready(key) && Decrypts(f, key) && ivec.Length == 16 && ivec != src && ivec != dst
    requires src == dst ==> so == d
    requires done + 16 <= |c| && d + done + 16 <= dst.Length
    requires DecryptedTo(src[..], so, dst[..], d, ivec[..], f, iv0, c, out, done)
    modifies dst, ivec
    ensures DecryptedTo(src[..], so, dst[..], d, ivec[..], f, iv0, c, out, done + 16)
  {
    hide DecChain, DecIv, Unwhiten, Decrypts;
    ghost var src0, dst0, iv := src[..], dst[..], ivec[..];
    assert src0[so + done..so + done + 16] == src[so + done..so + done + 16];
    DecryptStep(src, so + done, dst, d + done, key, ivec, f);
    assert dst[..][d + done..d + done + 16] == dst[d + done..d + done + 16];
    assert src != dst ==> src[..] == src0;
    DecryptAdvance(src0, src[..], so, dst0, dst[..], d, iv, ivec[..], f, iv0, c, out, done);
  }

  method DecryptLast(src: array<bv8>, so: nat, dst: array<bv8>, d: nat, length: nat, done: nat, key: AesKey,
                     ivec: array<bv8>, ghost f: Block -> Block, ghost iv0: Block, ghost c: seq<bv8>,
                     ghost out: seq<bv8>)
    requires Ready(key) && Decrypts(f, key) && ivec.Length == 16 && ivec != src && ivec != dst
    requires done < length < done + 16 && |c| == done + 16 && d + length <= dst.Length
    requires DecryptedTo(src[..], so, dst[..], d, ivec[..], f, iv0, c, out, done)
    modifies dst, ivec
    ensures dst[d..d + length] == DecChain(f, iv0, c, length) && ivec[..] == DecIv(f, iv0, c, length)
    ensures forall k :: 0 <= k < dst.Length && !(d <= k < d + length) ==> dst[k] == out[k]
  {
    hide DecChain, DecIv, Unwhiten, Decrypts, DecryptedTo;
    ghost var src0, dst0, iv := src[..], dst[..], ivec[..];
    DecryptedFits(src0, so, dst0, d, iv, f, iv0, c, out, done);
    assert src[so + done..so + done + 16] == src0[so + done..so + done + 16];
    DecryptPartial(src, so + done, dst, d + done, length - done, key, ivec, f);
    assert dst[..][d..d + length] == dst[d..d + length];
    assert dst[..][d + done..d + length] == dst[d + done..d + length];
    DecryptEnd(src0, so, dst0, dst[..], d, iv, ivec[..], f, iv0, c, out, done, length - done);
  }

  lemma DecryptedFits(src: seq<bv8>, so: nat, dst: seq<bv8>, d: nat, iv: Block, f: Block -> Block, iv0: Block,
                      c: seq<bv8>, out: seq<bv8>, done: nat)
    requires DecryptedTo(src, so, dst, d, iv, f, iv0, c, out, done)
    ensures so + |c| <= |src| && |dst| == |out|
  {
  }

  lemma DecryptEnd(src: seq<bv8>, so: nat, dst: seq<bv8>, dst': seq<bv8>, d: nat, iv: Block, iv': Block,
                   f: Block -> Block, iv0: Block, c: seq<bv8>, out: seq<bv8>, done: nat, len: nat)
    requires DecryptedTo(src, so, dst, d, iv, f, iv0, c, out, done)
    requires |c| == done + 16 && 0 < len < 16 && Overwritten(dst, dst', d + done, len)
    requires iv' == f(src[so + done..so + done + 16]) && dst'[d + done..d + done + len] == Unwhiten(iv', iv, len)
    ensures dst'[d..d + done + len] == DecChain(f, iv0, c, done + len) && iv' == DecIv(f, iv0, c, done + len)
    ensures |dst'| == |out| && forall k :: 0 <= k < |out| && !(d <= k < d + done + len) ==> dst'[k] == out[k]
  {
    hide DecChain, DecIv, Unwhiten;
    assert src[so + done..so + done + 16] == c[done..];
    DecChainOneMore(f, iv0, c[..done], c[done..], len);
    assert c == c[..done] + c[done..];
    JoinOutput(dst, dst', d, done, len);
  }

  /** AES_cbc_encrypt: one way or the other. */
  method CbcEncrypt(src: array<bv8>, so: nat, dst: array<bv8>, d: nat, length: nat, key: AesKey, ivec: array<bv8>,
                    enc: bool)
    requires Ready(key) && ivec.Length == 16 && ivec != src && ivec != dst && (src == dst ==> so == d)
    requires so + (if enc then length else RoundUp(length)) <= src.Length
    requires d + (if enc then RoundUp(length) else length) <= dst.Length
    modifies dst, ivec
    ensures enc ==> dst[d..d + RoundUp(length)] ==
                    EncChain(Encryption(key.Schedule(), key.rounds), old(ivec[..]), old(src[so..so + length]))
    ensures enc ==> ivec[..] == EncIv(Encryption(key.Schedule(), key.rounds), old(ivec[..]), old(src[so..so + length]))
    ensures !enc ==> dst[d..d + length] ==
                     DecChain(Decryption(key.Schedule(), key.rounds), old(ivec[..]),
                              old(src[so..so + RoundUp(length)]), length)
    ensures !enc ==> ivec[..] ==
                     DecIv(Decryption(key.Schedule(), key.rounds), old(ivec[..]),
                           old(src[so..so + RoundUp(length)]), length)
    ensures forall k :: 0 <= k < dst.Length && !(d <= k < d + (if enc then RoundUp(length) else length)) ==>
              dst[k] == old(dst[k])
  {
    hide EncChain, EncIv, DecChain, DecIv;
    if enc {
      CbcEncryptBuffer(src, so, dst, d, length, key, ivec, Encryption(key.Schedule(), key.rounds));
    } else {
      CbcDecryptBuffer(src, so, dst, d, length, key, ivec, Decryption(key.Schedule(), key.rounds));
    }
  }
}
