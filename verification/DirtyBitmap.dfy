/** The dirty bitmap of a block device: one bit per chunk, packed into machine words. */
module DirtyBitmap {
  import opened Sectors

  /** The widest word; of a word of 32 bits only the low half is used. */
  type Word = bv64

  /** The width of the machine's `unsigned long`. */
  datatype Layout = Long32 | Long64
  {
    function Bits(): (n: nat)
      ensures n == 32 || n == 64
    {
      if Long32? then 32 else 64
    }

    function Bytes(): nat {
      if Long32? then 4 else 8
    }

    /** The mask of a bit as the source computes it: 1 shifted as an `int`, for which the processor takes the
        count modulo 32, then widened to the word with its sign. */
    function Mask(b: nat): Word
      requires b < Bits()
    {
      if Long32? then Low(b) else SignExtend(Low(b % 32))
    }

    /** Two chunks share a bit. */
    predicate SameSlot(a: nat, b: nat) {
      a / Bits() == b / Bits() && a % Bits() % 32 == b % Bits() % 32
    }
  }

  /** An `int`, given by its 32 bits, as a word of 64 bits. */
  function SignExtend(m: Word): Word {
    if m & 0x8000_0000 != 0 then m | 0xFFFF_FFFF_0000_0000 else m
  }

  function Low(b: nat): Word
    requires b < 32
  {
    1 << b
  }

  /** The test of a bit: a word cut down to an `int` by the return type. */
  predicate Bit(l: Layout, w: Word, b: nat)
    requires b < l.Bits()
  {
    IntMeets(w, l.Mask(b))
  }

  function And(a: Word, b: Word): Word {
    a & b
  }

  predicate IntMeets(w: Word, m: Word) {
    And(And(w, m), 0xFFFF_FFFF) != 0
  }

  predicate Meets(w: Word, k: Word) {
    And(w, k) != 0
  }

  function With(w: Word, m: Word): Word {
    w | m
  }

  function Without(w: Word, m: Word): Word {
    w & !m
  }

  /** The low half of the mask `m` is the bit `k`. */
  predicate LowHalf(m: Word, k: Word) {
    And(m, 0xFFFF_FFFF) == k
  }

  lemma LowOfExtended(m: Word)
    requires LowHalf(m, m)
    ensures LowHalf(SignExtend(m), m)
  {
  }

  lemma LowIsLow(b: nat)
    requires b < 32
    ensures LowHalf(Low(b), Low(b)) && Low(b) != 0
  {
  }

  /** Of every mask the low half is one bit. */
  lemma MaskIsLow(l: Layout, b: nat)
    requires b < l.Bits()
    ensures LowHalf(l.Mask(b), Low(b % 32)) && Low(b % 32) != 0
  {
    hide Low, SignExtend, LowHalf;
    LowIsLow(b % 32);
    LowOfExtended(Low(b % 32));
  }

  /** With words of 64 bits the mask of bit 31 has the whole upper half as well, and bits from 32 on have the masks of
      the lower ones. */
  lemma MasksOf64(b: nat)
    ensures Long64.Mask(0) == 1 && Long64.Mask(30) == 0x4000_0000 && Long64.Mask(31) == 0xFFFF_FFFF_8000_0000
    ensures 32 <= b < 64 ==> Long64.Mask(b) == Long64.Mask(b - 32)
    ensures Long32.Mask(0) == 1 && Long32.Mask(31) == 0x8000_0000
  {
  }

  lemma LowsAreDisjoint(a: nat, b: nat)
    requires a < 32 && b < 32 && a != b
    ensures !Meets(Low(a), Low(b))
  {
    hide Low;
    var x := LowIsShift(a);
    var y := LowIsShift(b);
    TwoShifts(x, y);
  }

  lemma TwoShifts(x: Word, y: Word)
    requires x < 32 && y < 32 && x != y
    ensures !Meets(1 << x, 1 << y)
  {
  }

  lemma LowIsShift(b: nat) returns (x: Word)
    requires b < 32
    ensures x < 32 && Low(b) == (1 << x) && x as nat == b
  {
    x := b as Word;
  }

  lemma Associates(w: Word, m: Word, k: Word)
    ensures And(And(w, m), k) == And(w, And(m, k))
  {
  }

  lemma TestsLow(w: Word, m: Word, k: Word)
    requires LowHalf(m, k)
    ensures IntMeets(w, m) == Meets(w, k)
  {
    hide And;
    Associates(w, m, 0xFFFF_FFFF);
  }

  /** So the test looks at that bit. */
  lemma BitIsLow(l: Layout, w: Word, b: nat)
    requires b < l.Bits()
    ensures Bit(l, w, b) == Meets(w, Low(b % 32))
  {
    hide Low, LowHalf, IntMeets, Meets;
    MaskIsLow(l, b);
    TestsLow(w, l.Mask(b), Low(b % 32));
  }

  lemma OthersKept(w: Word, m: Word, j: Word, k: Word)
    requires LowHalf(m, j) && LowHalf(k, k) && !Meets(j, k)
    ensures Meets(With(w, m), k) == Meets(w, k) && Meets(Without(w, m), k) == Meets(w, k)
  {
    hide And, With, Without;
    LowPart(m, k);
    OrKept(w, m, k);
    AndNotKept(w, m, k);
  }

  lemma LowPart(m: Word, k: Word)
    requires And(k, 0xFFFF_FFFF) == k
    ensures And(m, k) == And(And(m, 0xFFFF_FFFF), k)
  {
  }

  lemma OrKept(w: Word, m: Word, k: Word)
    requires And(m, k) == 0
    ensures And(With(w, m), k) == And(w, k)
  {
  }

  lemma AndNotKept(w: Word, m: Word, k: Word)
    requires And(m, k) == 0
    ensures And(Without(w, m), k) == And(w, k)
  {
  }

  lemma OwnChanged(w: Word, m: Word, k: Word)
    requires LowHalf(m, k) && k != 0
    ensures Meets(With(w, m), k) && !Meets(Without(w, m), k)
  {
  }

  /** Setting or clearing one bit of a word changes the test of the bits with the same low half only. */
  lemma OneBit(l: Layout, w: Word, a: nat, b: nat)
    requires a < l.Bits() && b < l.Bits()
    ensures Bit(l, With(w, l.Mask(a)), b) == (a % 32 == b % 32 || Bit(l, w, b))
    ensures Bit(l, Without(w, l.Mask(a)), b) == (a % 32 != b % 32 && Bit(l, w, b))
  {
    hide Bit, Low, LowHalf, With, Without, Meets, Layout.Mask;
    var m := l.Mask(a);
    BitIsLow(l, w, b);
    BitIsLow(l, With(w, m), b);
    BitIsLow(l, Without(w, m), b);
    MaskIsLow(l, a);
    LowIsLow(b % 32);
    if a % 32 == b % 32 {
      OwnChanged(w, m, Low(a % 32));
    } else {
      LowsAreDisjoint(a % 32, b % 32);
      OthersKept(w, m, Low(a % 32), Low(b % 32));
    }
  }

  /** The chunk is marked in the words. */
  predicate Marked(l: Layout, words: seq<Word>, chunk: nat) {
    chunk / l.Bits() < |words| && Bit(l, words[chunk / l.Bits()], chunk % l.Bits())
  }

  /** Integer division as C does it, rounding towards zero. */
  function CDiv(a: int, b: nat): int
    requires b > 0
  {
    if a >= 0 then a / b else -(-a / b)
  }

  /** The chunks a range of sectors is taken to touch. */
  predicate Touched(chunk: nat, sector: nat, count: nat) {
    sector / CHUNK_SECTORS <= chunk <= CDiv(sector + count - 1, CHUNK_SECTORS)
  }

  /** For a range that is not empty these are exactly the chunks that hold one of its sectors. */
  lemma TouchedHoldsSector(chunk: nat, sector: nat, count: nat)
    requires count >= 1
    ensures Touched(chunk, sector, count) <==>
            exists s: nat :: sector <= s < sector + count && s / CHUNK_SECTORS == chunk
  {
    if Touched(chunk, sector, count) {
      var s := if chunk * CHUNK_SECTORS <= sector then sector else chunk * CHUNK_SECTORS;
      assert sector <= s < sector + count && s / CHUNK_SECTORS == chunk;
    }
  }

  /** An empty range touches the chunk it starts in, unless it starts at a chunk boundary other than 0. */
  lemma EmptyRangeTouches(chunk: nat, sector: nat)
    ensures Touched(chunk, sector, 0) <==>
            chunk == sector / CHUNK_SECTORS && (sector == 0 || sector % CHUNK_SECTORS != 0)
  {
  }

  function SetBit(l: Layout, words: seq<Word>, chunk: nat, dirty: bool): (r: seq<Word>)
    requires chunk / l.Bits() < |words|
  {
    var i, m := chunk / l.Bits(), l.Mask(chunk % l.Bits());
    words[i := if dirty then With(words[i], m) else Without(words[i], m)]
  }

  lemma SetBitMarks(l: Layout, words: seq<Word>, chunk: nat, dirty: bool, c: nat)
    requires chunk / l.Bits() < |words|
    ensures Marked(l, SetBit(l, words, chunk, dirty), c) == if l.SameSlot(c, chunk) then dirty else Marked(l, words, c)
  {
    hide Bit, With, Without, Low;
    OneBit(l, words[chunk / l.Bits()], chunk % l.Bits(), c % l.Bits());
  }

  /** The words after marking or clearing chunks `first` up to `past`. */
  function SetBits(l: Layout, words: seq<Word>, first: nat, past: nat, dirty: bool): (r: seq<Word>)
    requires first < past ==> past <= l.Bits() * |words|
    ensures |r| == |words|
    decreases past
  {
    if first >= past then words
    else
      var last := past - 1;
      InWords(l, last, |words|);
      SetBit(l, SetBits(l, words, first, last, dirty), last, dirty)
  }

  lemma InWords(l: Layout, chunk: nat, words: nat)
    ensures chunk < l.Bits() * words <==> chunk / l.Bits() < words
  {
    if l.Long32? {
      assert l.Bits() == 32;
    } else {
      assert l.Bits() == 64;
    }
  }

  /** A chunk from `first` up to `past` shares the bit of chunk `c`. */
  predicate Hits(l: Layout, first: nat, past: nat, c: nat) {
    exists k :: first <= k < past && l.SameSlot(c, k)
  }

  lemma {:induction false} SetBitsMark(l: Layout, words: seq<Word>, first: nat, past: nat, dirty: bool, c: nat)
    requires first < past ==> past <= l.Bits() * |words|
    ensures Marked(l, SetBits(l, words, first, past, dirty), c) ==
            if Hits(l, first, past, c) then dirty else Marked(l, words, c)
    decreases past
  {
    hide Marked, SetBit;
    if first < past {
      var last := past - 1;
      InWords(l, last, |words|);
      SetBitsMark(l, words, first, last, dirty, c);
      SetBitMarks(l, SetBits(l, words, first, last, dirty), last, dirty, c);
    }
  }

  function First(sector: nat): nat {
    sector / CHUNK_SECTORS
  }

  /** One past the last chunk a range of sectors is taken to touch. */
  function Past(sector: nat, count: nat): nat {
    CDiv(sector + count - 1, CHUNK_SECTORS) + 1
  }

  /** Sets or clears the bit of one chunk. */
  method SetOne(l: Layout, words: array<Word>, chunk: nat, dirty: bool)
    requires chunk / l.Bits() < words.Length
    modifies words
    ensures words[..] == SetBit(l, old(words[..]), chunk, dirty)
  {
    hide With, Without, Layout.Mask;
    var idx, bit := chunk / l.Bits(), chunk % l.Bits();
    var val := words[idx];
    if dirty {
      val := With(val, l.Mask(bit));
    } else {
      val := Without(val, l.Mask(bit));
    }
    words[idx] := val;
  }

  /** Marks or clears the chunks a sector range touches. */
  method SetDirtyBitmap(l: Layout, words: array<Word>, sector: nat, count: nat, dirty: bool)
    requires First(sector) < Past(sector, count) ==> Past(sector, count) <= l.Bits() * words.Length
    modifies words
    ensures words[..] == SetBits(l, old(words[..]), First(sector), Past(sector, count), dirty)
  {
    hide CDiv, SetBit;
    var start := sector / CHUNK_SECTORS;
    var end := CDiv(sector + count - 1, CHUNK_SECTORS);
    while start <= end
      invariant First(sector) <= start
      invariant start > First(sector) ==> start <= end + 1
      invariant words[..] == SetBits(l, old(words[..]), First(sector), start, dirty)
    {
      InWords(l, start, words.Length);
      SetOne(l, words, start, dirty);
      start := start + 1;
    }
  }

  // ---------------------------------------------------------------- sequences of calls

  /** A call that marks or clears a sector range. */
  datatype Call = Call(sector: nat, count: nat, dirty: bool)
  {
    /** It touches no chunk from `chunks` on. */
    predicate Inside(chunks: nat) {
      First(sector) < Past(sector, count) ==> Past(sector, count) <= chunks
    }
  }

  /** The words after a sequence of calls. */
  function Run(l: Layout, words: seq<Word>, calls: seq<Call>): (r: seq<Word>)
    requires forall call :: call in calls ==> call.Inside(l.Bits() * |words|)
    ensures |r| == |words|
  {
    if calls == [] then words else
    var call := calls[|calls| - 1];
    assert call in calls && forall c :: c in calls[..|calls| - 1] ==> c in calls;
    assert call.Inside(l.Bits() * |words|);
    SetBits(l, Run(l, words, calls[..|calls| - 1]), First(call.sector), Past(call.sector, call.count), call.dirty)
  }

  /** What the last call that touches a chunk made of it. */
  function LastCall(calls: seq<Call>, chunk: nat): Option<bool> {
    if calls == [] then None else
    var call := calls[|calls| - 1];
    if Touched(chunk, call.sector, call.count) then Some(call.dirty) else LastCall(calls[..|calls| - 1], chunk)
  }

  /** What the last call made of a chunk that touches it or a chunk that shares its bit. */
  function LastHit(l: Layout, calls: seq<Call>, chunk: nat): Option<bool> {
    if calls == [] then None else
    var call := calls[|calls| - 1];
    if Hits(l, First(call.sector), Past(call.sector, call.count), chunk) then Some(call.dirty)
    else LastHit(l, calls[..|calls| - 1], chunk)
  }

  /** After any calls, in either layout, a chunk is marked as the last call made it that touched the chunk or
      one that shares its bit. */
  lemma {:induction false} BitmapIsLastHit(l: Layout, words: seq<Word>, calls: seq<Call>, chunk: nat)
    requires forall call :: call in calls ==> call.Inside(l.Bits() * |words|)
    ensures Marked(l, Run(l, words, calls), chunk) ==
            match LastHit(l, calls, chunk) case Some(d) => d case None => Marked(l, words, chunk)
  {
    hide Marked, Hits;
    if calls != [] {
      var call := calls[|calls| - 1];
      assert call in calls && forall c :: c in calls[..|calls| - 1] ==> c in calls;
      BitmapIsLastHit(l, words, calls[..|calls| - 1], chunk);
      SetBitsMark(l, Run(l, words, calls[..|calls| - 1]), First(call.sector), Past(call.sector, call.count),
          call.dirty, chunk);
    }
  }

  // ---------------------------------------------------------------- when the bitmap tracks its device

  /** Of `chunks` chunks each has a bit of its own. */
  predicate OwnBits(l: Layout, chunks: nat) {
    l.Long32? || chunks <= 32
  }

  lemma SlotIsOwn(l: Layout, chunks: nat, a: nat, b: nat)
    requires OwnBits(l, chunks) && a < chunks && b < chunks && l.SameSlot(a, b)
    ensures a == b
  {
  }

  lemma {:induction false} LastHitIsLastCall(l: Layout, chunks: nat, calls: seq<Call>, chunk: nat)
    requires OwnBits(l, chunks) && chunk < chunks && forall call :: call in calls ==> call.Inside(chunks)
    ensures LastHit(l, calls, chunk) == LastCall(calls, chunk)
  {
    if calls != [] {
      var call := calls[|calls| - 1];
      assert call in calls && forall c :: c in calls[..|calls| - 1] ==> c in calls;
      LastHitIsLastCall(l, chunks, calls[..|calls| - 1], chunk);
      hide CDiv, OwnBits;
      var first, past := First(call.sector), Past(call.sector, call.count);
      if Hits(l, first, past, chunk) {
        var k :| first <= k < past && l.SameSlot(chunk, k);
        SlotIsOwn(l, chunks, chunk, k);
      } else {
        assert first <= chunk < past ==> !l.SameSlot(chunk, chunk);
      }
    }
  }

  /** The words of a fresh bitmap. */
  function Fresh(words: nat): (r: seq<Word>)
    ensures |r| == words && forall i :: 0 <= i < |r| ==> r[i] == 0
  {
    seq(words, _ => 0)
  }

  lemma NoMarks(l: Layout, words: seq<Word>, chunk: nat)
    requires forall i :: 0 <= i < |words| ==> words[i] == 0
    ensures !Marked(l, words, chunk)
  {
    hide Bit;
    if chunk / l.Bits() < |words| {
      ZeroHasNoBit(l, chunk % l.Bits());
    }
  }

  lemma ZeroHasNoBit(l: Layout, b: nat)
    requires b < l.Bits()
    ensures !Bit(l, 0, b)
  {
    hide Low;
    BitIsLow(l, 0, b);
  }

  lemma InsideWords(most: nat, chunks: nat, calls: seq<Call>)
    requires chunks <= most && forall call :: call in calls ==> call.Inside(chunks)
    ensures forall call :: call in calls ==> call.Inside(most)
  {
  }

  /** After the calls a chunk of the device is marked exactly if the last call that touched it marked it. */
  ghost predicate TracksAfter(l: Layout, words: nat, chunks: nat, calls: seq<Call>)
    requires chunks <= l.Bits() * words && forall call :: call in calls ==> call.Inside(chunks)
  {
    InsideWords(l.Bits() * words, chunks, calls);
    forall chunk: nat :: chunk < chunks ==>
      (Marked(l, Run(l, Fresh(words), calls), chunk) <==> LastCall(calls, chunk) == Some(true))
  }

  /** Setting chunk 0 and clearing chunk 32 of a word of 64 bits clears chunk 0: the masks are the same. */
  lemma Chunk32ClearsChunk0(words: nat, chunks: nat) returns (calls: seq<Call>)
    requires 32 < chunks <= 64 * words
    ensures calls == [Call(0, 1, true), Call(32 * CHUNK_SECTORS, 1, false)]
    ensures forall call :: call in calls ==> call.Inside(chunks)
    ensures LastCall(calls, 0) == Some(true) && !Marked(Long64, Run(Long64, Fresh(words), calls), 0)
  {
    hide Bit, SetBits, Run, Fresh, Marked;
    var a, b := Call(0, 1, true), Call(32 * CHUNK_SECTORS, 1, false);
    calls := [a, b];
    assert calls[..1] == [a] && calls[1] == b && [a][0] == a;
    assert LastCall([a], 0) == Some(true);
    BitmapIsLastHit(Long64, Fresh(words), calls, 0);
    assert First(b.sector) == 32 && Past(b.sector, b.count) == 33;
    assert Long64.SameSlot(0, 32);
    assert Hits(Long64, 32, 33, 0);
  }

  /** The bitmap tracks a device of `chunks` chunks, whatever the calls, if and only if words have 32 bits or
      there are at most 32 chunks. */
  lemma TracksIff(l: Layout, words: nat, chunks: nat)
    requires chunks <= l.Bits() * words
    ensures l.Long32? || chunks <= 32 <==>
            forall calls: seq<Call> :: (forall call :: call in calls ==> call.Inside(chunks)) ==>
                TracksAfter(l, words, chunks, calls)
  {
    if l.Long32? || chunks <= 32 {
      forall calls: seq<Call> | forall call :: call in calls ==> call.Inside(chunks)
        ensures TracksAfter(l, words, chunks, calls)
      {
        forall chunk: nat | chunk < chunks
          ensures Marked(l, Run(l, Fresh(words), calls), chunk) <==> LastCall(calls, chunk) == Some(true)
        {
          BitmapIsLastHit(l, Fresh(words), calls, chunk);
          LastHitIsLastCall(l, chunks, calls, chunk);
          NoMarks(l, Fresh(words), chunk);
        }
      }
    } else {
      var calls := Chunk32ClearsChunk0(words, chunks);
      assert !TracksAfter(l, words, chunks, calls);
    }
  }

  // ---------------------------------------------------------------- its size

  /** The number of bytes allocated for the bitmap of a device. */
  function BitmapBytes(sectors: nat): nat {
    (sectors + CHUNK_SECTORS * 8 - 1) / (CHUNK_SECTORS * 8)
  }

  function BitmapWords(l: Layout, sectors: nat): nat {
    (BitmapBytes(sectors) + l.Bytes() - 1) / l.Bytes()
  }

  /** The bitmap has a bit for exactly the chunks of the device, up to the end of its last byte. */
  lemma BitmapCoversDevice(l: Layout, sectors: nat, chunk: nat)
    ensures chunk * CHUNK_SECTORS < sectors ==>
              chunk < 8 * BitmapBytes(sectors) && chunk < l.Bits() * BitmapWords(l, sectors)
    ensures chunk >= 8 * BitmapBytes(sectors) ==> chunk * CHUNK_SECTORS >= sectors
    ensures sectors > 0 ==> 8 * (BitmapBytes(sectors) - 1) * CHUNK_SECTORS < sectors
  {
    WordsHoldBytes(l, BitmapBytes(sectors));
  }

  lemma WordsHoldBytes(l: Layout, bytes: nat)
    ensures 8 * bytes <= l.Bits() * ((bytes + l.Bytes() - 1) / l.Bytes())
  {
    if l.Long32? {
      assert l.Bytes() == 4 && l.Bits() == 32;
    } else {
      assert l.Bytes() == 8 && l.Bits() == 64;
    }
  }
}
