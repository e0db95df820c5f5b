/** Byte-granular access to a device that reads and writes whole sectors (bdrv_pread, bdrv_pwrite), with
    dirty tracking. */
module BlockIo {
  import opened Errno
  import opened Sectors
  import opened DirtyBitmap

  /** The first sector boundary at or after `p`. */
  function RoundUp(p: int): int {
    (p + SECTOR_SIZE - 1) / SECTOR_SIZE * SECTOR_SIZE
  }

  /** All sectors that hold one of the `count` bytes from `offset` exist. */
  predicate InRange(offset: int, count: nat, length: nat) {
    count == 0 || (0 <= offset && RoundUp(offset + count) <= length)
  }

  /** On a device of whole sectors these are the ranges inside the device. */
  lemma InRangeOfWholeSectors(offset: int, count: nat, length: nat)
    requires length % SECTOR_SIZE == 0
    ensures InRange(offset, count, length) <==> count == 0 || (0 <= offset && offset + count <= length)
  {
  }

  /** A product of ints as the machine computes it. */
  function Int32(x: nat): int {
    (x + 0x8000_0000) % 0x1_0000_0000 - 0x8000_0000
  }

  /** The range check as the code does it: the size is a product of ints, and compared as an unsigned number of
      64 bits. */
  predicate PassesCheck(sector: int, count: nat, length: nat) {
    var size := Int32(count * SECTOR_SIZE);
    0 <= sector * SECTOR_SIZE <= length && size >= 0 && length - sector * SECTOR_SIZE >= size
  }

  /** All `count` sectors from `sector` are inside the device. */
  predicate SectorsInside(sector: int, count: nat, length: nat) {
    0 <= sector * SECTOR_SIZE <= length && length - sector * SECTOR_SIZE >= count * SECTOR_SIZE
  }

  lemma WrapsBelow(count: nat)
    requires count >= 0x40_0000
    ensures Int32(count * SECTOR_SIZE) + SECTOR_SIZE <= count * SECTOR_SIZE
  {
  }

  /** For a number of sectors the check is right at every sector of a device if and only if the product is in
      range, or it is not and the device is too short for what it wraps to, or, where that is negative, for the
      sectors themselves. */
  lemma CheckIsRightIff(count: nat, length: nat)
    ensures (forall sector: int :: PassesCheck(sector, count, length) <==> SectorsInside(sector, count, length)) <==>
            var size := Int32(count * SECTOR_SIZE);
            count < 0x40_0000 || length < if size < 0 then count * SECTOR_SIZE else size
  {
    var size := Int32(count * SECTOR_SIZE);
    if count >= 0x40_0000 {
      WrapsBelow(count);
      assert SectorsInside(0, count, length) <==> length >= count * SECTOR_SIZE;
      if 0 <= size <= length {
        // At the last sector that passes, fewer sectors are left than asked for.
        var sector := (length - size) / SECTOR_SIZE;
        assert PassesCheck(sector, count, length) && !SectorsInside(sector, count, length);
      }
    }
  }

  /** The disk after writing `data` at `offset`. */
  function Written(d: Disk, offset: int, data: seq<Byte>): (r: Disk)
    requires data != [] ==> 0 <= offset && offset + |data| <= |d|
    ensures |r| == |d|
  {
    if data == [] then d else Splice(d, offset, data)
  }

  lemma WrittenTwice(d: Disk, offset: int, a: seq<Byte>, b: seq<Byte>)
    requires a + b != [] ==> 0 <= offset && offset + |a| + |b| <= |d|
    ensures Written(Written(d, offset, a), offset + |a|, b) == Written(d, offset, a + b)
  {
    if a == [] {
      assert a + b == b;
    } else if b == [] {
      assert a + b == a;
    } else {
      assert Splice(Splice(d, offset, a), offset + |a|, b) == Splice(d, offset, a + b);
    }
  }

  /** Reading back what was written, and nothing else changed. */
  lemma ReadAfterWrite(d: Disk, offset: nat, data: seq<Byte>)
    requires offset + |data| <= |d|
    ensures Written(d, offset, data)[offset..offset + |data|] == data
    ensures Written(d, offset, data)[..offset] == d[..offset]
    ensures Written(d, offset, data)[offset + |data|..] == d[offset + |data|..]
  {
  }

  /** Changing part of a sector by writing the whole sector writes that part only. */
  lemma WholeSectorWrite(d: Disk, base: nat, at: nat, data: seq<Byte>)
    requires base + SECTOR_SIZE <= |d| && data != [] && at + |data| <= SECTOR_SIZE
    ensures Written(d, base, Splice(d[base..base + SECTOR_SIZE], at, data)) == Written(d, base + at, data)
  {
    var tmp := Splice(d[base..base + SECTOR_SIZE], at, data);
    assert forall p :: 0 <= p < |d| ==> Splice(d, base, tmp)[p] == Splice(d, base + at, data)[p];
  }

  // ---------------------------------------------------------------- dirty tracking

  /** The marks grow, by chunks that meet bytes `lo` up to `hi` or share a bit with one that does, and every
      changed byte is in a marked chunk. */
  ghost predicate Tracked(l: Layout, d0: Disk, d1: Disk, w0: seq<Word>, w1: seq<Word>, lo: int, hi: int) {
    && |d0| == |d1| && |w0| == |w1|
    && (forall p: nat :: p < |d0| && d0[p] != d1[p] ==> Marked(l, w1, p / CHUNK_BYTES))
    && (forall c: nat :: Marked(l, w0, c) ==> Marked(l, w1, c))
    && (forall c: nat :: Marked(l, w1, c) && !Marked(l, w0, c) ==> Near(l, c, lo, hi))
  }

  /** Chunk `c` has the bit of a chunk that meets bytes `lo` up to `hi`. */
  ghost predicate Near(l: Layout, c: nat, lo: int, hi: int) {
    exists k: nat :: l.SameSlot(c, k) && k * CHUNK_BYTES < hi && lo < (k + 1) * CHUNK_BYTES
  }

  lemma NearWider(l: Layout, c: nat, lo: int, hi: int, lo': int, hi': int)
    requires Near(l, c, lo, hi) && lo' <= lo && hi <= hi'
    ensures Near(l, c, lo', hi')
  {
    var k: nat :| l.SameSlot(c, k) && k * CHUNK_BYTES < hi && lo < (k + 1) * CHUNK_BYTES;
  }

  /** On a device whose chunks each have a bit of their own these are the chunks that meet the range. */
  lemma NearIsMeeting(l: Layout, chunks: nat, c: nat, lo: int, hi: int)
    requires OwnBits(l, chunks) && c < chunks && hi <= chunks * CHUNK_BYTES
    ensures Near(l, c, lo, hi) <==> c * CHUNK_BYTES < hi && lo < (c + 1) * CHUNK_BYTES
  {
    if Near(l, c, lo, hi) {
      var k: nat :| l.SameSlot(c, k) && k * CHUNK_BYTES < hi && lo < (k + 1) * CHUNK_BYTES;
      SlotIsOwn(l, chunks, c, k);
    } else {
      assert l.SameSlot(c, c);
    }
  }

  lemma TrackedTwice(l: Layout, d0: Disk, d1: Disk, d2: Disk, w0: seq<Word>, w1: seq<Word>, w2: seq<Word>,
                     lo: int, mid: int, hi: int)
    requires Tracked(l, d0, d1, w0, w1, lo, mid) && Tracked(l, d1, d2, w1, w2, mid, hi) && lo <= mid <= hi
    ensures Tracked(l, d0, d2, w0, w2, lo, hi)
  {
    hide Marked, Near;
    forall c: nat | Marked(l, w2, c) && !Marked(l, w0, c)
      ensures Near(l, c, lo, hi)
    {
      if Marked(l, w1, c) {
        NearWider(l, c, lo, mid, lo, hi);
      } else {
        NearWider(l, c, mid, hi, lo, hi);
      }
    }
  }

  /** Chunks are whole numbers of sectors, so the chunks of a sector range are those of any bytes in it
      that reach into its first and its last sector. */
  lemma MarksAreTracked(l: Layout, d: Disk, sector: nat, count: nat, data: seq<Byte>, w: seq<Word>, lo: nat, hi: nat)
    requires count >= 1 && |data| == count * SECTOR_SIZE && sector * SECTOR_SIZE + |data| <= |d|
    requires Past(sector, count) <= l.Bits() * |w|
    requires sector * SECTOR_SIZE <= lo < (sector + 1) * SECTOR_SIZE
    requires (sector + count - 1) * SECTOR_SIZE < hi <= (sector + count) * SECTOR_SIZE
    ensures var w1 := SetBits(l, w, First(sector), Past(sector, count), true);
            Tracked(l, d, d, w, w1, lo, hi) && Tracked(l, d, Splice(d, sector * SECTOR_SIZE, data), w, w1, lo, hi)
  {
    hide Marked, SetBits;
    var w1 := SetBits(l, w, First(sector), Past(sector, count), true);
    forall c: nat
      ensures Marked(l, w1, c) == (Hits(l, First(sector), Past(sector, count), c) || Marked(l, w, c))
    {
      SetBitsMark(l, w, First(sector), Past(sector, count), true, c);
    }
    forall c: nat | Hits(l, First(sector), Past(sector, count), c)
      ensures Near(l, c, lo, hi)
    {
      HitIsNear(l, sector, count, c, lo, hi);
    }
    var d1 := Splice(d, sector * SECTOR_SIZE, data);
    forall p: nat | p < |d| && d[p] != d1[p]
      ensures Marked(l, w1, p / CHUNK_BYTES)
    {
      ChunkOfByte(p, sector, count);
      assert l.SameSlot(p / CHUNK_BYTES, p / CHUNK_BYTES);
    }
  }

  lemma HitIsNear(l: Layout, sector: nat, count: nat, c: nat, lo: nat, hi: nat)
    requires count >= 1 && Hits(l, First(sector), Past(sector, count), c)
    requires sector * SECTOR_SIZE <= lo < (sector + 1) * SECTOR_SIZE
    requires (sector + count - 1) * SECTOR_SIZE < hi <= (sector + count) * SECTOR_SIZE
    ensures Near(l, c, lo, hi)
  {
    var k: nat :| First(sector) <= k < Past(sector, count) && l.SameSlot(c, k);
    assert k * CHUNK_BYTES < hi && lo < (k + 1) * CHUNK_BYTES;
  }

  lemma ChunkOfByte(p: nat, sector: nat, count: nat)
    requires sector * SECTOR_SIZE <= p < (sector + count) * SECTOR_SIZE
    ensures First(sector) <= p / CHUNK_BYTES < Past(sector, count)
  {
  }

  /** Reading or writing the sectors that hold bytes up to `done` needs no more than the range does. */
  lemma SectorsInRange(offset: int, count: nat, sector: int, n: nat, done: nat, length: nat)
    requires n >= 1 && 0 < done <= count && offset - SECTOR_SIZE < sector * SECTOR_SIZE
    requires (sector + n - 1) * SECTOR_SIZE < offset + done <= (sector + n) * SECTOR_SIZE
    ensures 0 <= offset && (sector + n) * SECTOR_SIZE <= length ==> InRange(offset, done, length)
    ensures sector < 0 || (sector + n) * SECTOR_SIZE > length ==> !InRange(offset, count, length)
    ensures InRange(offset, 0, length)
  {
  }

  lemma NothingInRange(offset: int, d: Disk)
    ensures InRange(offset, 0, |d|) && ReadSoFar(d, offset, [])
  {
  }

  /** `buf` holds the bytes of the disk from `offset` on. */
  predicate ReadSoFar(d: Disk, offset: int, buf: seq<Byte>) {
    buf == [] || (0 <= offset && offset + |buf| <= |d| && buf == d[offset..offset + |buf|])
  }

  lemma ReadPart(d: Disk, offset: int, buf: seq<Byte>, at: nat, n: nat)
    requires ReadSoFar(d, offset, buf) && at + n <= |buf|
    ensures ReadSoFar(d, offset + at, buf[at..at + n])
    ensures ReadSoFar(d, offset + at, [])
  {
    if n > 0 {
      var part := d[offset + at..offset + at + n];
      forall i | 0 <= i < n ensures buf[at..at + n][i] == part[i] {
        assert buf[at + i] == d[offset + (at + i)];
      }
    }
  }

  lemma ReadOn(d: Disk, offset: int, buf: seq<Byte>, more: seq<Byte>)
    requires ReadSoFar(d, offset, buf) && ReadSoFar(d, offset + |buf|, more) && 0 <= offset
    ensures ReadSoFar(d, offset, buf + more)
  {
  }

  // ---------------------------------------------------------------- the outcome of a write

  /** On success exactly the range is written; on failure a prefix of it; the marks account for it. */
  ghost predicate WriteOutcome(l: Layout, d0: Disk, d1: Disk, w0: seq<Word>, w1: seq<Word>, offset: int,
                               data: seq<Byte>, ok: bool, tracking: bool)
  {
    && (ok ==> InRange(offset, |data|, |d0|) && d1 == Written(d0, offset, data))
    && (!ok ==> exists k: nat :: k <= |data| && PrefixWritten(d0, d1, offset, data, k))
    && (tracking ==> Tracked(l, d0, d1, w0, w1, offset, offset + |data|))
  }

  ghost predicate PrefixWritten(d0: Disk, d1: Disk, offset: int, data: seq<Byte>, k: nat)
    requires k <= |data|
  {
    InRange(offset, k, |d0|) && d1 == Written(d0, offset, data[..k])
  }

  /** Byte by byte: what a read returns, and what a write that succeeds leaves. */
  lemma ReadIs(d: Disk, offset: int, buf: seq<Byte>)
    requires ReadSoFar(d, offset, buf) && buf != []
    ensures 0 <= offset && offset + |buf| <= |d| && forall i :: 0 <= i < |buf| ==> buf[i] == d[offset + i]
  {
  }

  lemma WriteIs(l: Layout, d0: Disk, d1: Disk, w0: seq<Word>, w1: seq<Word>, offset: int, data: seq<Byte>,
                tracking: bool)
    requires WriteOutcome(l, d0, d1, w0, w1, offset, data, true, tracking)
    ensures data == [] ==> d1 == d0
    ensures data != [] ==>
              && 0 <= offset && offset + |data| <= |d0| == |d1|
              && forall p :: 0 <= p < |d0| ==>
                   d1[p] == if offset <= p < offset + |data| then data[p - offset] else d0[p]
  {
    hide Tracked, Marked;
    InRangeFits(offset, |data|, |d0|);
  }

  lemma NothingWritten(l: Layout, d: Disk, w: seq<Word>, offset: int, data: seq<Byte>, tracking: bool)
    ensures WriteOutcome(l, d, d, w, w, offset, [], true, tracking)
  {
  }

  /** Whole sectors, as the device writes them. */
  lemma SectorsWritten(l: Layout, d0: Disk, d1: Disk, w0: seq<Word>, w1: seq<Word>, sector: int, n: nat,
                       data: seq<Byte>, ok: bool, tracking: bool)
    requires n >= 1 && |data| == n * SECTOR_SIZE && |d1| == |d0|
    requires ok ==> 0 <= sector && (sector + n) * SECTOR_SIZE <= |d0|
    requires d1 == if ok then Splice(d0, sector * SECTOR_SIZE, data) else d0
    requires tracking ==> Tracked(l, d0, d1, w0, w1, sector * SECTOR_SIZE, sector * SECTOR_SIZE + |data|)
    ensures WriteOutcome(l, d0, d1, w0, w1, sector * SECTOR_SIZE, data, ok, tracking)
    ensures InRange(sector * SECTOR_SIZE, |data|, |d0|) <==> 0 <= sector && (sector + n) * SECTOR_SIZE <= |d0|
  {
    hide Tracked;
    if !ok {
      assert PrefixWritten(d0, d1, sector * SECTOR_SIZE, data, 0);
    }
  }

  /** Part of one sector, read, changed and written back. */
  lemma PatchWritten(l: Layout, d0: Disk, d1: Disk, w0: seq<Word>, w1: seq<Word>, offset: int, part: seq<Byte>,
                     ok: bool, tracking: bool)
    requires part != [] && offset % SECTOR_SIZE + |part| <= SECTOR_SIZE && |d1| == |d0|
    requires ok ==> 0 <= offset && (offset / SECTOR_SIZE + 1) * SECTOR_SIZE <= |d0|
    requires d1 == if ok then Splice(d0, offset / SECTOR_SIZE * SECTOR_SIZE,
                                     Splice(Sector(d0, offset / SECTOR_SIZE), offset % SECTOR_SIZE, part)) else d0
    requires tracking ==> Tracked(l, d0, d1, w0, w1, offset, offset + |part|)
    ensures WriteOutcome(l, d0, d1, w0, w1, offset, part, ok, tracking)
  {
    hide Tracked, InRange, Written;
    PatchInRange(offset, |part|, |d0|);
    NothingIsWritten(d0, offset);
    if ok {
      var base := offset / SECTOR_SIZE * SECTOR_SIZE;
      WholeSectorWrite(d0, base, offset % SECTOR_SIZE, part);
      SpliceIsWritten(d0, base, Splice(Sector(d0, offset / SECTOR_SIZE), offset % SECTOR_SIZE, part));
    } else {
      assert PrefixWritten(d0, d1, offset, part, 0);
    }
  }

  lemma NothingIsWritten(d: Disk, offset: int)
    ensures Written(d, offset, []) == d
  {
  }

  lemma SpliceIsWritten(d: Disk, offset: int, data: seq<Byte>)
    requires data != [] && 0 <= offset && offset + |data| <= |d|
    ensures Splice(d, offset, data) == Written(d, offset, data)
  {
  }

  lemma PatchInRange(offset: int, count: nat, length: nat)
    requires 0 < count && offset % SECTOR_SIZE + count <= SECTOR_SIZE
    ensures InRange(offset, count, length) <==> 0 <= offset && (offset / SECTOR_SIZE + 1) * SECTOR_SIZE <= length
    ensures InRange(offset, 0, length)
  {
  }

  lemma RangeSplits(offset: int, count: nat, at: nat, length: nat)
    requires at <= count
    ensures InRange(offset, count, length) <==> InRange(offset, at, length) && InRange(offset + at, count - at, length)
  {
  }

  /** A write whose first part succeeded ends as its second part does. */
  lemma OutcomesJoin(l: Layout, d0: Disk, d1: Disk, d2: Disk, w0: seq<Word>, w1: seq<Word>, w2: seq<Word>, offset: int,
                     data: seq<Byte>, at: nat, ok: bool, tracking: bool)
    requires at <= |data| && WriteOutcome(l, d0, d1, w0, w1, offset, data[..at], true, tracking)
    requires WriteOutcome(l, d1, d2, w1, w2, offset + at, data[at..], ok, tracking)
    ensures WriteOutcome(l, d0, d2, w0, w2, offset, data, ok, tracking)
  {
    hide Tracked, Marked, Written, InRange;
    if tracking {
      TrackedTwice(l, d0, d1, d2, w0, w1, w2, offset, offset + at, offset + |data|);
    }
    var k: nat := |data| - at;
    if !ok {
      k :| k <= |data| - at && PrefixWritten(d1, d2, offset + at, data[at..], k);
    }
    PrefixJoins(data, at, k);
    if !ok {
      InRangeFits(offset + at, k, |d1|);
    }
    assert !ok ==> InRange(offset + at, k, |d1|) && d2 == Written(d1, offset + at, data[at..][..k]);
    assert ok ==> data[at..][..k] == data[at..] && data[..at + k] == data;
    RangeSplits(offset, at + k, at, |d0|);
    InRangeFits(offset, at + k, |d0|);
    WrittenTwice(d0, offset, data[..at], data[at..][..k]);
    if !ok {
      assert PrefixWritten(d0, d2, offset, data, at + k);
    }
  }

  lemma PrefixJoins(data: seq<Byte>, at: nat, k: nat)
    requires at + k <= |data|
    ensures data[..at] + data[at..][..k] == data[..at + k]
  {
  }

  lemma InRangeFits(offset: int, count: nat, length: nat)
    requires InRange(offset, count, length)
    ensures count > 0 ==> 0 <= offset && offset + count <= length
  {
  }

  /** A write whose first part failed has failed. */
  lemma FirstPartFails(l: Layout, d0: Disk, d1: Disk, w0: seq<Word>, w1: seq<Word>, offset: int, data: seq<Byte>,
                       at: nat, tracking: bool)
    requires at <= |data| && WriteOutcome(l, d0, d1, w0, w1, offset, data[..at], false, tracking)
    ensures WriteOutcome(l, d0, d1, w0, w1, offset, data, false, tracking)
  {
    hide Marked, Written, InRange;
    var k: nat :| k <= at && PrefixWritten(d0, d1, offset, data[..at], k);
    assert data[..at][..k] == data[..k];
    assert PrefixWritten(d0, d1, offset, data, k);
  }

  // ---------------------------------------------------------------- the device

  class BlockDevice {
    var content: Disk
    const inserted: bool
    var readOnly: bool
    const layout: Layout
    var bitmap: array?<Word>
    /** How many calls of the driver have failed; any call may. */
    var failures: nat

    /** A tracking bitmap has a bit for every chunk that holds a whole sector. */
    ghost predicate Valid()
      reads this
    {
      bitmap != null ==> |content| / SECTOR_SIZE <= layout.Bits() * bitmap.Length * CHUNK_SECTORS
    }

    function Words(): seq<Word>
      reads this, bitmap
    {
      if bitmap == null then [] else bitmap[..]
    }

    function CheckRequest(sector: int, count: nat): int
      reads this
    {
      if !inserted then -ENOMEDIUM
      else if sector * SECTOR_SIZE < 0 then -EIO
      else if sector * SECTOR_SIZE > |content| || |content| - sector * SECTOR_SIZE < count * SECTOR_SIZE then -EIO
      else 0
    }

    /** Starts tracking with a clean bitmap, or stops it. */
    method SetDirtyTracking(enable: bool)
      requires Valid()
      modifies this`bitmap
      ensures Valid() && (bitmap != null) == enable
      ensures enable && old(bitmap) != null ==> bitmap == old(bitmap)
      ensures enable && old(bitmap) == null ==> fresh(bitmap) && forall c: nat :: !Marked(layout, Words(), c)
    {
      if !enable {
        bitmap := null;
      } else if bitmap == null {
        var sectors := |content| / SECTOR_SIZE;
        bitmap := new Word[BitmapWords(layout, sectors)](i => 0);
        BitmapIsLargeEnough(layout, sectors);
        forall c: nat ensures !Marked(layout, Words(), c) {
          NoMarks(layout, Words(), c);
        }
      }
    }

    /** Whether the chunk of a sector is marked. A partial sector at the end may be of a chunk without a bit. */
    method GetDirty(sector: nat) returns (dirty: bool)
      requires Valid() && (bitmap != null && |content| % SECTOR_SIZE != 0 ==> sector != |content| / SECTOR_SIZE)
      ensures dirty <==>
                bitmap != null && sector * SECTOR_SIZE < |content| && Marked(layout, Words(), sector / CHUNK_SECTORS)
    {
      hide Bit;
      var chunk := sector / CHUNK_SECTORS;
      if bitmap != null && sector * SECTOR_SIZE < |content| {
        ChunkInBitmap(layout, sector, |content| / SECTOR_SIZE, bitmap.Length);
      }
      if bitmap != null && sector * SECTOR_SIZE < |content| {
        dirty := Bit(layout, bitmap[chunk / layout.Bits()], chunk % layout.Bits());
      } else {
        dirty := false;
      }
    }

    /** Clears the chunks of a sector range; the others keep their marks. */
    method ResetDirty(sector: nat, count: nat)
      requires bitmap != null
      requires First(sector) < Past(sector, count) ==> Past(sector, count) <= layout.Bits() * bitmap.Length
      modifies bitmap
      ensures forall c: nat :: Marked(layout, Words(), c) <==>
                Marked(layout, old(Words()), c) && !Hits(layout, First(sector), Past(sector, count), c)
    {
      ghost var words := bitmap[..];
      SetDirtyBitmap(layout, bitmap, sector, count, false);
      forall c: nat ensures Marked(layout, Words(), c) <==>
          Marked(layout, words, c) && !Hits(layout, First(sector), Past(sector, count), c) {
        SetBitsMark(layout, words, First(sector), Past(sector, count), false, c);
      }
    }

    method Read(sector: int, count: nat) returns (ret: int, buf: seq<Byte>)
      modifies this`failures
      ensures old(failures) <= failures && ret <= 0
      ensures ret == 0 <==> CheckRequest(sector, count) == 0 && failures == old(failures)
      ensures ret == 0 <==>
                inserted && 0 <= sector && (sector + count) * 512 <= |content| && failures == old(failures)
      ensures ret < 0 ==> ret == if !inserted then -ENOMEDIUM else -EIO
      ensures ret == 0 ==> ReadSoFar(content, sector * SECTOR_SIZE, buf) && |buf| == count * SECTOR_SIZE
    {
      if !inserted {
        return -ENOMEDIUM, [];
      }
      if CheckRequest(sector, count) != 0 {
        return -EIO, [];
      }
      if * {
        failures := failures + 1;
        return -EIO, [];
      }
      return 0, content[sector * SECTOR_SIZE..(sector + count) * SECTOR_SIZE];
    }

    predicate Refuses(sector: int, count: nat)
      reads this
    {
      readOnly || CheckRequest(sector, count) != 0
    }

    /** Marks the chunks dirty, then writes; a failing driver leaves the content as it was, and the marks. */
    method Write(sector: int, buf: seq<Byte>, count: nat) returns (ret: int)
      requires Valid() && |buf| == count * SECTOR_SIZE
      requires bitmap != null && count == 0 ==> |content| >= SECTOR_SIZE
      modifies this`failures, this`content, bitmap
      ensures Valid() && old(failures) <= failures && ret <= 0
      ensures ret == 0 <==> !old(Refuses(sector, count)) && failures == old(failures)
      ensures ret == 0 <==>
                && inserted && !readOnly && 0 <= sector && (sector + count) * 512 <= |old(content)|
                && failures == old(failures)
      ensures ret < 0 ==> ret == if !inserted then -ENOMEDIUM else if readOnly then -EACCES else -EIO
      ensures content == if ret == 0 then Splice(old(content), sector * SECTOR_SIZE, buf) else old(content)
      ensures old(Refuses(sector, count)) ==> Words() == old(Words())
      ensures !old(Refuses(sector, count)) && bitmap != null ==>
                && (First(sector) < Past(sector, count) ==> Past(sector, count) <= layout.Bits() * |old(Words())|)
                && Words() == SetBits(layout, old(Words()), First(sector), Past(sector, count), true)
    {
      hide SetBits;
      if !inserted {
        return -ENOMEDIUM;
      }
      if readOnly {
        return -EACCES;
      }
      if CheckRequest(sector, count) != 0 {
        return -EIO;
      }
      if bitmap != null {
        LastChunkInBitmap(layout, sector, count, |content| / SECTOR_SIZE, bitmap.Length);
        SetDirtyBitmap(layout, bitmap, sector, count, true);
      }
      if * {
        failures := failures + 1;
        return -EIO;
      }
      content := Splice(content, sector * SECTOR_SIZE, buf);
      ret := 0;
    }

    /** The same for at least one sector: what was changed is in the marked chunks of the bytes `lo` up to `hi`. */
    method WriteTracked(sector: int, buf: seq<Byte>, count: nat, ghost lo: int, ghost hi: int) returns (ret: int)
      requires Valid() && count >= 1 && |buf| == count * SECTOR_SIZE
      requires sector * SECTOR_SIZE <= lo < (sector + 1) * SECTOR_SIZE
      requires (sector + count - 1) * SECTOR_SIZE < hi <= (sector + count) * SECTOR_SIZE
      modifies this`failures, this`content, bitmap
      ensures Valid() && old(failures) <= failures && ret <= 0
      ensures ret == 0 <==> !old(Refuses(sector, count)) && failures == old(failures)
      ensures ret == 0 ==> inserted && !readOnly
      ensures content == if ret == 0 then Splice(old(content), sector * SECTOR_SIZE, buf) else old(content)
      ensures bitmap != null ==> Tracked(layout, old(content), content, old(Words()), Words(), lo, hi)
    {
      hide SetBits, Tracked;
      ghost var d0, w0, refused := content, Words(), Refuses(sector, count);
      ret := Write(sector, buf, count);
      if refused {
        SameIsTracked(layout, d0, w0, lo, hi);
      } else if bitmap != null {
        MarksAreTracked(layout, d0, sector, count, buf, w0, lo, hi);
      }
    }

    /** Part of one sector. */
    method ReadWithin(offset: int, len: nat) returns (ret: int, buf: seq<Byte>)
      requires len > 0 && offset % SECTOR_SIZE + len <= SECTOR_SIZE
      modifies this`failures
      ensures old(failures) <= failures && ret <= 0
      ensures ret == 0 ==>
                inserted && InRange(offset, len, |content|) && ReadSoFar(content, offset, buf) && |buf| == len
      ensures ret < 0 ==> !inserted || !InRange(offset, len, |content|) || failures > old(failures)
    {
      hide InRange, ReadSoFar;
      PatchInRange(offset, len, |content|);
      var sector := offset / SECTOR_SIZE;
      var r, tmp := Read(sector, 1);
      if r < 0 {
        return r, [];
      }
      var at := offset % SECTOR_SIZE;
      ReadPart(content, sector * SECTOR_SIZE, tmp, at, len);
      return 0, tmp[at..at + len];
    }

    /** The part of a read from a sector boundary on: whole sectors, then the start of one more. */
    method ReadFrom(sector: int, count: nat) returns (ret: int, buf: seq<Byte>)
      modifies this`failures
      ensures old(failures) <= failures && ret <= 0
      ensures ret == 0 ==>
                && InRange(sector * SECTOR_SIZE, count, |content|) && |buf| == count && (count > 0 ==> inserted)
                && ReadSoFar(content, sector * SECTOR_SIZE, buf)
      ensures ret < 0 ==>
                count > 0 && (!inserted || !InRange(sector * SECTOR_SIZE, count, |content|) || failures > old(failures))
    {
      hide InRange, ReadSoFar;
      var base := sector * SECTOR_SIZE;
      NothingInRange(base, content);
      buf := [];
      var n := count / SECTOR_SIZE;
      var left := count - n * SECTOR_SIZE;
      if n > 0 {
        var r, tmp := Read(sector, n);
        SectorsInRange(base, count, sector, n, n * SECTOR_SIZE, |content|);
        if r < 0 {
          return r, buf;
        }
        buf := tmp;
      }
      if left > 0 {
        var r, tmp := ReadWithin(base + n * SECTOR_SIZE, left);
        RangeSplits(base, count, n * SECTOR_SIZE, |content|);
        if r < 0 {
          return r, buf;
        }
        InRangeFits(base, count, |content|);
        ReadOn(content, base, buf, tmp);
        buf := buf + tmp;
      }
      ret := 0;
    }

    method PRead(offset: int, count: nat) returns (ret: int, buf: seq<Byte>)
      modifies this`failures
      ensures old(failures) <= failures
      ensures ret >= 0 ==>
                ret == count && InRange(offset, count, |content|) && ReadSoFar(content, offset, buf) && |buf| == count
      ensures ret >= 0 && count > 0 ==> inserted
      ensures ret < 0 ==> count > 0 && (!inserted || !InRange(offset, count, |content|) || failures > old(failures))
    {
      hide InRange, ReadSoFar;
      NothingInRange(offset, content);
      buf := [];
      var len := (SECTOR_SIZE - offset) % SECTOR_SIZE;
      if len > count {
        len := count;
      }
      RangeSplits(offset, count, len, |content|);
      var sector := offset / SECTOR_SIZE;
      if len > 0 {
        var r, part := ReadWithin(offset, len);
        if r < 0 {
          return r, buf;
        }
        buf := part;
        sector := sector + 1;
      }
      if count == len {
        return count, buf;
      }
      var r, rest := ReadFrom(sector, count - len);
      if r < 0 {
        return r, buf;
      }
      InRangeFits(offset, count, |content|);
      ReadOn(content, offset, buf, rest);
      buf := buf + rest;
      ret := count;
    }

    /** Changes part of one sector by reading, patching and writing the sector. */
    method PatchSector(offset: int, part: seq<Byte>) returns (ret: int)
      requires Valid() && part != [] && offset % SECTOR_SIZE + |part| <= SECTOR_SIZE
      modifies this`failures, this`content, bitmap
      ensures Valid() && old(failures) <= failures && ret <= 0 && |content| == |old(content)|
      ensures WriteOutcome(layout, old(content), content, old(Words()), Words(), offset, part, ret == 0, bitmap != null)
      ensures ret == 0 ==> inserted && !readOnly
      ensures ret < 0 ==> !inserted || readOnly || !InRange(offset, |part|, |old(content)|) || failures > old(failures)
    {
      hide Tracked, Marked, InRange, WriteOutcome;
      ghost var d0, w0 := content, Words();
      PatchInRange(offset, |part|, |content|);
      var sector := offset / SECTOR_SIZE;
      var r, tmp := Read(sector, 1);
      if r < 0 {
        SameIsTracked(layout, d0, w0, offset, offset + |part|);
        PatchWritten(layout, d0, content, w0, Words(), offset, part, false, bitmap != null);
        return r;
      }
      assert tmp == Sector(d0, sector);
      tmp := Splice(tmp, offset % SECTOR_SIZE, part);
      ret := WriteTracked(sector, tmp, 1, offset, offset + |part|);
      PatchWritten(layout, d0, content, w0, Words(), offset, part, ret == 0, bitmap != null);
    }

    /** The part of a write from a sector boundary on. */
    method WriteFrom(sector: int, data: seq<Byte>) returns (ret: int)
      requires Valid()
      modifies this`failures, this`content, bitmap
      ensures Valid() && old(failures) <= failures && ret <= 0 && |content| == |old(content)|
      ensures WriteOutcome(layout, old(content), content, old(Words()), Words(), sector * SECTOR_SIZE, data,
                           ret == 0, bitmap != null)
      ensures ret == 0 && data != [] ==> inserted && !readOnly
      ensures ret < 0 ==>
                && data != []
                && (|| !inserted || readOnly || !InRange(sector * SECTOR_SIZE, |data|, |old(content)|)
                    || failures > old(failures))
    {
      hide Tracked, Marked, Written, InRange, WriteOutcome, PrefixWritten, Splice;
      var base := sector * SECTOR_SIZE;
      ghost var d0, w0 := content, Words();
      var n := |data| / SECTOR_SIZE;
      var done := n * SECTOR_SIZE;
      RangeSplits(base, |data|, done, |content|);
      NothingWritten(layout, d0, w0, base, data, bitmap != null);
      if n > 0 {
        ret := WriteTracked(sector, data[..done], n, base, base + done);
        SectorsWritten(layout, d0, content, w0, Words(), sector, n, data[..done], ret == 0, bitmap != null);
        if ret < 0 {
          FirstPartFails(layout, d0, content, w0, Words(), base, data, done, bitmap != null);
          return;
        }
      }
      ghost var d1, w1 := content, Words();
      ret := 0;
      if |data| > done {
        ret := PatchSector(base + done, data[done..]);
      } else {
        NothingWritten(layout, d1, w1, base + done, data, bitmap != null);
      }
      OutcomesJoin(layout, d0, d1, content, w0, w1, Words(), base, data, done, ret == 0, bitmap != null);
    }

    /** Reads and rewrites the sectors that the range only partly covers. */
    method PWrite(offset: int, data: seq<Byte>) returns (ret: int)
      requires Valid()
      modifies this`failures, this`content, bitmap
      ensures Valid() && old(failures) <= failures && (ret >= 0 ==> ret == |data|) && |content| == |old(content)|
      ensures WriteOutcome(layout, old(content), content, old(Words()), Words(), offset, data, ret >= 0, bitmap != null)
      ensures ret >= 0 && data != [] ==> inserted && !readOnly
      ensures ret < 0 ==>
                data != [] &&
                (!inserted || readOnly || !InRange(offset, |data|, |old(content)|) || failures > old(failures))
    {
      hide Tracked, Marked, Written, InRange, WriteOutcome;
      ghost var d0, w0 := content, Words();
      var count := |data|;
      var len := (SECTOR_SIZE - offset) % SECTOR_SIZE;
      if len > count {
        len := count;
      }
      RangeSplits(offset, count, len, |content|);
      NothingWritten(layout, d0, w0, offset, data, bitmap != null);
      var sector := offset / SECTOR_SIZE;
      if len > 0 {
        ret := PatchSector(offset, data[..len]);
        if ret < 0 {
          FirstPartFails(layout, d0, content, w0, Words(), offset, data, len, bitmap != null);
          return;
        }
        sector := sector + 1;
      }
      if count == len {
        assert data[..len] == data;
        return count;
      }
      ghost var d1, w1 := content, Words();
      ret := WriteFrom(sector, data[len..]);
      OutcomesJoin(layout, d0, d1, content, w0, w1, Words(), offset, data, len, ret == 0, bitmap != null);
      if ret == 0 {
        ret := count;
      }
    }
  }

  lemma SameIsTracked(l: Layout, d: Disk, w: seq<Word>, lo: int, hi: int)
    ensures Tracked(l, d, d, w, w, lo, hi)
  {
  }

  lemma BitmapIsLargeEnough(l: Layout, sectors: nat)
    ensures sectors <= l.Bits() * BitmapWords(l, sectors) * CHUNK_SECTORS
  {
    WordsHoldBytes(l, BitmapBytes(sectors));
  }

  lemma ChunkInBitmap(l: Layout, sector: nat, sectors: nat, words: nat)
    requires sector < sectors <= l.Bits() * words * CHUNK_SECTORS
    ensures sector / CHUNK_SECTORS / l.Bits() < words
  {
    InWords(l, sector / CHUNK_SECTORS, words);
  }

  lemma LastChunkInBitmap(l: Layout, sector: nat, count: nat, sectors: nat, words: nat)
    requires count >= 1 || sectors > 0
    requires sector + count <= sectors <= l.Bits() * words * CHUNK_SECTORS
    ensures First(sector) < Past(sector, count) ==> Past(sector, count) <= l.Bits() * words
  {
  }
}
