/** What every step of live block migration keeps, and what it says about the destination. */
module MigrationSafety {
  import opened Sectors
  import opened Migration

  type Key = (nat, nat)

  // ---------------------------------------------------------------- pending blocks

  ghost function Keys(q: seq<Blk>): set<Key> {
    set b | b in q :: (b.dev, b.sector)
  }

  ghost predicate Distinct(q: seq<Blk>) {
    forall j, k :: 0 <= j < k < |q| ==> (q[j].dev, q[j].sector) != (q[k].dev, q[k].sector)
  }

  ghost function PendingKeys(s: State): set<Key> {
    Keys(s.inFlight) + Keys(s.blkList)
  }

  /** A bulk read of chunk `c` of device `i` is in flight, or completed and not sent. */
  ghost predicate Pending(s: State, i: nat, c: nat) {
    (i, c * CHUNK_SECTORS) in PendingKeys(s)
  }

  lemma KeysRemove(q: seq<Blk>, k: nat)
    requires k < |q| && Distinct(q)
    ensures Distinct(RemoveAt(q, k))
    ensures Keys(RemoveAt(q, k)) == Keys(q) - {(q[k].dev, q[k].sector)}
    ensures forall b :: b in RemoveAt(q, k) ==> b in q
  {
    var r := RemoveAt(q, k);
    forall b | b in q && b != q[k]
      ensures b in r
    {
      var j :| 0 <= j < |q| && q[j] == b;
      assert r[if j < k then j else j - 1] == b;
    }
  }

  lemma KeysAppend(q: seq<Blk>, b: Blk)
    requires Distinct(q) && (b.dev, b.sector) !in Keys(q)
    ensures Distinct(q + [b]) && Keys(q + [b]) == Keys(q) + {(b.dev, b.sector)}
  {
    forall j | 0 <= j < |q|
      ensures (q[j].dev, q[j].sector) in Keys(q)
    {
      assert q[j] in q;
    }
    forall x | x in Keys(q) + {(b.dev, b.sector)}
      ensures x in Keys(q + [b])
    {
      if x == (b.dev, b.sector) {
        assert b in q + [b];
      } else {
        var a :| a in q && (a.dev, a.sector) == x;
        assert a in q + [b];
      }
    }
  }

  lemma KeysUpdate(q: seq<Blk>, k: nat, b: Blk)
    requires k < |q| && Distinct(q) && b.dev == q[k].dev && b.sector == q[k].sector
    ensures Distinct(q[k := b]) && Keys(q[k := b]) == Keys(q)
  {
    var r := q[k := b];
    forall j | 0 <= j < |q|
      ensures (q[j].dev, q[j].sector) in Keys(r) && (r[j].dev, r[j].sector) in Keys(q)
    {
      assert q[j] in q && r[j] in r;
    }
  }

  // ---------------------------------------------------------------- the invariant

  /** Devices have distinct names, known to the destination, and destination disks of their size. */
  ghost predicate DevsOk(devs: seq<Dev>, dest: Disks) {
    && (forall j, k :: 0 <= j < k < |devs| ==> devs[j].name != devs[k].name)
    && forall i :: 0 <= i < |devs| ==> DevOk(devs[i]) && devs[i].name in dest && |dest[devs[i].name]| == |devs[i].disk|
  }

  /** A device's bulk cursor only ever stands on a chunk boundary or at the end. */
  ghost predicate DevOk(d: Dev) {
    && |d.disk| > 0 && |d.disk| % SECTOR_SIZE == 0
    && d.completedSectors <= d.Total() && d.curSector <= d.Total()
    && (d.curSector % CHUNK_SECTORS == 0 || d.curSector == d.Total())
    && (d.bulkCompleted <==> d.curSector == d.Total())
  }

  /** A pending block covers one chunk below its device's cursor; unless that chunk is dirty,
      the data read for it is what the source holds. */
  ghost predicate BlkOk(devs: seq<Dev>, b: Blk) {
    && b.dev < |devs|
    && var d := devs[b.dev];
       && b.sector % CHUNK_SECTORS == 0 && b.nr > 0
       && b.nr == Min(CHUNK_SECTORS, d.Total() - b.sector) && b.sector + b.nr <= d.curSector
       && (b.data.Some? ==> |b.data.value| == CHUNK_BYTES)
       && (b.data.Some? && b.ret >= 0 && b.sector / CHUNK_SECTORS !in d.dirty ==>
             b.data.value[..b.nr * SECTOR_SIZE] == ReadSectors(d.disk, b.sector, b.nr))
  }

  /** A bulk read that has delivered no good data: not performed yet, or failed. */
  predicate Waits(b: Blk) {
    b.data.None? || b.ret < 0
  }

  ghost function WaitingKeys(s: State): set<Key> {
    (set b | b in s.inFlight && Waits(b) :: (b.dev, b.sector)) +
        (set b | b in s.blkList && Waits(b) :: (b.dev, b.sector))
  }

  /** A guest write fits its device. */
  ghost predicate WriteFits(devs: seq<Dev>, w: GuestWrite) {
    && w.dev < |devs|
    && |w.data| > 0 && |w.data| % SECTOR_SIZE == 0
    && w.sector * SECTOR_SIZE + |w.data| <= |devs[w.dev].disk|
  }

  /** An outstanding guest write fits, and each chunk it will change is dirty, ahead of the bulk cursor or
      waits for its data to be read. */
  ghost predicate WriteOk(devs: seq<Dev>, waiting: set<Key>, w: GuestWrite) {
    WriteFits(devs, w) && forall c: nat :: WriteSafe(devs[w.dev], waiting, w, c)
  }

  ghost predicate WriteSafe(d: Dev, waiting: set<Key>, w: GuestWrite, c: nat) {
    c in d.dirty || !d.Covered(c) || (w.dev, c * CHUNK_SECTORS) in waiting || w.Same(d.disk, c)
  }

  ghost predicate WritesOk(s: State) {
    forall w :: w in s.writes ==> WriteOk(s.devs, WaitingKeys(s), w)
  }

  /** With a shared base, a sector the source has not allocated reads the same on both sides. */
  ghost predicate BaseOk(d: Dev, x0: Disk) {
    d.sharedBase ==>
      |x0| == |d.disk| && forall s: nat :: s < d.Total() && s !in d.alloc ==> Sector(d.disk, s) == Sector(x0, s)
  }

  /** Chunk `c` of device `i`: nothing was written to it on the destination while its bulk copy is
      not sent; once it is sent or skipped, and clean, both sides hold the same. */
  ghost predicate ChunkOk(s: State, dest0: Disks, dest: Disks, i: nat, c: nat)
    requires i < |s.devs| && s.devs[i].name in dest0 && s.devs[i].name in dest
    requires c * CHUNK_BYTES < |s.devs[i].disk|
    requires |dest0[s.devs[i].name]| == |s.devs[i].disk| == |dest[s.devs[i].name]|
  {
    var d, x0, x := s.devs[i], dest0[s.devs[i].name], dest[s.devs[i].name];
    && (!d.Covered(c) || Pending(s, i, c) || !d.Full(c) ==> Chunk(x, c) == Chunk(x0, c))
    && (d.Covered(c) && c !in d.dirty && d.Full(c) && !Pending(s, i, c) ==> Chunk(x, c) == Chunk(d.disk, c))
  }

  ghost predicate ChunksOk(s: State, dest0: Disks, dest: Disks)
    requires DevsOk(s.devs, dest0) && DevsOk(s.devs, dest)
  {
    forall i: nat, c: nat :: i < |s.devs| && c * CHUNK_BYTES < |s.devs[i].disk| ==> ChunkOk(s, dest0, dest, i, c)
  }

  ghost predicate QueuesOk(s: State) {
    && s.submitted == |s.inFlight| && s.readDone == |s.blkList|
    && Distinct(s.inFlight) && Distinct(s.blkList) && Keys(s.inFlight) !! Keys(s.blkList)
    && (forall b :: b in s.inFlight ==> BlkOk(s.devs, b) && b.ret == 0)
    && (forall b :: b in s.blkList ==> BlkOk(s.devs, b) && (b.ret >= 0 ==> b.data.Some?))
  }

  /** The invariant of migration, for a destination that started as `dest0` and, having loaded
      everything on the wire, is now `dest`. */
  ghost predicate Inv(s: State, dest0: Disks, dest: Disks) {
    && DevsOk(s.devs, dest0) && DevsOk(s.devs, dest)
    && QueuesOk(s) && WritesOk(s)
    && (forall i :: 0 <= i < |s.devs| ==> BaseOk(s.devs[i], dest0[s.devs[i].name]))
    && ChunksOk(s, dest0, dest)
  }

  // ---------------------------------------------------------------- what waits

  lemma WaitingArePending(s: State)
    ensures WaitingKeys(s) <= PendingKeys(s)
  {
  }

  /** A read with good data does not wait, and no other read is for its chunk. */
  lemma NotWaiting(s: State, b: Blk)
    requires QueuesOk(s) && (b in s.inFlight || b in s.blkList) && !Waits(b)
    ensures (b.dev, b.sector) !in WaitingKeys(s)
  {
    if (b.dev, b.sector) in WaitingKeys(s) {
      var a :| (a in s.inFlight || a in s.blkList) && Waits(a) && (a.dev, a.sector) == (b.dev, b.sector);
      OneRead(s, a, b);
    }
  }

  lemma OneRead(s: State, a: Blk, b: Blk)
    requires QueuesOk(s) && (a in s.inFlight || a in s.blkList) && (b in s.inFlight || b in s.blkList)
    requires (a.dev, a.sector) == (b.dev, b.sector)
    ensures a == b
  {
    hide BlkOk;
    if a in s.inFlight {
      assert (a.dev, a.sector) in Keys(s.inFlight);
    } else {
      assert (a.dev, a.sector) in Keys(s.blkList);
    }
    if b in s.inFlight {
      assert (b.dev, b.sector) in Keys(s.inFlight);
      var j, k :| 0 <= j < |s.inFlight| && 0 <= k < |s.inFlight| && s.inFlight[j] == a && s.inFlight[k] == b;
    } else {
      assert (b.dev, b.sector) in Keys(s.blkList);
      var j, k :| 0 <= j < |s.blkList| && 0 <= k < |s.blkList| && s.blkList[j] == a && s.blkList[k] == b;
    }
  }

  lemma UntouchedIsSame(w: GuestWrite, d: Disk, c: nat)
    requires !w.Touches(w.dev, c)
    ensures w.Same(d, c)
  {
  }

  /** A write that changes nothing in a chunk leaves the chunk as it is. */
  lemma SameKeepsChunk(w: GuestWrite, d: Disk, c: nat)
    requires w.sector * SECTOR_SIZE + |w.data| <= |d| && w.Same(d, c) && c * CHUNK_BYTES < |d|
    ensures Chunk(Splice(d, w.sector * SECTOR_SIZE, w.data), c) == Chunk(d, c)
  {
    var x := Splice(d, w.sector * SECTOR_SIZE, w.data);
    assert forall p :: c * CHUNK_BYTES <= p < Min(|d|, (c + 1) * CHUNK_BYTES) ==> x[p] == d[p];
  }

  /** More that waits, or is dirty, on the same contents. */
  lemma WriteStaysOk(devs: seq<Dev>, waiting: set<Key>, devs': seq<Dev>, waiting': set<Key>, w: GuestWrite)
    requires WriteOk(devs, waiting, w) && w.dev < |devs'| && devs'[w.dev].disk == devs[w.dev].disk
    requires forall c: nat :: (c in devs[w.dev].dirty ==> WriteSafe(devs'[w.dev], waiting', w, c))
    requires forall c: nat :: (!devs[w.dev].Covered(c) ==> WriteSafe(devs'[w.dev], waiting', w, c))
    requires forall c: nat :: ((w.dev, c * CHUNK_SECTORS) in waiting ==> WriteSafe(devs'[w.dev], waiting', w, c))
    ensures WriteOk(devs', waiting', w)
  {
    forall c: nat
      ensures WriteSafe(devs'[w.dev], waiting', w, c)
    {
      assert WriteSafe(devs[w.dev], waiting, w, c);
    }
  }

  // ---------------------------------------------------------------- steps keep the invariant

  lemma ReadIsChunk(d: Disk, sector: nat, nr: nat)
    requires |d| % SECTOR_SIZE == 0 && sector % CHUNK_SECTORS == 0
    requires nr > 0 && nr == Min(CHUNK_SECTORS, |d| / SECTOR_SIZE - sector)
    ensures ReadSectors(d, sector, nr) == Chunk(d, sector / CHUNK_SECTORS)
  {
  }

  /** The devices of `devs'` are those of `devs`, with no fewer dirty chunks. */
  ghost predicate MoreDirty(devs: seq<Dev>, devs': seq<Dev>) {
    && |devs'| == |devs|
    && forall j :: 0 <= j < |devs| ==> devs'[j] == devs[j].(dirty := devs'[j].dirty) && devs[j].dirty <= devs'[j].dirty
  }

  /** Steps that leave the contents, the cursors and what is pending alone leave every chunk alone. */
  lemma ChunksStay(s: State, t: State, dest0: Disks, dest: Disks)
    requires DevsOk(s.devs, dest0) && DevsOk(s.devs, dest) && ChunksOk(s, dest0, dest)
    requires MoreDirty(s.devs, t.devs) && PendingKeys(t) == PendingKeys(s)
    requires forall i :: 0 <= i < |s.devs| ==> BaseOk(s.devs[i], dest0[s.devs[i].name])
    ensures DevsOk(t.devs, dest0) && DevsOk(t.devs, dest) && ChunksOk(t, dest0, dest)
    ensures forall i :: 0 <= i < |t.devs| ==> BaseOk(t.devs[i], dest0[t.devs[i].name])
  {
    MoreDirtyDevs(s.devs, t.devs, dest0, dest);
    MoreDirtyDevs(s.devs, t.devs, dest0, dest0);
    hide DevsOk, BaseOk, Chunk;
    forall i: nat, c: nat | i < |t.devs| && c * CHUNK_BYTES < |t.devs[i].disk|
      ensures ChunkOk(t, dest0, dest, i, c)
    {
      assert ChunkOk(s, dest0, dest, i, c);
    }
  }

  lemma MoreDirtyDevs(devs: seq<Dev>, devs': seq<Dev>, dest0: Disks, dest: Disks)
    requires DevsOk(devs, dest) && DevsOk(devs, dest0) && MoreDirty(devs, devs')
    requires forall i :: 0 <= i < |devs| ==> BaseOk(devs[i], dest0[devs[i].name])
    ensures DevsOk(devs', dest)
    ensures forall i :: 0 <= i < |devs'| ==> devs'[i].name in dest0 && BaseOk(devs'[i], dest0[devs'[i].name])
  {
  }

  lemma SubmitKeepsWrites(s: State, e: Event)
    requires WritesOk(s) && Enabled(s, e) && e.GuestSubmit?
    ensures WritesOk(Step(s, e))
  {
    var t := Step(s, e);
    var w := GuestWrite(e.dev, e.sector, e.data);
    assert WaitingKeys(t) == WaitingKeys(s);
    forall v | v in t.writes
      ensures WriteOk(t.devs, WaitingKeys(t), v)
    {
      if v in s.writes {
        WriteStaysOk(s.devs, WaitingKeys(s), t.devs, WaitingKeys(t), v);
      } else {
        assert v == w;
        forall c: nat
          ensures WriteSafe(t.devs[w.dev], WaitingKeys(t), w, c)
        {
          if !w.Touches(w.dev, c) {
            UntouchedIsSame(w, t.devs[w.dev].disk, c);
          }
        }
      }
    }
  }

  lemma GuestSubmitKeeps(s: State, e: Event, dest0: Disks, dest: Disks)
    requires Inv(s, dest0, dest) && Enabled(s, e) && e.GuestSubmit?
    ensures Inv(Step(s, e), dest0, dest)
  {
    hide WritesOk, DevsOk, ChunksOk, BaseOk;
    SubmitKeepsWrites(s, e);
    var t := Step(s, e);
    MoreDirtyQueues(s, t);
    ChunksStay(s, t, dest0, dest);
  }

  lemma MoreDirtyQueues(s: State, t: State)
    requires QueuesOk(s) && MoreDirty(s.devs, t.devs)
    requires t.inFlight == s.inFlight && t.blkList == s.blkList && t.submitted == s.submitted
    requires t.readDone == s.readDone
    ensures QueuesOk(t) && PendingKeys(t) == PendingKeys(s)
  {
    assert forall b :: BlkOk(s.devs, b) ==> BlkOk(t.devs, b);
  }

  lemma SameKeepsRead(d: Disk, w: GuestWrite, sector: nat, nr: nat)
    requires |d| % SECTOR_SIZE == 0 && sector % CHUNK_SECTORS == 0
    requires nr > 0 && nr == Min(CHUNK_SECTORS, |d| / SECTOR_SIZE - sector)
    requires w.sector * SECTOR_SIZE + |w.data| <= |d| && w.Same(d, sector / CHUNK_SECTORS)
    ensures ReadSectors(Splice(d, w.sector * SECTOR_SIZE, w.data), sector, nr) == ReadSectors(d, sector, nr)
  {
    hide Splice;
    ReadIsChunk(d, sector, nr);
    ReadIsChunk(Splice(d, w.sector * SECTOR_SIZE, w.data), sector, nr);
    SameKeepsChunk(w, d, sector / CHUNK_SECTORS);
  }

  lemma PerformKeepsBlk(s: State, w: GuestWrite, b: Blk)
    requires (forall i :: 0 <= i < |s.devs| ==> DevOk(s.devs[i])) && QueuesOk(s)
    requires WriteOk(s.devs, WaitingKeys(s), w) && (b in s.inFlight || b in s.blkList) && BlkOk(s.devs, b)
    ensures BlkOk(s.devs[w.dev := PerformWrite(s.devs[w.dev], w)], b)
  {
    var d := s.devs[w.dev];
    var c := b.sector / CHUNK_SECTORS;
    if b.dev == w.dev && c !in d.dirty && !Waits(b) {
      NotWaiting(s, b);
      hide QueuesOk, ReadSectors, Splice;
      assert WriteSafe(d, WaitingKeys(s), w, c);
      SameKeepsRead(d.disk, w, b.sector, b.nr);
    }
  }

  /** A write that changes nothing in a chunk leaves what another one would change there. */
  lemma SameKeepsSame(v: GuestWrite, w: GuestWrite, d: Disk, c: nat)
    requires w.sector * SECTOR_SIZE + |w.data| <= |d| && w.Same(d, c) && v.Same(d, c)
    ensures v.Same(Splice(d, w.sector * SECTOR_SIZE, w.data), c)
  {
    var x := Splice(d, w.sector * SECTOR_SIZE, w.data);
    forall p: nat |
        c * CHUNK_BYTES <= p < (c + 1) * CHUNK_BYTES && p < |x| &&
        v.sector * SECTOR_SIZE <= p < v.sector * SECTOR_SIZE + |v.data|
      ensures v.data[p - v.sector * SECTOR_SIZE] == x[p]
    {
      assert x[p] == d[p];
    }
  }

  lemma PerformKeepsWrites(s: State, e: Event)
    requires WritesOk(s) && Enabled(s, e) && e.GuestPerform?
    ensures WritesOk(Step(s, e))
  {
    var t := Step(s, e);
    var w := s.writes[e.k];
    assert w in s.writes && WaitingKeys(t) == WaitingKeys(s);
    forall v | v in t.writes
      ensures WriteOk(t.devs, WaitingKeys(t), v)
    {
      assert v in s.writes;
      forall c: nat
        ensures WriteSafe(t.devs[v.dev], WaitingKeys(t), v, c)
      {
        assert WriteSafe(s.devs[v.dev], WaitingKeys(s), v, c);
        assert WriteSafe(s.devs[w.dev], WaitingKeys(s), w, c);
        if v.dev == w.dev && w.Same(s.devs[w.dev].disk, c) && v.Same(s.devs[w.dev].disk, c) {
          SameKeepsSame(v, w, s.devs[w.dev].disk, c);
        }
      }
    }
  }

  lemma PerformKeepsBase(d: Dev, w: GuestWrite, x0: Disk)
    requires BaseOk(d, x0) && |d.disk| % SECTOR_SIZE == 0
    requires w.sector * SECTOR_SIZE + |w.data| <= |d.disk| && |w.data| % SECTOR_SIZE == 0
    ensures BaseOk(PerformWrite(d, w), x0)
  {
    var d' := PerformWrite(d, w);
    if d.sharedBase {
      forall s: nat | s < d.Total() && s !in d'.alloc
        ensures Sector(d'.disk, s) == Sector(x0, s)
      {
        assert !(w.sector <= s < w.sector + |w.data| / SECTOR_SIZE);
        assert Sector(d'.disk, s) == Sector(d.disk, s);
      }
    }
  }

  lemma PerformKeepsChunk(s: State, w: GuestWrite, dest0: Disks, dest: Disks, c: nat)
    requires WriteOk(s.devs, WaitingKeys(s), w) && DevsOk(s.devs, dest0) && DevsOk(s.devs, dest)
    requires c * CHUNK_BYTES < |s.devs[w.dev].disk| && ChunkOk(s, dest0, dest, w.dev, c)
    ensures ChunkOk(s.(devs := s.devs[w.dev := PerformWrite(s.devs[w.dev], w)]), dest0, dest, w.dev, c)
  {
    var d := s.devs[w.dev];
    if c !in d.dirty && d.Covered(c) && !Pending(s, w.dev, c) {
      WaitingArePending(s);
      assert WriteSafe(d, WaitingKeys(s), w, c);
      SameKeepsChunk(w, d.disk, c);
    }
  }

  lemma PerformKeepsChunks(s: State, w: GuestWrite, dest0: Disks, dest: Disks)
    requires WriteOk(s.devs, WaitingKeys(s), w) && DevsOk(s.devs, dest0) && DevsOk(s.devs, dest)
    requires ChunksOk(s, dest0, dest)
    ensures var t := s.(devs := s.devs[w.dev := PerformWrite(s.devs[w.dev], w)]);
            DevsOk(t.devs, dest0) && DevsOk(t.devs, dest) && ChunksOk(t, dest0, dest)
  {
    hide WriteSafe, Chunk;
    var t := s.(devs := s.devs[w.dev := PerformWrite(s.devs[w.dev], w)]);
    forall i: nat, c: nat | i < |t.devs| && c * CHUNK_BYTES < |t.devs[i].disk|
      ensures ChunkOk(t, dest0, dest, i, c)
    {
      assert ChunkOk(s, dest0, dest, i, c);
      if i == w.dev {
        PerformKeepsChunk(s, w, dest0, dest, c);
      }
    }
  }

  lemma PerformKeepsQueues(s: State, w: GuestWrite)
    requires (forall i :: 0 <= i < |s.devs| ==> DevOk(s.devs[i])) && QueuesOk(s) && WriteOk(s.devs, WaitingKeys(s), w)
    ensures QueuesOk(s.(devs := s.devs[w.dev := PerformWrite(s.devs[w.dev], w)]))
  {
    hide BlkOk;
    forall b | b in s.inFlight || b in s.blkList
      ensures BlkOk(s.devs[w.dev := PerformWrite(s.devs[w.dev], w)], b)
    {
      PerformKeepsBlk(s, w, b);
    }
  }

  lemma GuestPerformKeeps(s: State, e: Event, dest0: Disks, dest: Disks)
    requires Inv(s, dest0, dest) && Enabled(s, e) && e.GuestPerform?
    ensures Inv(Step(s, e), dest0, dest)
  {
    var t := Step(s, e);
    var w := s.writes[e.k];
    var u := s.(devs := s.devs[w.dev := PerformWrite(s.devs[w.dev], w)]);
    assert w in s.writes && u.writes == s.writes && t == u.(writes := t.writes);
    InvParts(s, dest0, dest, w);
    PerformKeepsWrites(s, e);
    PerformKeepsQueues(s, w);
    PerformKeepsChunks(s, w, dest0, dest);
    hide QueuesOk, DevsOk, ChunkOk, WritesOk, WriteOk, PerformWrite, BaseOk;
    PerformKeepsBases(s, w, dest0);
    OtherWrites(u, t, dest0, dest);
  }

  lemma InvParts(s: State, dest0: Disks, dest: Disks, w: GuestWrite)
    requires Inv(s, dest0, dest) && w in s.writes
    ensures WriteOk(s.devs, WaitingKeys(s), w)
    ensures forall i :: 0 <= i < |s.devs| ==> DevOk(s.devs[i]) && s.devs[i].name in dest0
    ensures forall i :: 0 <= i < |s.devs| ==> BaseOk(s.devs[i], dest0[s.devs[i].name])
  {
  }

  lemma PerformKeepsBases(s: State, w: GuestWrite, dest0: Disks)
    requires WriteOk(s.devs, WaitingKeys(s), w)
    requires forall i :: 0 <= i < |s.devs| ==> DevOk(s.devs[i]) && s.devs[i].name in dest0
    requires forall i :: 0 <= i < |s.devs| ==> BaseOk(s.devs[i], dest0[s.devs[i].name])
    ensures var devs := s.devs[w.dev := PerformWrite(s.devs[w.dev], w)];
            forall i :: 0 <= i < |devs| ==> devs[i].name in dest0 && BaseOk(devs[i], dest0[devs[i].name])
  {
    assert BaseOk(s.devs[w.dev], dest0[s.devs[w.dev].name]);
    PerformKeepsBase(s.devs[w.dev], w, dest0[s.devs[w.dev].name]);
  }

  /** Which writes are outstanding does not matter to queues and chunks. */
  lemma OtherWrites(s: State, t: State, dest0: Disks, dest: Disks)
    requires QueuesOk(s) && DevsOk(s.devs, dest0) && DevsOk(s.devs, dest) && ChunksOk(s, dest0, dest)
    requires t == s.(writes := t.writes) && WritesOk(t)
    requires forall i :: 0 <= i < |s.devs| ==> BaseOk(s.devs[i], dest0[s.devs[i].name])
    ensures Inv(t, dest0, dest)
  {
    hide WritesOk, DevsOk, ChunksOk, BaseOk, QueuesOk;
    MoreDirtyQueues(s, t);
    ChunksStay(s, t, dest0, dest);
  }

  lemma ReadPerformWaits(s: State, e: Event)
    requires QueuesOk(s) && Enabled(s, e) && e.ReadPerform?
    ensures var b := s.inFlight[e.k]; WaitingKeys(s) <= WaitingKeys(Step(s, e)) + {(b.dev, b.sector)}
  {
    var t := Step(s, e);
    forall a | a in s.inFlight && a != s.inFlight[e.k]
      ensures a in t.inFlight
    {
      var j :| 0 <= j < |s.inFlight| && s.inFlight[j] == a;
      assert t.inFlight[j] == a;
    }
  }

  lemma ReadPerformKeepsWrites(s: State, e: Event)
    requires QueuesOk(s) && WritesOk(s) && Enabled(s, e) && e.ReadPerform? && NoRace(s, e)
    ensures WritesOk(Step(s, e))
  {
    var t := Step(s, e);
    var b := s.inFlight[e.k];
    assert b in s.inFlight && BlkOk(s.devs, b);
    ReadPerformWaits(s, e);
    forall w | w in t.writes
      ensures WriteOk(t.devs, WaitingKeys(t), w)
    {
      var c0 := b.sector / CHUNK_SECTORS;
      assert w.dev == b.dev && c0 !in s.devs[b.dev].dirty ==> Takes(s, e, b.dev, c0) && w.Same(s.devs[b.dev].disk, c0);
      WriteStaysOk(s.devs, WaitingKeys(s), t.devs, WaitingKeys(t), w);
    }
  }

  lemma ReadPerformKeeps(s: State, e: Event, dest0: Disks, dest: Disks)
    requires Inv(s, dest0, dest) && Enabled(s, e) && e.ReadPerform? && NoRace(s, e)
    ensures Inv(Step(s, e), dest0, dest)
  {
    ReadPerformKeepsWrites(s, e);
    hide WritesOk, DevsOk, ChunksOk, BaseOk;
    var t := Step(s, e);
    var b := s.inFlight[e.k];
    assert b in s.inFlight;
    KeysUpdate(s.inFlight, e.k, t.inFlight[e.k]);
    assert forall a :: a in t.inFlight ==> a in s.inFlight || a == t.inFlight[e.k];
    assert t.inFlight[e.k].data.value[..b.nr * SECTOR_SIZE] == ReadSectors(s.devs[b.dev].disk, b.sector, b.nr);
    ChunksStay(s, t, dest0, dest);
  }

  /** Where nothing that waited is forgotten, writes stay safe. */
  lemma MoreWaits(s: State, t: State)
    requires WritesOk(s) && t.devs == s.devs && t.writes == s.writes && WaitingKeys(s) <= WaitingKeys(t)
    ensures WritesOk(t)
  {
    forall w | w in t.writes
      ensures WriteOk(t.devs, WaitingKeys(t), w)
    {
      WriteStaysOk(s.devs, WaitingKeys(s), t.devs, WaitingKeys(t), w);
    }
  }

  lemma ReadCompleteWaits(s: State, e: Event)
    requires Enabled(s, e) && e.ReadComplete?
    requires forall b :: b in s.inFlight ==> b.ret == 0
    ensures WaitingKeys(s) <= WaitingKeys(Step(s, e))
  {
    var t := Step(s, e);
    var b := s.inFlight[e.k];
    assert b in s.inFlight && b.(ret := e.ret) in t.blkList;
    forall a | a in s.inFlight && a != b
      ensures a in t.inFlight
    {
      var j :| 0 <= j < |s.inFlight| && s.inFlight[j] == a;
      assert t.inFlight[if j < e.k then j else j - 1] == a;
    }
  }

  lemma ReadCompleteKeeps(s: State, e: Event, dest0: Disks, dest: Disks)
    requires Inv(s, dest0, dest) && Enabled(s, e) && e.ReadComplete?
    ensures Inv(Step(s, e), dest0, dest)
  {
    hide WritesOk, DevsOk, ChunksOk, BaseOk;
    var t := Step(s, e);
    ReadCompleteWaits(s, e);
    MoreWaits(s, t);
    ReadCompleteQueues(s, e);
    ChunksStay(s, t, dest0, dest);
  }

  lemma ReadCompleteQueues(s: State, e: Event)
    requires QueuesOk(s) && Enabled(s, e) && e.ReadComplete?
    ensures QueuesOk(Step(s, e)) && PendingKeys(Step(s, e)) == PendingKeys(s)
  {
    var t := Step(s, e);
    var b := s.inFlight[e.k];
    var b' := b.(ret := e.ret);
    assert b in s.inFlight && (b.dev, b.sector) in Keys(s.inFlight);
    KeysRemove(s.inFlight, e.k);
    KeysAppend(s.blkList, b');
    assert forall a :: a in t.blkList ==> a in s.blkList || a == b';
    assert PendingKeys(t) == PendingKeys(s);
  }

  /** Loading a whole-chunk block changes that chunk and no other, and only when the chunk is full. */
  lemma LoadBlockChunk(dest: Disks, devs: seq<Dev>, j: nat, base: nat, data: seq<Byte>)
    requires DevsOk(devs, dest) && j < |devs| && |data| == CHUNK_BYTES && base % CHUNK_SECTORS == 0
    ensures var dest' := LoadFrame(dest, Block(devs[j].name, base, data));
            && DevsOk(devs, dest')
            && forall i: nat, c: nat :: i < |devs| && c * CHUNK_BYTES < |devs[i].disk| ==>
                 Chunk(dest'[devs[i].name], c) ==
                   if i == j && c == base / CHUNK_SECTORS && devs[i].Full(c) then data else Chunk(dest[devs[i].name], c)
  {
    var f := Block(devs[j].name, base, data);
    var dest' := LoadFrame(dest, f);
    var x := dest[devs[j].name];
    forall i: nat, c: nat | i < |devs| && c * CHUNK_BYTES < |devs[i].disk|
      ensures Chunk(dest'[devs[i].name], c) ==
              if i == j && c == base / CHUNK_SECTORS && devs[i].Full(c) then data else Chunk(dest[devs[i].name], c)
    {
      if i == j && base * SECTOR_SIZE + CHUNK_BYTES <= |x| {
        if c == base / CHUNK_SECTORS {
          ChunkOfSplice(x, c, data);
        } else {
          ChunkOutsideSplice(x, base * SECTOR_SIZE, data, c);
        }
      } else if i != j {
        assert devs[i].name != devs[j].name;
      }
    }
  }

  lemma FlushKeepsQueues(s: State, e: Event)
    requires QueuesOk(s) && Enabled(s, e) && e.FlushOne?
    ensures QueuesOk(Step(s, e))
    ensures PendingKeys(Step(s, e)) == PendingKeys(s) - {(s.blkList[0].dev, s.blkList[0].sector)}
  {
    var b := s.blkList[0];
    assert b in s.blkList && (b.dev, b.sector) in Keys(s.blkList);
    assert s.blkList[1..] == RemoveAt(s.blkList, 0);
    KeysRemove(s.blkList, 0);
  }

  lemma FlushKeepsChunk(s: State, dest0: Disks, dest: Disks, t: State, dest': Disks, i: nat, c: nat)
    requires Inv(s, dest0, dest) && s.blkList != []
    requires i < |s.devs| && c * CHUNK_BYTES < |s.devs[i].disk|
    requires t.devs == s.devs && DevsOk(s.devs, dest')
    requires var b := s.blkList[0];
             && b.ret >= 0 && b.data.Some?
             && PendingKeys(t) == PendingKeys(s) - {(b.dev, b.sector)}
             && Chunk(dest'[s.devs[i].name], c) ==
                  if i == b.dev && c == b.sector / CHUNK_SECTORS && s.devs[i].Full(c) then b.data.value
                  else Chunk(dest[s.devs[i].name], c)
    ensures ChunkOk(t, dest0, dest', i, c)
  {
    hide Chunk, WritesOk, BaseOk, PendingKeys;
    assert ChunkOk(s, dest0, dest, i, c);
    var b := s.blkList[0];
    assert b in s.blkList && BlkOk(s.devs, b);
    if i == b.dev && c == b.sector / CHUNK_SECTORS && s.devs[i].Full(c) {
      ReadIsChunk(s.devs[i].disk, b.sector, b.nr);
      assert b.data.value[..b.nr * SECTOR_SIZE] == b.data.value;
    }
  }

  lemma FlushOneKeeps(s: State, e: Event, dest0: Disks, dest: Disks)
    requires Inv(s, dest0, dest) && Enabled(s, e) && e.FlushOne?
    ensures Inv(Step(s, e), dest0, LoadFrame(dest, Step(s, e).wire[|s.wire|]))
  {
    var t := Step(s, e);
    var b := s.blkList[0];
    assert b in s.blkList && BlkOk(s.devs, b);
    var dest' := LoadFrame(dest, t.wire[|s.wire|]);
    MoreWaits(s, t);
    hide WritesOk;
    FlushKeepsQueues(s, e);
    LoadBlockChunk(dest, s.devs, b.dev, b.sector, b.data.value);
    forall i: nat, c: nat | i < |t.devs| && c * CHUNK_BYTES < |t.devs[i].disk|
      ensures ChunkOk(t, dest0, dest', i, c)
    {
      FlushKeepsChunk(s, dest0, dest, t, dest', i, c);
    }
  }

  /** A chunk of which no sector is allocated in the source reads the same on both sides. */
  lemma UnallocatedChunk(d: Dev, x0: Disk, c: nat)
    requires DevOk(d) && d.sharedBase && BaseOk(d, x0) && c * CHUNK_BYTES < |d.disk|
    requires forall s: nat :: c * CHUNK_SECTORS <= s < (c + 1) * CHUNK_SECTORS && s < d.Total() ==> s !in d.alloc
    ensures Chunk(d.disk, c) == Chunk(x0, c)
  {
    SectorsDetermineChunk(d.disk, x0, c);
  }

  /** A chunk that the search for allocated sectors passed over is the same on both sides. */
  lemma SkippedChunk(d: Dev, x0: Disk, c: nat)
    requires DevOk(d) && BaseOk(d, x0) && c * CHUNK_BYTES < |d.disk|
    requires d.curSector <= c * CHUNK_SECTORS && !d.bulkCompleted
    requires (c + 1) * CHUNK_SECTORS <= SearchEnd(d) || SearchEnd(d) == d.Total()
    ensures Chunk(d.disk, c) == Chunk(x0, c)
  {
    UnallocatedChunk(d, x0, c);
  }

  /** A bulk call finds something to read on device `i`. */
  ghost predicate SubmitsAt(s: State, i: nat) {
    i == FirstIncomplete(s.devs) && i < |s.devs| && SearchEnd(s.devs[i]) < s.devs[i].Total()
  }

  /** A bulk call leaves pending blocks as they should be, and none is of the chunk it reads. */
  lemma BulkKeepsBlk(devs: seq<Dev>, i: nat, b: Blk)
    requires BlkOk(devs, b) && i < |devs| && DevOk(devs[i]) && !devs[i].bulkCompleted
    requires SearchEnd(devs[i]) < devs[i].Total()
    ensures BlkOk(devs[i := BulkDev(devs[i], true)], b) && (b.dev, b.sector) != (i, BulkBase(devs[i]))
  {
    if b.dev == i {
      var d := devs[i];
      assert d.curSector <= SearchEnd(d);
      BulkCovers(d, b.sector / CHUNK_SECTORS);
    }
  }

  lemma BulkKeepsQueues(s: State, dest0: Disks, dest: Disks, isAsync: bool, junk: seq<Byte>)
    requires Inv(s, dest0, dest) && SubmitsAt(s, FirstIncomplete(s.devs))
    ensures var i := FirstIncomplete(s.devs); var t := BulkDevice(s, i, isAsync, true, junk);
            QueuesOk(t) &&
            PendingKeys(t) == if isAsync then PendingKeys(s) + {(i, BulkBase(s.devs[i]))} else PendingKeys(s)
    ensures (FirstIncomplete(s.devs), BulkBase(s.devs[FirstIncomplete(s.devs)])) !in PendingKeys(s)
  {
    var i := FirstIncomplete(s.devs);
    var d := s.devs[i];
    var t := BulkDevice(s, i, isAsync, true, junk);
    InvDevOk(s, dest0, dest);
    hide BlkOk, DevOk, DevsOk, ChunksOk, WritesOk, BaseOk, BulkDev;
    forall b | BlkOk(s.devs, b)
      ensures BlkOk(t.devs, b) && (b.dev, b.sector) != (i, BulkBase(d))
    {
      BulkKeepsBlk(s.devs, i, b);
    }
    if isAsync {
      var blk := Blk(i, BulkBase(d), BulkCount(d), None, 0);
      NewBlkOk(s.devs, i);
      KeysAppend(s.inFlight, blk);
      assert forall b :: b in t.inFlight ==> b in s.inFlight || b == blk;
    }
  }

  lemma NewBlkOk(devs: seq<Dev>, i: nat)
    requires i < |devs| && DevOk(devs[i]) && SearchEnd(devs[i]) < devs[i].Total()
    ensures BlkOk(devs[i := BulkDev(devs[i], true)], Blk(i, BulkBase(devs[i]), BulkCount(devs[i]), None, 0))
  {
  }

  /** What a bulk call covers it has read or skipped. */
  lemma BulkSettles(d: Dev, ok: bool, c: nat)
    requires DevOk(d) && !d.bulkCompleted && !d.Covered(c) && BulkDev(d, ok).Covered(c) && c * CHUNK_BYTES < |d.disk|
    ensures Reads(d, ok, c) || Skips(d, ok, c)
  {
    assert d.curSector <= SearchEnd(d);
  }

  lemma BeyondIsSame(w: GuestWrite, d: Disk, c: nat)
    requires c * CHUNK_BYTES >= |d|
    ensures w.Same(d, c)
  {
  }

  /** An asynchronous read waits from now on; what a synchronous one reads and what is skipped must have
      nothing outstanding. */
  lemma BulkKeepsWrites(s: State, isAsync: bool, junk: seq<Byte>)
    requires WritesOk(s) && NoRace(s, BulkStep(isAsync, true, junk)) && SubmitsAt(s, FirstIncomplete(s.devs))
    requires DevOk(s.devs[FirstIncomplete(s.devs)])
    ensures WritesOk(BulkDevice(s, FirstIncomplete(s.devs), isAsync, true, junk))
  {
    var i := FirstIncomplete(s.devs);
    var t := BulkDevice(s, i, isAsync, true, junk);
    var c0 := BulkBase(s.devs[i]) / CHUNK_SECTORS;
    if isAsync {
      assert t.inFlight[|s.inFlight|] in t.inFlight && (i, c0 * CHUNK_SECTORS) in WaitingKeys(t);
    }
    assert WaitingKeys(s) <= WaitingKeys(t);
    BulkKeepsSafe(s, BulkStep(isAsync, true, junk), t);
  }

  /** A bulk call, of which the devices and what waits are known, keeps writes safe. */
  lemma BulkKeepsSafe(s: State, e: Event, t: State)
    requires e.BulkStep? && WritesOk(s) && NoRace(s, e) && t.writes == s.writes && WaitingKeys(s) <= WaitingKeys(t)
    requires var i := FirstIncomplete(s.devs);
             && i < |s.devs| && DevOk(s.devs[i]) && t.devs == s.devs[i := BulkDev(s.devs[i], e.ok)]
             && (e.isAsync && e.ok && SearchEnd(s.devs[i]) < s.devs[i].Total() ==>
                  (i, BulkBase(s.devs[i])) in WaitingKeys(t))
    ensures WritesOk(t)
  {
    var i := FirstIncomplete(s.devs);
    var d := s.devs[i];
    forall w | w in t.writes
      ensures WriteOk(t.devs, WaitingKeys(t), w)
    {
      forall c: nat
        ensures WriteSafe(t.devs[w.dev], WaitingKeys(t), w, c)
      {
        assert WriteSafe(s.devs[w.dev], WaitingKeys(s), w, c);
        if w.dev == i {
          BulkKeepsSafeChunk(s, e, WaitingKeys(t), w, c);
        }
      }
    }
  }

  lemma BulkKeepsSafeChunk(s: State, e: Event, waiting: set<Key>, w: GuestWrite, c: nat)
    requires e.BulkStep? && NoRace(s, e) && w in s.writes && w.dev == FirstIncomplete(s.devs) < |s.devs|
    requires var d := s.devs[w.dev];
             && DevOk(d) && (e.isAsync && e.ok && SearchEnd(d) < d.Total() ==> (w.dev, BulkBase(d)) in waiting)
             && WriteSafe(d, waiting, w, c)
    ensures WriteSafe(BulkDev(s.devs[w.dev], e.ok), waiting, w, c)
  {
    var d := s.devs[w.dev];
    if c * CHUNK_BYTES >= |d.disk| {
      BeyondIsSame(w, d.disk, c);
    } else if Reads(d, e.ok, c) {
      assert !e.isAsync ==> Takes(s, e, w.dev, c);
    } else if !d.Covered(c) && BulkDev(d, e.ok).Covered(c) {
      BulkSettles(d, e.ok, c);
      assert c !in d.dirty ==> Takes(s, e, w.dev, c);
    }
  }

  /** Chunk `c` of device `j` over a bulk call that reads chunk `c0` of device `i`. */
  lemma BulkKeepsChunk(s: State, t: State, dest0: Disks, dest: Disks, dest': Disks, i: nat, isAsync: bool,
                       data: seq<Byte>, j: nat, c: nat)
    requires DevsOk(s.devs, dest0) && DevsOk(s.devs, dest) && DevsOk(s.devs, dest')
    requires DevsOk(t.devs, dest0) && DevsOk(t.devs, dest')
    requires i < |s.devs| == |t.devs| && !s.devs[i].bulkCompleted && BaseOk(s.devs[i], dest0[s.devs[i].name])
    requires j < |s.devs| && c * CHUNK_BYTES < |s.devs[j].disk| && ChunkOk(s, dest0, dest, j, c)
    requires SearchEnd(s.devs[i]) < s.devs[i].Total() && (!isAsync ==> |data| == CHUNK_BYTES)
    requires var d, d' := s.devs[i], t.devs[i];
             && t.devs == s.devs[i := d'] && d'.name == d.name && d'.disk == d.disk
             && d'.curSector == BulkBase(d) + BulkCount(d) && d'.dirty == d.dirty - {BulkBase(d) / CHUNK_SECTORS}
             && (!isAsync ==> data[..BulkCount(d) * SECTOR_SIZE] == ReadSectors(d.disk, BulkBase(d), BulkCount(d)))
    requires PendingKeys(t) == if isAsync then PendingKeys(s) + {(i, BulkBase(s.devs[i]))} else PendingKeys(s)
    requires (i, BulkBase(s.devs[i])) !in PendingKeys(s)
    requires Chunk(dest'[s.devs[j].name], c) ==
               if !isAsync && j == i && c == BulkBase(s.devs[i]) / CHUNK_SECTORS && s.devs[j].Full(c) then data
               else Chunk(dest[s.devs[j].name], c)
    ensures ChunkOk(t, dest0, dest', j, c)
  {
    var d := s.devs[i];
    var c0 := BulkBase(d) / CHUNK_SECTORS;
    if j == i {
      assert DevOk(d);
      hide DevsOk, PendingKeys, BaseOk;
      BulkCovers(d, c);
      if c == c0 {
        ReadIsChunk(d.disk, BulkBase(d), BulkCount(d));
        assert !isAsync && d.Full(c) ==> data[..CHUNK_BYTES] == data;
      } else if c < c0 && !d.Covered(c) {
        SkippedChunk(d, dest0[d.name], c);
      }
    }
  }

  /** A bulk call covers the chunk it reads and those it skipped. */
  lemma BulkCovers(d: Dev, c: nat)
    requires DevOk(d) && SearchEnd(d) < d.Total()
    ensures var d', c0 := d.(curSector := BulkBase(d) + BulkCount(d)), BulkBase(d) / CHUNK_SECTORS;
            && c0 * CHUNK_SECTORS == BulkBase(d)
            && (d'.Covered(c) <==> c <= c0)
            && (!d.bulkCompleted ==> !d.Covered(c0))
            && (!d.Covered(c) ==> d.curSector <= c * CHUNK_SECTORS)
            && (c < c0 ==> (c + 1) * CHUNK_SECTORS <= SearchEnd(d))
  {
    assert d.curSector <= SearchEnd(d);
  }

  lemma BulkKeepsDevs(s: State, dest0: Disks, dest: Disks, i: nat, isAsync: bool, junk: seq<Byte>)
    requires Inv(s, dest0, dest) && SubmitsAt(s, i)
    ensures var t := BulkDevice(s, i, isAsync, true, junk);
            && DevsOk(t.devs, dest0) && DevsOk(t.devs, dest)
            && forall j :: 0 <= j < |t.devs| ==> BaseOk(t.devs[j], dest0[t.devs[j].name])
  {
    var t := BulkDevice(s, i, isAsync, true, junk);
    DevChangeKeepsDevs(s.devs, t.devs, i, dest0, dest0);
    DevChangeKeepsDevs(s.devs, t.devs, i, dest0, dest);
  }

  lemma BulkDevShape(d: Dev)
    requires SearchEnd(d) < d.Total()
    ensures var d' := BulkDev(d, true);
            && d'.name == d.name && d'.disk == d.disk && d'.curSector == BulkBase(d) + BulkCount(d)
            && d'.dirty == d.dirty - {BulkBase(d) / CHUNK_SECTORS}
  {
  }

  /** A submitted bulk read leaves the wire alone; a synchronous one sends a block. */
  lemma BulkSubmitKeeps(s: State, dest0: Disks, dest: Disks, i: nat, isAsync: bool, junk: seq<Byte>)
    requires Inv(s, dest0, dest) && NoRace(s, BulkStep(isAsync, true, junk)) && SubmitsAt(s, i)
    requires !isAsync ==> |junk| == CHUNK_BYTES - BulkCount(s.devs[i]) * SECTOR_SIZE
    requires TotalSum(s.devs, |s.devs|) > 0
    ensures var t := BulkDevice(s, i, isAsync, true, junk);
            var f := Block(s.devs[i].name, BulkBase(s.devs[i]),
                ReadSectors(s.devs[i].disk, BulkBase(s.devs[i]), BulkCount(s.devs[i])) + junk);
            && t.wire == (if isAsync then s.wire else s.wire + [f])
            && Inv(t, dest0, if isAsync then dest else LoadFrame(dest, f))
  {
    var d := s.devs[i];
    var t := BulkDevice(s, i, isAsync, true, junk);
    var data := ReadSectors(d.disk, BulkBase(d), BulkCount(d)) + junk;
    var dest' := if isAsync then dest else LoadFrame(dest, Block(d.name, BulkBase(d), data));
    hide WritesOk, QueuesOk, DevsOk, BaseOk, BulkDev;
    BulkDevShape(d);
    BulkKeepsWrites(s, isAsync, junk);
    BulkKeepsQueues(s, dest0, dest, isAsync, junk);
    if !isAsync {
      LoadBlockChunk(dest, s.devs, i, BulkBase(d), data);
    }
    BulkKeepsDevs(s, dest0, dest, i, isAsync, junk);
    assert DevsOk(t.devs, dest');
    forall j: nat, c: nat | j < |t.devs| && c * CHUNK_BYTES < |t.devs[j].disk|
      ensures ChunkOk(t, dest0, dest', j, c)
    {
      assert ChunkOk(s, dest0, dest, j, c);
      BulkKeepsChunk(s, t, dest0, dest, dest', i, isAsync, data, j, c);
    }
  }

  /** Moving one device's cursor keeps what the invariant says about the device list. */
  lemma DevChangeKeepsDevs(devs: seq<Dev>, devs': seq<Dev>, i: nat, dest0: Disks, dest: Disks)
    requires DevsOk(devs, dest0) && DevsOk(devs, dest) && i < |devs| == |devs'|
    requires devs' == devs[i := devs'[i]] && DevOk(devs'[i])
    requires devs'[i].name == devs[i].name && devs'[i].disk == devs[i].disk
    requires devs'[i].alloc == devs[i].alloc && devs'[i].sharedBase == devs[i].sharedBase
    requires forall j :: 0 <= j < |devs| ==> BaseOk(devs[j], dest0[devs[j].name])
    ensures DevsOk(devs', dest)
    ensures forall j :: 0 <= j < |devs'| ==> BaseOk(devs'[j], dest0[devs'[j].name])
  {
    forall j | 0 <= j < |devs'|
      ensures devs'[j].name == devs[j].name && DevOk(devs'[j]) && BaseOk(devs'[j], dest0[devs'[j].name])
    {
      assert BaseOk(devs[j], dest0[devs[j].name]);
    }
  }

  lemma BulkNoReadQueues(s: State, isAsync: bool, ok: bool, junk: seq<Byte>)
    requires QueuesOk(s) && FirstIncomplete(s.devs) < |s.devs|
    requires var d := s.devs[FirstIncomplete(s.devs)]; SearchEnd(d) >= d.Total() || !ok
    ensures QueuesOk(BulkState(s, isAsync, ok, junk))
  {
    var t := BulkState(s, isAsync, ok, junk);
    assert forall b :: BlkOk(s.devs, b) ==> BlkOk(t.devs, b);
  }

  lemma BulkNoReadWrites(s: State, isAsync: bool, ok: bool, junk: seq<Byte>)
    requires WritesOk(s) && NoRace(s, BulkStep(isAsync, ok, junk)) && FirstIncomplete(s.devs) < |s.devs|
    requires DevOk(s.devs[FirstIncomplete(s.devs)])
    requires var d := s.devs[FirstIncomplete(s.devs)]; SearchEnd(d) >= d.Total() || !ok
    ensures WritesOk(BulkState(s, isAsync, ok, junk))
  {
    var t := BulkState(s, isAsync, ok, junk);
    assert WaitingKeys(t) == WaitingKeys(s);
    BulkKeepsSafe(s, BulkStep(isAsync, ok, junk), t);
  }

  lemma BulkNoReadChunk(s: State, dest0: Disks, dest: Disks, isAsync: bool, ok: bool, junk: seq<Byte>, j: nat, c: nat)
    requires Inv(s, dest0, dest) && FirstIncomplete(s.devs) < |s.devs|
    requires var d := s.devs[FirstIncomplete(s.devs)]; SearchEnd(d) >= d.Total() || !ok
    requires var t := BulkState(s, isAsync, ok, junk);
             j < |t.devs| && c * CHUNK_BYTES < |t.devs[j].disk| && DevsOk(t.devs, dest0) && DevsOk(t.devs, dest)
    ensures ChunkOk(BulkState(s, isAsync, ok, junk), dest0, dest, j, c)
  {
    var i := FirstIncomplete(s.devs);
    var d := s.devs[i];
    assert ChunkOk(s, dest0, dest, j, c);
    if j == i && !d.Covered(c) && SearchEnd(d) >= d.Total() {
      assert BaseOk(d, dest0[d.name]);
      SkippedChunk(d, dest0[d.name], c);
    }
  }

  /** A bulk call that finds nothing more to read, or fails to. */
  lemma BulkNoReadKeeps(s: State, dest0: Disks, dest: Disks, isAsync: bool, ok: bool, junk: seq<Byte>)
    requires Inv(s, dest0, dest) && NoRace(s, BulkStep(isAsync, ok, junk)) && FirstIncomplete(s.devs) < |s.devs|
    requires var d := s.devs[FirstIncomplete(s.devs)]; SearchEnd(d) >= d.Total() || !ok
    ensures Inv(BulkState(s, isAsync, ok, junk), dest0, dest) && BulkState(s, isAsync, ok, junk).wire == s.wire
  {
    var i := FirstIncomplete(s.devs);
    var t := BulkState(s, isAsync, ok, junk);
    DevChangeKeepsDevs(s.devs, t.devs, i, dest0, dest0);
    DevChangeKeepsDevs(s.devs, t.devs, i, dest0, dest);
    BulkNoReadQueues(s, isAsync, ok, junk);
    BulkNoReadWrites(s, isAsync, ok, junk);
    hide WritesOk;
    forall j: nat, c: nat | j < |t.devs| && c * CHUNK_BYTES < |t.devs[j].disk|
      ensures ChunkOk(t, dest0, dest, j, c)
    {
      BulkNoReadChunk(s, dest0, dest, isAsync, ok, junk, j, c);
    }
  }

  lemma InvIgnoresReport(s: State, t: State, dest0: Disks, dest: Disks)
    requires Inv(s, dest0, dest)
    requires t == s.(wire := t.wire, prevProgress := t.prevProgress, error := t.error)
    ensures Inv(t, dest0, dest)
  {
    hide WritesOk, DevsOk, ChunksOk, BaseOk;
    MoreDirtyQueues(s, t);
    MoreWaits(s, t);
    ChunksStay(s, t, dest0, dest);
  }

  lemma BulkStateKeeps(s: State, dest0: Disks, isAsync: bool, ok: bool, junk: seq<Byte>)
    requires Inv(s, dest0, Load(dest0, s.wire))
    requires Enabled(s, BulkStep(isAsync, ok, junk)) && NoRace(s, BulkStep(isAsync, ok, junk))
    ensures Inv(BulkState(s, isAsync, ok, junk), dest0, Load(dest0, BulkState(s, isAsync, ok, junk).wire))
  {
    var dest := Load(dest0, s.wire);
    var i := FirstIncomplete(s.devs);
    if i < |s.devs| {
      var d := s.devs[i];
      if SearchEnd(d) >= d.Total() || !ok {
        BulkNoReadKeeps(s, dest0, dest, isAsync, ok, junk);
      } else {
        BulkSubmitKeeps(s, dest0, dest, i, isAsync, junk);
        LoadAppend(dest0, s.wire, Block(d.name, BulkBase(d), ReadSectors(d.disk, BulkBase(d), BulkCount(d)) + junk));
      }
    }
  }

  lemma ReportKeeps(m: State, i: nat, dest0: Disks)
    requires Inv(m, dest0, Load(dest0, m.wire)) && i <= |m.devs| && TotalSum(m.devs, |m.devs|) > 0
    ensures Inv(Report(m, i), dest0, Load(dest0, Report(m, i).wire))
  {
    var f := Progress(Percent(m, i));
    LoadAppend(dest0, m.wire, f);
    InvIgnoresReport(m, Report(m, i), dest0, Load(dest0, m.wire));
  }

  lemma BulkStepKeeps(s: State, e: Event, dest0: Disks)
    requires Inv(s, dest0, Load(dest0, s.wire)) && Enabled(s, e) && NoRace(s, e) && e.BulkStep?
    ensures Inv(Step(s, e), dest0, Load(dest0, Step(s, e).wire))
  {
    hide Inv, BulkState, Report, Load;
    BulkStateKeeps(s, dest0, e.isAsync, e.ok, e.junk);
    var m := BulkState(s, e.isAsync, e.ok, e.junk);
    TotalSumSame(s.devs, m.devs, |s.devs|);
    ReportKeeps(m, FirstIncomplete(s.devs), dest0);
  }

  /** Every step keeps the invariant. */
  lemma StepKeepsInv(s: State, e: Event, dest0: Disks)
    requires Inv(s, dest0, Load(dest0, s.wire)) && Enabled(s, e) && NoRace(s, e)
    ensures Inv(Step(s, e), dest0, Load(dest0, Step(s, e).wire))
  {
    var dest := Load(dest0, s.wire);
    match e
    case GuestSubmit(_, _, _) => GuestSubmitKeeps(s, e, dest0, dest);
    case GuestPerform(_) => GuestPerformKeeps(s, e, dest0, dest);
    case BulkStep(_, _, _) => BulkStepKeeps(s, e, dest0);
    case ReadPerform(_, _) => ReadPerformKeeps(s, e, dest0, dest);
    case ReadComplete(_, _) => ReadCompleteKeeps(s, e, dest0, dest);
    case FlushOne =>
      FlushOneKeeps(s, e, dest0, dest);
      LoadAppend(dest0, s.wire, Step(s, e).wire[|s.wire|]);
    case FlushError => InvIgnoresReport(s, Step(s, e), dest0, dest);
    case PutEos =>
      LoadAppend(dest0, s.wire, Eos);
      InvIgnoresReport(s, Step(s, e), dest0, dest);
  }

  /** Every run in which no step settles a chunk that an outstanding guest write has yet to change keeps the
      invariant. */
  lemma {:induction false} RunKeepsInv(s: State, es: seq<Event>, dest0: Disks)
    requires Inv(s, dest0, Load(dest0, s.wire)) && Exec(s, es).Some? && RaceFree(s, es)
    ensures Inv(Exec(s, es).value, dest0, Load(dest0, Exec(s, es).value.wire))
  {
    if es != [] {
      var init := es[..|es| - 1];
      RunKeepsInv(s, init, dest0);
      StepKeepsInv(Exec(s, init).value, es[|es| - 1], dest0);
    }
  }

  // ---------------------------------------------------------------- the start

  /** A drive as the block layer knows it; only hard disks with at least one sector migrate. */
  datatype Drive = Drive(name: Name, isHd: bool, disk: Disk, dirty: set<nat>, alloc: set<nat>)

  predicate Migrates(v: Drive) {
    v.isHd && |v.disk| / SECTOR_SIZE != 0
  }

  function StartDev(v: Drive, sharedBase: bool): Dev {
    Dev(v.name, v.disk, v.dirty, v.alloc, sharedBase, false, 0, 0)
  }

  function StartDevs(drives: seq<Drive>, sharedBase: bool): seq<Dev> {
    if drives == [] then [] else
    StartDevs(drives[..|drives| - 1], sharedBase)
    + if Migrates(drives[|drives| - 1]) then [StartDev(drives[|drives| - 1], sharedBase)] else []
  }

  /** Migration begins, with the guest writes `writes` submitted and not performed. */
  function StartState(devs: seq<Dev>, writes: seq<GuestWrite>): State {
    State(devs, writes, [], [], 0, 0, 0, -1, [], false)
  }

  /** What a fresh migration needs of its devices and of the destination. */
  ghost predicate StartOk(devs: seq<Dev>, dest0: Disks) {
    && DevsOk(devs, dest0)
    && forall i :: 0 <= i < |devs| ==> devs[i].curSector == 0 && BaseOk(devs[i], dest0[devs[i].name])
  }

  /** No write need be marked: nothing is read yet. */
  lemma StartInv(s: State, dest0: Disks)
    requires StartOk(s.devs, dest0) && forall w :: w in s.writes ==> WriteFits(s.devs, w)
    requires s.inFlight == [] && s.blkList == [] && s.submitted == s.readDone == 0 && s.wire == []
    ensures Inv(s, dest0, Load(dest0, s.wire))
  {
    assert PendingKeys(s) == {};
    forall i: nat, c: nat | i < |s.devs| && c * CHUNK_BYTES < |s.devs[i].disk|
      ensures ChunkOk(s, dest0, dest0, i, c)
    {
    }
  }

  /** Over every race-free run of a fresh migration, in any interleaving, the invariant holds. */
  lemma EveryRunIsSafe(devs: seq<Dev>, writes: seq<GuestWrite>, es: seq<Event>, dest0: Disks)
    requires StartOk(devs, dest0) && forall w :: w in writes ==> WriteFits(devs, w)
    requires Exec(StartState(devs, writes), es).Some? && RaceFree(StartState(devs, writes), es)
    ensures var s := Exec(StartState(devs, writes), es).value; Inv(s, dest0, Load(dest0, s.wire))
  {
    StartInv(StartState(devs, writes), dest0);
    RunKeepsInv(StartState(devs, writes), es, dest0);
  }

  // ---------------------------------------------------------------- what is on the wire

  /** A block frame is for a device the destination has, starts inside it, and is one chunk long;
      a progress frame is a percentage. */
  ghost predicate FrameOk(dest0: Disks, f: Frame) {
    && (f.Block? ==> f.name in dest0 && |f.data| == CHUNK_BYTES && f.sector * SECTOR_SIZE < |dest0[f.name]|)
    && (f.Progress? ==> f.percent <= 100)
  }

  ghost predicate WireOk(dest0: Disks, wire: seq<Frame>) {
    forall f :: f in wire ==> FrameOk(dest0, f)
  }

  lemma AtMostHundred(devs: seq<Dev>, n: nat)
    requires n <= |devs| && TotalSum(devs, |devs|) > 0
    requires forall i :: 0 <= i < |devs| ==> devs[i].completedSectors <= devs[i].Total()
    ensures PercentOf(CompletedSum(devs, n), TotalSum(devs, |devs|)) <= 100
  {
    CompletedAtMostTotal(devs, n);
    TotalSumGrows(devs, n, |devs|);
    PercentMonotone(CompletedSum(devs, n), TotalSum(devs, |devs|), TotalSum(devs, |devs|));
    AllDoneIsHundred(TotalSum(devs, |devs|));
  }

  lemma TotalSumGrows(devs: seq<Dev>, m: nat, n: nat)
    requires m <= n <= |devs|
    ensures TotalSum(devs, m) <= TotalSum(devs, n)
  {
  }

  lemma BulkKeepsWire(s: State, e: Event, dest0: Disks, dest: Disks)
    requires Inv(s, dest0, dest) && WireOk(dest0, s.wire) && Enabled(s, e) && e.BulkStep?
    ensures WireOk(dest0, BulkState(s, e.isAsync, e.ok, e.junk).wire)
    ensures forall i :: 0 <= i < |s.devs| ==>
              var d := BulkState(s, e.isAsync, e.ok, e.junk).devs[i]; d.completedSectors <= d.Total()
  {
    var i := FirstIncomplete(s.devs);
    InvDevOk(s, dest0, dest);
    if i < |s.devs| {
      hide Inv, BulkDev;
      BulkDevCompletes(s.devs[i], e.ok);
    }
  }

  lemma InvDevOk(s: State, dest0: Disks, dest: Disks)
    requires Inv(s, dest0, dest)
    ensures forall j :: 0 <= j < |s.devs| ==>
              DevOk(s.devs[j]) && s.devs[j].name in dest0 && |dest0[s.devs[j].name]| == |s.devs[j].disk|
  {
  }

  lemma BulkDevCompletes(d: Dev, ok: bool)
    requires DevOk(d)
    ensures BulkDev(d, ok).completedSectors <= BulkDev(d, ok).Total() && BulkDev(d, ok).disk == d.disk
  {
  }

  lemma BulkStepKeepsWire(s: State, e: Event, dest0: Disks, dest: Disks)
    requires Inv(s, dest0, dest) && WireOk(dest0, s.wire) && Enabled(s, e) && e.BulkStep?
    ensures WireOk(dest0, Step(s, e).wire)
  {
    hide Inv, BulkState;
    var t := BulkState(s, e.isAsync, e.ok, e.junk);
    BulkKeepsWire(s, e, dest0, dest);
    TotalSumSame(s.devs, t.devs, |s.devs|);
    AtMostHundred(t.devs, Min(FirstIncomplete(s.devs) + 1, |t.devs|));
  }

  lemma StepKeepsWire(s: State, e: Event, dest0: Disks, dest: Disks)
    requires Inv(s, dest0, dest) && WireOk(dest0, s.wire) && Enabled(s, e)
    ensures WireOk(dest0, Step(s, e).wire)
  {
    if e.FlushOne? {
      assert s.blkList[0] in s.blkList && BlkOk(s.devs, s.blkList[0]);
    } else if e.BulkStep? {
      BulkStepKeepsWire(s, e, dest0, dest);
    }
  }
}
