/** What the destination holds once stage 3 has sent its dirty chunks, exactly, and the runs in
    which that is not the source. */
module MigrationResult {
  import opened Sectors
  import opened Migration
  import opened MigrationSafety

  ghost predicate AllComplete(devs: seq<Dev>) {
    forall i :: 0 <= i < |devs| ==> devs[i].bulkCompleted
  }

  /** Chunk `c` of device `i` was read but is still queued (or in flight), and is not dirty: the
      dirty pass will not send it, and cleanup frees the queue. */
  ghost predicate Lost(s: State, i: nat, c: nat)
    requires i < |s.devs|
  {
    Pending(s, i, c) && c !in s.devs[i].dirty
  }

  /** What chunk `c` of device `i` holds on the destination after a dirty pass from `s`. */
  ghost function FinalChunk(s: State, dest0: Disks, i: nat, c: nat): Disk
    requires DevsOk(s.devs, dest0) && i < |s.devs| && c * CHUNK_BYTES < |s.devs[i].disk|
  {
    if s.devs[i].Full(c) && !Lost(s, i, c) then Chunk(s.devs[i].disk, c) else Chunk(dest0[s.devs[i].name], c)
  }

  ghost predicate Migrated(s: State, dest0: Disks, dest: Disks)
    requires DevsOk(s.devs, dest0) && DevsOk(s.devs, dest)
  {
    forall i: nat, c: nat :: i < |s.devs| && c * CHUNK_BYTES < |s.devs[i].disk| ==>
      Chunk(dest[s.devs[i].name], c) == FinalChunk(s, dest0, i, c)
  }

  ghost predicate SameDisks(devs: seq<Dev>, dest: Disks)
    requires forall i :: 0 <= i < |devs| ==> devs[i].name in dest
  {
    forall i :: 0 <= i < |devs| ==> dest[devs[i].name] == devs[i].disk
  }

  /** The dirty pass leaves chunk `c` of device `i` to what the destination held before. */
  ghost predicate Missed(s: State, i: nat, c: nat) {
    i < |s.devs| && c * CHUNK_BYTES < |s.devs[i].disk| && !(s.devs[i].Full(c) && !Lost(s, i, c))
  }

  /** No chunk is partial, and none was dropped with the queue. */
  ghost predicate NothingMissed(s: State) {
    forall i: nat, c: nat :: !Missed(s, i, c)
  }

  /** The destination is the source exactly when every partial last chunk and every chunk dropped
      with the queue was the same on both sides to begin with. */
  lemma MigratedIffSame(s: State, dest0: Disks, dest: Disks)
    requires DevsOk(s.devs, dest0) && DevsOk(s.devs, dest) && Migrated(s, dest0, dest)
    ensures SameDisks(s.devs, dest) <==>
            forall i: nat, c: nat :: Missed(s, i, c) ==> Chunk(dest0[s.devs[i].name], c) == Chunk(s.devs[i].disk, c)
  {
    if forall i: nat, c: nat :: Missed(s, i, c) ==> Chunk(dest0[s.devs[i].name], c) == Chunk(s.devs[i].disk, c) {
      forall i | 0 <= i < |s.devs|
        ensures dest[s.devs[i].name] == s.devs[i].disk
      {
        forall c: nat | c * CHUNK_BYTES < |s.devs[i].disk|
          ensures Chunk(dest[s.devs[i].name], c) == Chunk(s.devs[i].disk, c)
        {
          assert Chunk(dest[s.devs[i].name], c) == FinalChunk(s, dest0, i, c);
        }
        ChunksDetermineDisk(dest[s.devs[i].name], s.devs[i].disk);
      }
    } else {
      var i: nat, c: nat :| Missed(s, i, c) && Chunk(dest0[s.devs[i].name], c) != Chunk(s.devs[i].disk, c);
      assert Chunk(dest[s.devs[i].name], c) == FinalChunk(s, dest0, i, c);
    }
  }

  /** The destination shares the base images of the devices that have one. */
  ghost predicate BasesOk(devs: seq<Dev>, dest0: Disks)
    requires DevsOk(devs, dest0)
  {
    forall i :: 0 <= i < |devs| ==> BaseOk(devs[i], dest0[devs[i].name])
  }

  /** Chunk `c` is in the shared base alone: the source has allocated none of its sectors. */
  ghost predicate InBase(d: Dev, c: nat) {
    d.sharedBase && forall s: nat :: c * CHUNK_SECTORS <= s < (c + 1) * CHUNK_SECTORS && s < d.Total() ==> s !in d.alloc
  }

  /** Migration is right for every destination it may start from exactly when each missed chunk is in the
      shared base alone. */
  lemma RightForEveryDestination(s: State, dest0: Disks)
    requires DevsOk(s.devs, dest0)
    ensures (forall i: nat, c: nat :: Missed(s, i, c) ==> InBase(s.devs[i], c)) <==>
            forall d0: Disks, d: Disks ::
              DevsOk(s.devs, d0) && BasesOk(s.devs, d0) && DevsOk(s.devs, d) && Migrated(s, d0, d) ==>
              SameDisks(s.devs, d)
  {
    if forall i: nat, c: nat :: Missed(s, i, c) ==> InBase(s.devs[i], c) {
      forall d0: Disks, d: Disks | DevsOk(s.devs, d0) && BasesOk(s.devs, d0) && DevsOk(s.devs, d) && Migrated(s, d0, d)
        ensures SameDisks(s.devs, d)
      {
        forall i: nat, c: nat | Missed(s, i, c)
          ensures Chunk(d0[s.devs[i].name], c) == Chunk(s.devs[i].disk, c)
        {
          UnallocatedChunk(s.devs[i], d0[s.devs[i].name], c);
        }
        MigratedIffSame(s, d0, d);
      }
    } else {
      var i: nat, c: nat :| Missed(s, i, c) && !InBase(s.devs[i], c);
      var d := SpoiledDestination(s, dest0, i, c);
    }
  }

  function Flip(b: Byte): Byte {
    if b == 0 then 1 else 0
  }

  /** A byte of chunk `c` at which the destination may differ: in an allocated sector, if the base is shared. */
  lemma FreeByte(d: Dev, c: nat) returns (p: nat)
    requires DevOk(d) && c * CHUNK_BYTES < |d.disk| && !InBase(d, c)
    ensures c * CHUNK_BYTES <= p < |d.disk| && p < (c + 1) * CHUNK_BYTES
    ensures BaseOk(d, d.disk[p := Flip(d.disk[p])])
  {
    p := c * CHUNK_BYTES;
    if d.sharedBase {
      var a: nat :| c * CHUNK_SECTORS <= a < (c + 1) * CHUNK_SECTORS && a < d.Total() && a in d.alloc;
      p := a * SECTOR_SIZE;
      forall s: nat | s < d.Total() && s !in d.alloc
        ensures Sector(d.disk, s) == Sector(d.disk[p := Flip(d.disk[p])], s)
      {
        assert s != a;
      }
    }
  }

  /** A destination with the right base on which the missed chunk `c` of device `i` shows: it differs from
      the source in one byte of that chunk. */
  lemma SpoiledDestination(s: State, dest0: Disks, i: nat, c: nat) returns (d: Disks)
    requires DevsOk(s.devs, dest0) && Missed(s, i, c) && !InBase(s.devs[i], c)
    ensures DevsOk(s.devs, d) && BasesOk(s.devs, d) && Migrated(s, d, d) && !SameDisks(s.devs, d)
  {
    var p := FreeByte(s.devs[i], c);
    var bad := s.devs[i].disk[p := Flip(s.devs[i].disk[p])];
    d := SourceDisks(s.devs, dest0)[s.devs[i].name := bad];
    OneDiskChanged(s.devs, SourceDisks(s.devs, dest0), i, bad);
    forall e: nat | e != c && e * CHUNK_BYTES < |bad|
      ensures Chunk(bad, e) == Chunk(s.devs[i].disk, e)
    {
    }
    forall j: nat, e: nat | j < |s.devs| && e * CHUNK_BYTES < |s.devs[j].disk|
      ensures Chunk(d[s.devs[j].name], e) == FinalChunk(s, d, j, e)
    {
    }
    assert d[s.devs[i].name][p] != s.devs[i].disk[p];
  }

  lemma OneDiskChanged(devs: seq<Dev>, src: Disks, i: nat, bad: Disk)
    requires DevsOk(devs, src) && SameDisks(devs, src) && i < |devs| && |bad| == |devs[i].disk| && BaseOk(devs[i], bad)
    ensures var d := src[devs[i].name := bad];
            && DevsOk(devs, d) && BasesOk(devs, d)
            && forall j :: 0 <= j < |devs| && j != i ==> d[devs[j].name] == devs[j].disk
  {
    var d := src[devs[i].name := bad];
    assert forall j :: 0 <= j < |devs| && j != i ==> devs[j].name != devs[i].name;
  }

  /** The destination that holds the source disks. */
  function SourceDisks(devs: seq<Dev>, dest0: Disks): (d: Disks)
    requires DevsOk(devs, dest0)
    ensures DevsOk(devs, d) && SameDisks(devs, d)
  {
    if devs == [] then dest0 else
    assert DevsOk(devs[..|devs| - 1], dest0);
    var l := devs[|devs| - 1];
    SourceDisks(devs[..|devs| - 1], dest0)[l.name := l.disk]
  }

  // ---------------------------------------------------------------- the dirty pass

  /** Progress of the dirty pass that began in `mid`: chunks before chunk `c` of device `i` are
      final and clean, the others are as they were in `mid`. */
  ghost predicate PassOk(mid: State, dest0: Disks, devs: seq<Dev>, dest: Disks, i: nat, c: nat)
    requires DevsOk(mid.devs, dest0)
  {
    && |devs| == |mid.devs| && DevsOk(mid.devs, dest) && DevsOk(mid.devs, Load(dest0, mid.wire))
    && (forall j :: 0 <= j < |devs| ==> devs[j] == mid.devs[j].(dirty := devs[j].dirty))
    && forall j: nat, e: nat :: j < |mid.devs| && e * CHUNK_BYTES < |mid.devs[j].disk| ==>
         PassChunkOk(mid, dest0, devs, dest, i, c, j, e)
  }

  ghost predicate PassChunkOk(mid: State, dest0: Disks, devs: seq<Dev>, dest: Disks, i: nat, c: nat, j: nat, e: nat)
    requires DevsOk(mid.devs, dest0) && DevsOk(mid.devs, dest) && DevsOk(mid.devs, Load(dest0, mid.wire))
    requires j < |mid.devs| == |devs| && e * CHUNK_BYTES < |mid.devs[j].disk|
  {
    var x := Chunk(dest[mid.devs[j].name], e);
    if j < i || (j == i && e < c) then
      x == FinalChunk(mid, dest0, j, e) && e !in devs[j].dirty
    else
      x == Chunk(Load(dest0, mid.wire)[mid.devs[j].name], e) && (e in devs[j].dirty <==> e in mid.devs[j].dirty)
  }

  lemma PassStart(mid: State, dest0: Disks)
    requires Inv(mid, dest0, Load(dest0, mid.wire))
    ensures PassOk(mid, dest0, mid.devs, Load(dest0, mid.wire), 0, 0)
  {
  }

  lemma PassNextDev(mid: State, dest0: Disks, devs: seq<Dev>, dest: Disks, i: nat, c: nat)
    requires DevsOk(mid.devs, dest0) && PassOk(mid, dest0, devs, dest, i, c) && i < |mid.devs|
    requires c * CHUNK_BYTES >= |mid.devs[i].disk|
    ensures PassOk(mid, dest0, devs, dest, i + 1, 0)
  {
    var next := i + 1;
    forall j: nat, e: nat | j < |mid.devs| && e * CHUNK_BYTES < |mid.devs[j].disk|
      ensures PassChunkOk(mid, dest0, devs, dest, next, 0, j, e)
    {
      assert PassChunkOk(mid, dest0, devs, dest, i, c, j, e);
    }
  }

  lemma CleanIsFinal(mid: State, dest0: Disks, i: nat, c: nat)
    requires Inv(mid, dest0, Load(dest0, mid.wire)) && AllComplete(mid.devs)
    requires i < |mid.devs| && c * CHUNK_BYTES < |mid.devs[i].disk| && c !in mid.devs[i].dirty
    ensures Chunk(Load(dest0, mid.wire)[mid.devs[i].name], c) == FinalChunk(mid, dest0, i, c)
  {
    assert ChunkOk(mid, dest0, Load(dest0, mid.wire), i, c);
  }

  /** A clean chunk is passed over: it is final already. */
  lemma PassClean(mid: State, dest0: Disks, devs: seq<Dev>, dest: Disks, i: nat, c: nat)
    requires DevsOk(mid.devs, dest0) && PassOk(mid, dest0, devs, dest, i, c)
    requires i < |mid.devs| && c * CHUNK_BYTES < |mid.devs[i].disk|
    requires c !in devs[i].dirty
    requires c !in mid.devs[i].dirty ==>
               Chunk(Load(dest0, mid.wire)[mid.devs[i].name], c) == FinalChunk(mid, dest0, i, c)
    ensures PassOk(mid, dest0, devs, dest, i, c + 1)
  {
    hide DevsOk, FinalChunk, Chunk, Load;
    var next := c + 1;
    forall j: nat, e: nat | j < |mid.devs| && e * CHUNK_BYTES < |mid.devs[j].disk|
      ensures PassChunkOk(mid, dest0, devs, dest, i, next, j, e)
    {
      assert PassChunkOk(mid, dest0, devs, dest, i, c, j, e);
    }
  }

  /** A dirty chunk is sent and becomes clean. */
  lemma PassDirty(mid: State, dest0: Disks, devs: seq<Dev>, dest: Disks, i: nat, c: nat)
    requires DevsOk(mid.devs, dest0) && PassOk(mid, dest0, devs, dest, i, c)
    requires i < |mid.devs| && mid.devs[i].Full(c)
    requires c in devs[i].dirty
    ensures PassOk(mid, dest0, devs[i := devs[i].(dirty := devs[i].dirty - {c})],
                   LoadFrame(dest, Block(mid.devs[i].name, c * CHUNK_SECTORS, Chunk(mid.devs[i].disk, c))), i, c + 1)
  {
    var next := c + 1;
    var data := Chunk(mid.devs[i].disk, c);
    var devs' := devs[i := devs[i].(dirty := devs[i].dirty - {c})];
    var dest' := LoadFrame(dest, Block(mid.devs[i].name, c * CHUNK_SECTORS, data));
    LoadBlockChunk(dest, mid.devs, i, c * CHUNK_SECTORS, data);
    forall j: nat, e: nat | j < |mid.devs| && e * CHUNK_BYTES < |mid.devs[j].disk|
      ensures PassChunkOk(mid, dest0, devs', dest', i, next, j, e)
    {
      assert PassChunkOk(mid, dest0, devs, dest, i, c, j, e);
      assert PassChunkOk(mid, dest0, devs, dest, i, c, i, c);
    }
  }

  lemma PassEnd(mid: State, dest0: Disks, devs: seq<Dev>, dest: Disks)
    requires DevsOk(mid.devs, dest0) && PassOk(mid, dest0, devs, dest, |mid.devs|, 0)
    ensures Migrated(mid, dest0, dest)
  {
    forall j: nat, e: nat | j < |mid.devs| && e * CHUNK_BYTES < |mid.devs[j].disk|
      ensures Chunk(dest[mid.devs[j].name], e) == FinalChunk(mid, dest0, j, e)
    {
      assert PassChunkOk(mid, dest0, devs, dest, |mid.devs|, 0, j, e);
    }
  }

  // ---------------------------------------------------------------- what the dirty pass sends

  /** The devices, with the chunks still dirty, and the stream so far. */
  datatype Pass = Pass(devs: seq<Dev>, wire: seq<Frame>)

  /** `q` differs from `p` in what is dirty and what is sent. */
  ghost predicate SameButDirty(p: Pass, q: Pass) {
    |q.devs| == |p.devs| && forall j :: 0 <= j < |p.devs| ==> q.devs[j] == p.devs[j].(dirty := q.devs[j].dirty)
  }

  /** A dirty chunk is sent and becomes clean; one that runs past the end of its device never is. */
  function SendChunk(p: Pass, i: nat, c: nat): (q: Pass)
    requires i < |p.devs|
    ensures SameButDirty(p, q)
  {
    var d := p.devs[i];
    if c in d.dirty && (c + 1) * CHUNK_BYTES <= |d.disk| then
      Pass(p.devs[i := d.(dirty := d.dirty - {c})],
           p.wire + [Block(d.name, c * CHUNK_SECTORS, ReadSectors(d.disk, c * CHUNK_SECTORS, CHUNK_SECTORS))])
    else p
  }

  /** The first `n` chunks of device `i`. */
  function SendDev(p: Pass, i: nat, n: nat): (q: Pass)
    requires i < |p.devs|
    ensures SameButDirty(p, q)
  {
    if n == 0 then p else SendChunk(SendDev(p, i, n - 1), i, n - 1)
  }

  lemma SendDevStep(p: Pass, i: nat, n: nat)
    requires i < |p.devs|
    ensures SendDev(p, i, 0) == p && SendDev(p, i, n + 1) == SendChunk(SendDev(p, i, n), i, n)
  {
  }

  lemma ChunkOfSector(sector: nat, cur: nat)
    requires sector % CHUNK_SECTORS == 0
    ensures sector < cur ==> sector / CHUNK_SECTORS < ChunksUpTo(cur)
    ensures sector >= cur && sector / CHUNK_SECTORS <= ChunksUpTo(cur) ==> sector / CHUNK_SECTORS == ChunksUpTo(cur)
    ensures (sector + CHUNK_SECTORS) % CHUNK_SECTORS == 0
    ensures (sector + CHUNK_SECTORS) / CHUNK_SECTORS == sector / CHUNK_SECTORS + 1
  {
  }

  /** The chunks up to a cursor. */
  function ChunksUpTo(sector: nat): nat {
    (sector + CHUNK_SECTORS - 1) / CHUNK_SECTORS
  }

  /** The first `n` devices, each up to its cursor. */
  function SendAll(p: Pass, n: nat): (q: Pass)
    requires n <= |p.devs|
    ensures SameButDirty(p, q)
  {
    if n == 0 then p else
    var q := SendAll(p, n - 1);
    SendDev(q, n - 1, ChunksUpTo(q.devs[n - 1].curSector))
  }

  /** Every device is a whole number of chunks. */
  ghost predicate WholeChunks(devs: seq<Dev>) {
    forall i :: 0 <= i < |devs| ==> |devs[i].disk| % CHUNK_BYTES == 0
  }

  lemma SendChunkPasses(mid: State, dest0: Disks, p: Pass, i: nat, c: nat)
    requires Inv(mid, dest0, Load(dest0, mid.wire)) && AllComplete(mid.devs) && WholeChunks(mid.devs)
    requires i < |mid.devs| == |p.devs| && c * CHUNK_BYTES < |mid.devs[i].disk|
    requires PassOk(mid, dest0, p.devs, Load(dest0, p.wire), i, c)
    ensures var q := SendChunk(p, i, c); PassOk(mid, dest0, q.devs, Load(dest0, q.wire), i, c + 1)
  {
    hide ChunksOk, QueuesOk;
    if c in p.devs[i].dirty {
      var f := Block(p.devs[i].name, c * CHUNK_SECTORS, ReadSectors(p.devs[i].disk, c * CHUNK_SECTORS, CHUNK_SECTORS));
      assert f == Block(mid.devs[i].name, c * CHUNK_SECTORS, Chunk(mid.devs[i].disk, c));
      PassDirty(mid, dest0, p.devs, Load(dest0, p.wire), i, c);
      LoadAppend(dest0, p.wire, f);
    } else {
      if c !in mid.devs[i].dirty {
        CleanIsFinal(mid, dest0, i, c);
      }
      PassClean(mid, dest0, p.devs, Load(dest0, p.wire), i, c);
    }
  }

  lemma {:induction false} SendDevPasses(mid: State, dest0: Disks, p: Pass, i: nat, n: nat)
    requires Inv(mid, dest0, Load(dest0, mid.wire)) && AllComplete(mid.devs) && WholeChunks(mid.devs)
    requires i < |mid.devs| == |p.devs| && n * CHUNK_BYTES <= |mid.devs[i].disk|
    requires PassOk(mid, dest0, p.devs, Load(dest0, p.wire), i, 0)
    ensures var q := SendDev(p, i, n); PassOk(mid, dest0, q.devs, Load(dest0, q.wire), i, n)
  {
    hide Inv, PassOk, SendChunk;
    if n > 0 {
      SendDevPasses(mid, dest0, p, i, n - 1);
      SendChunkPasses(mid, dest0, SendDev(p, i, n - 1), i, n - 1);
    }
  }

  lemma {:induction false} SendAllPasses(mid: State, dest0: Disks, n: nat)
    requires Inv(mid, dest0, Load(dest0, mid.wire)) && AllComplete(mid.devs) && WholeChunks(mid.devs)
    requires n <= |mid.devs|
    ensures var q := SendAll(Pass(mid.devs, mid.wire), n); PassOk(mid, dest0, q.devs, Load(dest0, q.wire), n, 0)
  {
    hide PassOk, SendDev, Inv, AllComplete, WholeChunks, ChunksUpTo, Load, DevsOk, LoadFrame;
    var p := Pass(mid.devs, mid.wire);
    if n == 0 {
      PassStart(mid, dest0);
    } else {
      SendAllPasses(mid, dest0, n - 1);
      SendWholeDev(mid, dest0, SendAll(p, n - 1), n - 1);
    }
  }

  /** One device more, up to its cursor. */
  lemma SendWholeDev(mid: State, dest0: Disks, p: Pass, i: nat)
    requires Inv(mid, dest0, Load(dest0, mid.wire)) && AllComplete(mid.devs) && WholeChunks(mid.devs)
    requires i < |mid.devs| == |p.devs| && p.devs[i].curSector == mid.devs[i].curSector
    requires PassOk(mid, dest0, p.devs, Load(dest0, p.wire), i, 0)
    ensures var q := SendDev(p, i, ChunksUpTo(p.devs[i].curSector));
            PassOk(mid, dest0, q.devs, Load(dest0, q.wire), i + 1, 0)
  {
    hide PassOk, SendDev, Inv, AllComplete, WholeChunks, ChunksUpTo, Load, DevsOk, LoadFrame;
    InvDevs(mid, dest0, Load(dest0, mid.wire));
    var k := ChunksUpTo(p.devs[i].curSector);
    CursorAtEnd(mid, dest0, i);
    SendDevPasses(mid, dest0, p, i, k);
    var q := SendDev(p, i, k);
    PassNextDev(mid, dest0, q.devs, Load(dest0, q.wire), i, k);
  }

  lemma InvDevs(s: State, dest0: Disks, dest: Disks)
    requires Inv(s, dest0, dest)
    ensures DevsOk(s.devs, dest0) && DevsOk(s.devs, dest)
  {
  }

  lemma CursorAtEnd(mid: State, dest0: Disks, i: nat)
    requires Inv(mid, dest0, Load(dest0, mid.wire)) && AllComplete(mid.devs) && WholeChunks(mid.devs) && i < |mid.devs|
    ensures ChunksUpTo(mid.devs[i].curSector) * CHUNK_BYTES == |mid.devs[i].disk|
  {
  }

  /** After the dirty pass from `mid`, and the loading of all frames, the destination equals the source. */
  ghost predicate EndsSame(mid: State, dest0: Disks) {
    var dest := Load(dest0, SendAll(Pass(mid.devs, mid.wire), |mid.devs|).wire);
    DevsOk(mid.devs, dest) && SameDisks(mid.devs, dest)
  }

  /** The bulk phase is over and no read is outstanding or queued. */
  ghost predicate Drained(s: State) {
    AllComplete(s.devs) && s.inFlight == [] && s.blkList == []
  }

  lemma DrainedEndsSame(mid: State, dest0: Disks)
    requires Inv(mid, dest0, Load(dest0, mid.wire)) && Drained(mid) && WholeChunks(mid.devs)
    ensures EndsSame(mid, dest0)
  {
    hide SendAll, PassOk;
    SendAllPasses(mid, dest0, |mid.devs|);
    var q := SendAll(Pass(mid.devs, mid.wire), |mid.devs|);
    PassEndDevs(mid, dest0, q.devs, Load(dest0, q.wire));
    PassEnd(mid, dest0, q.devs, Load(dest0, q.wire));
    NoQueueNothingMissed(mid);
    MigratedIffSame(mid, dest0, Load(dest0, q.wire));
  }

  /** For every interleaving of guest writes, also of those outstanding at the start, reads, completions and
      flushes without a race that ends with the bulk phase over and the queues empty: after the dirty pass and
      the loading of all frames, the destination equals the source. */
  lemma EveryRunMigrates(devs: seq<Dev>, writes: seq<GuestWrite>, es: seq<Event>, dest0: Disks)
    requires StartOk(devs, dest0) && forall w :: w in writes ==> WriteFits(devs, w)
    requires Exec(StartState(devs, writes), es).Some? && RaceFree(StartState(devs, writes), es)
    requires var mid := Exec(StartState(devs, writes), es).value; Drained(mid) && WholeChunks(mid.devs)
    ensures EndsSame(Exec(StartState(devs, writes), es).value, dest0)
  {
    EveryRunIsSafe(devs, writes, es, dest0);
    DrainedEndsSame(Exec(StartState(devs, writes), es).value, dest0);
  }

  lemma PassEndDevs(mid: State, dest0: Disks, devs: seq<Dev>, dest: Disks)
    requires DevsOk(mid.devs, dest0) && PassOk(mid, dest0, devs, dest, |mid.devs|, 0)
    ensures DevsOk(mid.devs, dest)
  {
  }

  lemma NoQueueNothingMissed(s: State)
    requires s.inFlight == [] && s.blkList == [] && WholeChunks(s.devs)
    ensures NothingMissed(s)
  {
  }

  // ---------------------------------------------------------------- runs that go wrong

  /** A one-chunk device holding `a`, at the start of a full migration. */
  function OneChunk(a: seq<Byte>): State
    requires |a| == CHUNK_BYTES
  {
    StartState([Dev([], a, {}, {}, false, false, 0, 0)], [])
  }

  /** The bulk read of the only chunk, up to its completion. */
  lemma BulkReadOfOneChunk(s: State, a: seq<Byte>, dirty: set<nat>) returns (es: seq<Event>, t: State)
    requires |a| == CHUNK_BYTES
    requires s.devs == [Dev([], a, dirty, {}, false, false, 0, 0)]
    requires s.inFlight == [] && s.blkList == [] && s.wire == [] && s.submitted == 0 && s.prevProgress == -1
    ensures es == [BulkStep(true, true, []), ReadPerform(0, []), ReadComplete(0, 0)] && Exec(s, es) == Some(t)
    ensures t.devs == [Dev([], a, dirty - {0}, {}, false, true, 2048, 0)] && t.writes == s.writes
    ensures t.blkList == [Blk(0, 0, 2048, Some(a), 0)] && t.inFlight == [] && t.submitted == 0
    ensures t.wire == [Progress(0)] && !t.error == !s.error
  {
    hide Step, Exec, Enabled;
    var e0, e1, e2 := BulkStep(true, true, []), ReadPerform(0, []), ReadComplete(0, 0);
    var s1 := SubmitOneChunk(s, a, dirty);
    ReadOneChunk(s1, a);
    var s2 := Step(s1, e1);
    t := Step(s2, e2);
    NoEvents(s);
    ExecAppend(s, [], e0);
    assert [] + [e0] == [e0];
    ExecAppend(s, [e0], e1);
    assert [e0] + [e1] == [e0, e1];
    ExecAppend(s, [e0, e1], e2);
    es := [e0, e1] + [e2];
  }

  lemma NoEvents(s: State)
    ensures Exec(s, []) == Some(s)
  {
  }

  lemma ReadOneChunk(s: State, a: seq<Byte>)
    requires |a| == CHUNK_BYTES && |s.devs| == 1 && s.devs[0].disk == a
    requires s.inFlight == [Blk(0, 0, 2048, None, 0)] && s.blkList == []
    ensures Enabled(s, ReadPerform(0, []))
    ensures var t := Step(s, ReadPerform(0, []));
            && Enabled(t, ReadComplete(0, 0))
            && Step(t, ReadComplete(0, 0)) ==
                 s.(inFlight := [], blkList := [Blk(0, 0, 2048, Some(a), 0)], submitted := s.submitted - 1,
                    readDone := s.readDone + 1)
  {
    var t := Step(s, ReadPerform(0, []));
    assert a[0..CHUNK_BYTES] + [] == a;
    assert t.inFlight == [Blk(0, 0, 2048, Some(a), 0)];
  }

  lemma SubmitOneChunk(s: State, a: seq<Byte>, dirty: set<nat>) returns (t: State)
    requires |a| == CHUNK_BYTES
    requires s.devs == [Dev([], a, dirty, {}, false, false, 0, 0)]
    requires s.inFlight == [] && s.wire == [] && s.prevProgress == -1
    ensures Enabled(s, BulkStep(true, true, [])) && t == Step(s, BulkStep(true, true, []))
    ensures t == s.(devs := [Dev([], a, dirty - {0}, {}, false, true, 2048, 0)], inFlight := [Blk(0, 0, 2048, None, 0)],
                    submitted := s.submitted + 1, wire := [Progress(0)], prevProgress := 0)
  {
    assert FirstIncomplete(s.devs) == 0;
    assert TotalSum(s.devs, 1) == 2048 by {
      assert TotalSum(s.devs, 0) == 0;
    }
    var m := BulkState(s, true, true, []);
    assert BulkBase(s.devs[0]) == 0 && BulkCount(s.devs[0]) == 2048;
    TotalSumSame(s.devs, m.devs, 1);
    assert CompletedSum(m.devs, 1) == 0 by {
      assert CompletedSum(m.devs, 0) == 0;
    }
    t := Step(s, BulkStep(true, true, []));
  }

  /** Stage 2 counts as completed once nothing is in flight, even with completed reads queued. If
      the rate limiter then stops both of stage 3's flushes, the queued chunk is lost: for every
      content `a`, the source has no dirty chunk left, nothing is in flight, all of the device is
      bulk-completed, and after the dirty pass the destination still has what it had before. */
  lemma LimiterLosesBlock(a: seq<Byte>, z: seq<Byte>) returns (es: seq<Event>, t: State)
    requires |a| == |z| == CHUNK_BYTES && a != z
    ensures Exec(OneChunk(a), es) == Some(t) && RaceFree(OneChunk(a), es)
    ensures t.devs == [Dev([], a, {}, {}, false, true, 2048, 0)]
    ensures t.submitted == 0 && t.inFlight == [] && t.writes == [] && !t.error && Lost(t, 0, 0)
    ensures Load(map[[] := z], SendAll(Pass(t.devs, t.wire), 1).wire) == map[[] := z]
  {
    var none: set<nat> := {};
    es, t := BulkReadOfOneChunk(OneChunk(a), a, none);
    assert none - {0} == none;
    NoWritesNoRace(OneChunk(a), es);
    assert t.blkList[0] in t.blkList && (0, 0 * CHUNK_SECTORS) in Keys(t.blkList);
    SendOneClean(Pass(t.devs, t.wire));
    LoadsOfOneChunk(z, a);
  }

  lemma SendOneClean(p: Pass)
    requires |p.devs| == 1 && p.devs[0].dirty == {} && 0 < p.devs[0].curSector <= CHUNK_SECTORS
    ensures SendAll(p, 1) == p
  {
    assert SendAll(p, 0) == p && SendDev(p, 0, 0) == p;
    assert ChunksUpTo(p.devs[0].curSector) == 1 && SendDev(p, 0, 1) == SendChunk(p, 0, 0);
  }

  /** A device of one sector: its only chunk is partial. It is read and sent, everything is drained, nothing is
      dirty and no error shows, and yet the destination keeps what it had, for all contents `a` and `z`: the
      loader writes a whole chunk, which does not fit. */
  lemma PartialChunkIsLost(a: seq<Byte>, z: seq<Byte>, junk: seq<Byte>) returns (es: seq<Event>, t: State)
    requires |a| == |z| == SECTOR_SIZE && a != z && |junk| == CHUNK_BYTES - SECTOR_SIZE
    ensures var s := StartState([Dev([], a, {}, {}, false, false, 0, 0)], []);
            StartOk(s.devs, map[[] := z]) && Exec(s, es) == Some(t) && RaceFree(s, es)
    ensures t.devs == [Dev([], a, {}, {}, false, true, 1, 0)] && Drained(t) && t.writes == [] && !t.error
    ensures t.wire == [Progress(0), Block([], 0, a + junk)]
    ensures Load(map[[] := z], SendAll(Pass(t.devs, t.wire), 1).wire) == map[[] := z]
  {
    hide Step, Exec, Enabled, StartOk, SendAll, RaceFree;
    var s := StartState([Dev([], a, {}, {}, false, false, 0, 0)], []);
    StartOfOneSector(a, z);
    var e0, e1, e2 := BulkStep(true, true, []), ReadPerform(0, junk), ReadComplete(0, 0);
    var s1 := SubmitOneSector(s, a);
    ReadOneSector(s1, a, junk);
    var s2 := Step(s1, e1);
    var s3 := Step(s2, e2);
    SendOneBlock(s3, a + junk);
    t := Step(s3, FlushOne);
    NoEvents(s);
    ExecAppend(s, [], e0);
    ExecAppend(s, [] + [e0], e1);
    ExecAppend(s, [] + [e0] + [e1], e2);
    ExecAppend(s, [] + [e0] + [e1] + [e2], FlushOne);
    es := [] + [e0] + [e1] + [e2] + [FlushOne];
    NoWritesNoRace(s, es);
    SendOneClean(Pass(t.devs, t.wire));
    BlockDoesNotFit(z, a + junk);
  }

  lemma StartOfOneSector(a: seq<Byte>, z: seq<Byte>)
    requires |a| == |z| == SECTOR_SIZE
    ensures StartOk([Dev([], a, {}, {}, false, false, 0, 0)], map[[] := z])
  {
  }

  lemma SubmitOneSector(s: State, a: seq<Byte>) returns (t: State)
    requires |a| == SECTOR_SIZE && s == StartState([Dev([], a, {}, {}, false, false, 0, 0)], [])
    ensures Enabled(s, BulkStep(true, true, [])) && t == Step(s, BulkStep(true, true, []))
    ensures t == s.(devs := [Dev([], a, {}, {}, false, true, 1, 0)], inFlight := [Blk(0, 0, 1, None, 0)],
                    submitted := 1, wire := [Progress(0)], prevProgress := 0)
  {
    assert FirstIncomplete(s.devs) == 0;
    assert TotalSum(s.devs, 1) == 1 by {
      assert TotalSum(s.devs, 0) == 0;
    }
    var m := BulkState(s, true, true, []);
    assert BulkBase(s.devs[0]) == 0 && BulkCount(s.devs[0]) == 1;
    var none: set<nat> := {};
    assert none - {0} == none;
    TotalSumSame(s.devs, m.devs, 1);
    assert CompletedSum(m.devs, 1) == 0 by {
      assert CompletedSum(m.devs, 0) == 0;
    }
    t := Step(s, BulkStep(true, true, []));
  }

  lemma ReadOneSector(s: State, a: seq<Byte>, junk: seq<Byte>)
    requires |a| == SECTOR_SIZE && |junk| == CHUNK_BYTES - SECTOR_SIZE && |s.devs| == 1 && s.devs[0].disk == a
    requires s.inFlight == [Blk(0, 0, 1, None, 0)] && s.blkList == []
    ensures Enabled(s, ReadPerform(0, junk))
    ensures var t := Step(s, ReadPerform(0, junk));
            && Enabled(t, ReadComplete(0, 0))
            && Step(t, ReadComplete(0, 0)) ==
                 s.(inFlight := [], blkList := [Blk(0, 0, 1, Some(a + junk), 0)],
                    submitted := s.submitted - 1, readDone := s.readDone + 1)
  {
    var t := Step(s, ReadPerform(0, junk));
    assert a[0..SECTOR_SIZE] == a;
    assert t.inFlight == [Blk(0, 0, 1, Some(a + junk), 0)];
  }

  lemma SendOneBlock(s: State, data: seq<Byte>)
    requires |s.devs| == 1 && s.devs[0].name == [] && s.blkList == [Blk(0, 0, 1, Some(data), 0)]
    ensures Enabled(s, FlushOne)
    ensures Step(s, FlushOne) == s.(blkList := [], wire := s.wire + [Block([], 0, data)],
                                    readDone := s.readDone - 1, transferred := s.transferred + 1)
  {
  }

  lemma BlockDoesNotFit(z: seq<Byte>, data: seq<Byte>)
    requires |data| > |z|
    ensures Load(map[[] := z], [Progress(0), Block([], 0, data)]) == map[[] := z]
  {
    var d: Disks := map[[] := z];
    LoadAppend(d, [], Progress(0));
    assert [] + [Progress(0)] == [Progress(0)];
    LoadAppend(d, [Progress(0)], Block([], 0, data));
    assert [Progress(0)] + [Block([], 0, data)] == [Progress(0), Block([], 0, data)];
  }

  lemma LoadsOfOneChunk(z: seq<Byte>, a: seq<Byte>)
    requires |a| == |z| == CHUNK_BYTES
    ensures Load(map[[] := z], [Progress(0)]) == map[[] := z]
    ensures Load(map[[] := z], [Progress(0)] + [Block([], 0, a)]) == map[[] := a]
  {
    var d: Disks := map[[] := z];
    LoadAppend(d, [], Progress(0));
    assert [] + [Progress(0)] == [Progress(0)];
    LoadAppend(d, [Progress(0)], Block([], 0, a));
    assert Splice(z, 0, a) == a;
  }

  lemma NoNewWrite(s: State, e: Event)
    requires s.writes == [] && Enabled(s, e) && !e.GuestSubmit?
    ensures Step(s, e).writes == [] && NoRace(s, e)
  {
  }

  lemma {:induction false} NoWritesNoRace(s: State, es: seq<Event>)
    requires s.writes == [] && forall e :: e in es ==> !e.GuestSubmit?
    ensures RaceFree(s, es) && (Exec(s, es).Some? ==> Exec(s, es).value.writes == [])
  {
    if es != [] {
      var init, e := es[..|es| - 1], es[|es| - 1];
      NoWritesNoRace(s, init);
      if Exec(s, init).Some? && Enabled(Exec(s, init).value, e) {
        NoNewWrite(Exec(s, init).value, e);
      }
    }
  }

  /** A guest write marks its chunk dirty when it is submitted. If the bulk phase reads the chunk
      and resets its bit before the write reaches the disk, the write is missed: for every old
      content `a` and new content `b` the chunk ends clean, sent, and different on the two sides. */
  lemma RaceLosesWrite(a: seq<Byte>, b: seq<Byte>, z: seq<Byte>) returns (es: seq<Event>, t: State)
    requires |a| == |b| == |z| == CHUNK_BYTES && a != b
    ensures Exec(OneChunk(a), es) == Some(t)
    ensures |t.devs| == 1 && t.devs[0].disk == b && t.devs[0].dirty == {} && t.devs[0].bulkCompleted
    ensures t.submitted == 0 && t.inFlight == [] && t.blkList == [] && t.writes == [] && !t.error
    ensures Load(map[[] := z], t.wire) == map[[] := a]
  {
    hide Step, Exec, Enabled, Load;
    var s := OneChunk(a);
    var g, p := GuestSubmit(0, 0, b), GuestPerform(0);
    WriteOneChunk(s, a, b);
    var s0 := Step(s, g);
    var es1, s1 := BulkReadOfOneChunk(s0, a, {0});
    var none: set<nat> := {0} - {0};
    assert none == {};
    SendOneChunk(s1, a);
    var s2 := Step(s1, FlushOne);
    PerformOneChunk(s2, a, b);
    t := Step(s2, p);
    es := [g] + es1 + [FlushOne] + [p];
    NoEvents(s);
    ExecAppend(s, [], g);
    assert [] + [g] == [g];
    ExecConcat(s, [g], es1);
    ExecAppend(s, [g] + es1, FlushOne);
    ExecAppend(s, [g] + es1 + [FlushOne], p);
    assert t.wire == [Progress(0)] + [Block([], 0, a)];
    LoadsOfOneChunk(z, a);
  }

  lemma WriteOneChunk(s: State, a: seq<Byte>, b: seq<Byte>)
    requires |a| == |b| == CHUNK_BYTES && s.devs == [Dev([], a, {}, {}, false, false, 0, 0)] && s.writes == []
    ensures Enabled(s, GuestSubmit(0, 0, b))
    ensures Step(s, GuestSubmit(0, 0, b)) ==
            s.(devs := [Dev([], a, {0}, {}, false, false, 0, 0)], writes := [GuestWrite(0, 0, b)])
  {
    assert ChunksOf(0, |b| / SECTOR_SIZE) == {0};
    assert Step(s, GuestSubmit(0, 0, b)).devs[0].dirty == {0};
  }

  lemma SendOneChunk(s: State, a: seq<Byte>)
    requires |s.devs| == 1 && s.devs[0].name == [] && s.blkList == [Blk(0, 0, 2048, Some(a), 0)]
    ensures Enabled(s, FlushOne)
    ensures Step(s, FlushOne) == s.(blkList := [], wire := s.wire + [Block([], 0, a)],
                                    readDone := s.readDone - 1, transferred := s.transferred + 1)
  {
  }

  /** With a shared base a guest write that was outstanding when tracking began, and so was never marked, is
      missed as well, if the search for allocated sectors passes over its chunk before it reaches the disk: for
      every content `a` of the base and new content `b` the migration ends with nothing sent. */
  lemma SkipLosesWrite(a: seq<Byte>, b: seq<Byte>) returns (es: seq<Event>, t: State)
    requires |a| == |b| == CHUNK_BYTES && a != b
    ensures var s := StartState([Dev([], a, {}, {}, true, false, 0, 0)], [GuestWrite(0, 0, b)]);
            WriteFits(s.devs, s.writes[0]) && StartOk(s.devs, map[[] := a]) && Exec(s, es) == Some(t)
    ensures |t.devs| == 1 && t.devs[0].disk == b && t.devs[0].dirty == {} && Drained(t) && t.writes == [] && !t.error
    ensures Load(map[[] := a], SendAll(Pass(t.devs, t.wire), 1).wire) == map[[] := a]
  {
    hide Step, Exec, Enabled, StartOk, SendAll;
    var s := StartState([Dev([], a, {}, {}, true, false, 0, 0)], [GuestWrite(0, 0, b)]);
    var e, p := BulkStep(true, true, []), GuestPerform(0);
    BaseOfOneChunk(a);
    var s1 := SkipOneChunk(s, a);
    PerformOneChunk(s1, a, b);
    t := Step(s1, p);
    NoEvents(s);
    ExecAppend(s, [], e);
    assert [] + [e] == [e];
    ExecAppend(s, [e], p);
    es := [e] + [p];
    SendOneClean(Pass(t.devs, t.wire));
    var d: Disks := map[[] := a];
    LoadAppend(d, [], Progress(100));
    assert [] + [Progress(100)] == t.wire;
  }

  lemma BaseOfOneChunk(a: seq<Byte>)
    requires |a| == CHUNK_BYTES
    ensures StartOk([Dev([], a, {}, {}, true, false, 0, 0)], map[[] := a])
  {
  }

  lemma PerformOneChunk(s: State, a: seq<Byte>, b: seq<Byte>)
    requires |a| == |b| == CHUNK_BYTES && |s.devs| == 1 && s.devs[0].disk == a && s.writes == [GuestWrite(0, 0, b)]
    ensures Enabled(s, GuestPerform(0))
    ensures Step(s, GuestPerform(0)) ==
              s.(devs := [s.devs[0].(disk := b, alloc := s.devs[0].alloc + SectorsOf(0, 2048))], writes := [])
  {
    assert Splice(a, 0, b) == b;
    assert RemoveAt(s.writes, 0) == [];
  }

  lemma SkipOneChunk(s: State, a: seq<Byte>) returns (t: State)
    requires |a| == CHUNK_BYTES && s.devs == [Dev([], a, {}, {}, true, false, 0, 0)] && s.wire == []
    requires s.prevProgress == -1
    ensures Enabled(s, BulkStep(true, true, [])) && t == Step(s, BulkStep(true, true, []))
    ensures t == s.(devs := [Dev([], a, {}, {}, true, true, 2048, 2048)], wire := [Progress(100)], prevProgress := 100)
  {
    assert FirstIncomplete(s.devs) == 0 && SearchEnd(s.devs[0]) == 2048;
    assert TotalSum(s.devs, 1) == 2048 by {
      assert TotalSum(s.devs, 0) == 0;
    }
    var m := BulkState(s, true, true, []);
    TotalSumSame(s.devs, m.devs, 1);
    assert CompletedSum(m.devs, 1) == 2048 by {
      assert CompletedSum(m.devs, 0) == 0;
    }
    t := Step(s, BulkStep(true, true, []));
  }

  lemma {:induction false} ExecConcat(s: State, es: seq<Event>, fs: seq<Event>)
    requires Exec(s, es).Some?
    ensures Exec(s, es + fs) == Exec(Exec(s, es).value, fs)
  {
    if fs == [] {
      assert es + fs == es;
    } else {
      ExecConcat(s, es, fs[..|fs| - 1]);
      assert (es + fs)[..|es + fs| - 1] == es + fs[..|fs| - 1];
    }
  }
}
