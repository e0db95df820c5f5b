/** What the steps of a migration amount to in sectors, chunks and frames. */
module MigrationLaws {
  import opened Sectors
  import opened Migration
  import opened MigrationSafety
  import opened MigrationResult

  // ---------------------------------------------------------------- the devices

  /** Which drives migrate: the hard disks of at least one sector, in their order. */
  ghost predicate Chosen(drives: seq<Drive>, from: seq<nat>) {
    && (forall j, k :: 0 <= j < k < |from| ==> from[j] < from[k])
    && (forall k :: 0 <= k < |from| ==> from[k] < |drives|)
    && forall j: nat :: j in from <==> j < |drives| && drives[j].isHd && |drives[j].disk| >= SECTOR_SIZE
  }

  /** Each begins at its first sector with nothing completed. */
  ghost predicate BeginsAs(v: Drive, sharedBase: bool, d: Dev) {
    && d.name == v.name && d.disk == v.disk && d.dirty == v.dirty && d.alloc == v.alloc && d.sharedBase == sharedBase
    && !d.bulkCompleted && d.curSector == d.completedSectors == 0
  }

  lemma {:induction false} StartDevsAre(drives: seq<Drive>, sharedBase: bool) returns (from: seq<nat>)
    ensures Chosen(drives, from) && |StartDevs(drives, sharedBase)| == |from|
    ensures forall k :: 0 <= k < |from| ==> BeginsAs(drives[from[k]], sharedBase, StartDevs(drives, sharedBase)[k])
  {
    hide BeginsAs;
    from := [];
    if drives != [] {
      var last := |drives| - 1;
      var before := StartDevsAre(drives[..last], sharedBase);
      from := before;
      if drives[last].isHd && |drives[last].disk| >= SECTOR_SIZE {
        from := before + [last];
        BeginsSo(drives[last], sharedBase);
      }
      OneMoreDrive(drives, before, last);
    }
  }

  lemma BeginsSo(v: Drive, sharedBase: bool)
    ensures BeginsAs(v, sharedBase, StartDev(v, sharedBase))
  {
  }

  lemma OneMoreDrive(drives: seq<Drive>, before: seq<nat>, last: nat)
    requires last + 1 == |drives| && Chosen(drives[..last], before)
    ensures Chosen(drives, if drives[last].isHd && |drives[last].disk| >= SECTOR_SIZE then before + [last] else before)
  {
  }

  // ---------------------------------------------------------------- sectors and chunks

  /** A guest write marks exactly the chunks that hold a sector of it. */
  lemma ChunksOfSectors(sector: nat, nb: nat, c: nat)
    requires nb > 0
    ensures c in ChunksOf(sector, nb) <==> exists s: nat :: s in SectorsOf(sector, nb) && s / CHUNK_SECTORS == c
    ensures forall s: nat :: s in SectorsOf(sector, nb) <==> sector <= s < sector + nb
  {
    var first, last := sector / CHUNK_SECTORS, (sector + nb - 1) / CHUNK_SECTORS;
    if c in ChunksOf(sector, nb) {
      var s := if c == first then sector else c * CHUNK_SECTORS;
      assert s in SectorsOf(sector, nb) && s / CHUNK_SECTORS == c;
    }
  }

  // ---------------------------------------------------------------- a bulk call

  /** Where the search of a bulk call ends: at the cursor, or on a device with a shared base at the first allocated
      sector from there. */
  ghost predicate EndsAt(d: Dev, x: nat) {
    && d.curSector <= x <= d.Total()
    && if d.sharedBase then (forall y :: d.curSector <= y < x ==> y !in d.alloc) && (x < d.Total() ==> x in d.alloc)
       else x == d.curSector
  }

  /** The `n` sectors from `b` on are the chunk that holds sector `x`, cut at the end of the device. */
  ghost predicate ChunkAt(d: Dev, x: nat, b: nat, n: nat) {
    && b % CHUNK_SECTORS == 0 && b <= x < b + CHUNK_SECTORS
    && if b + CHUNK_SECTORS <= d.Total() then n == CHUNK_SECTORS else b + n == d.Total()
  }

  /** What a bulk call makes of the first incomplete device: it goes to the end, nothing is read, or the read of a
      chunk is refused or accepted. */
  ghost predicate Moves(d: Dev, ok: bool, x: nat, b: nat, n: nat, d': Dev) {
    if x == d.Total() then d' == d.(curSector := x, completedSectors := x, bulkCompleted := true)
    else if !ok then d' == d.(completedSectors := x)
    else d' == d.(curSector := b + n, completedSectors := x, dirty := d.dirty - {b / CHUNK_SECTORS},
                  bulkCompleted := b + n == d.Total())
  }

  lemma BulkDevMoves(d: Dev, ok: bool) returns (x: nat, b: nat, n: nat)
    requires d.curSector <= d.Total() && !d.bulkCompleted
    ensures EndsAt(d, x) && (x < d.Total() ==> ChunkAt(d, x, b, n) && n > 0) && Moves(d, ok, x, b, n, BulkDev(d, ok))
    ensures x == SearchEnd(d) && (x < d.Total() ==> b == BulkBase(d) && n == BulkCount(d))
  {
    x := SearchEnd(d);
    b, n := 0, 0;
    if x < d.Total() {
      b, n := BulkBase(d), BulkCount(d);
    }
  }

  /** The frames a bulk call puts on the stream: a block it read at once, a percentage that has changed. */
  ghost predicate Reports(s: State, i: nat, t: State, block: seq<Frame>)
    requires i <= |t.devs| && TotalSum(t.devs, |t.devs|) > 0
  {
    && t.prevProgress == PercentOf(CompletedSum(t.devs, Min(i + 1, |t.devs|)), TotalSum(t.devs, |t.devs|))
    && t.wire == s.wire + block + if t.prevProgress == s.prevProgress then [] else [Progress(t.prevProgress)]
  }

  /** One bulk call, on the first device that is not complete. */
  lemma BulkCallIs(s: State, e: Event) returns (x: nat, b: nat, n: nat)
    requires Enabled(s, e) && e.BulkStep? && FirstIncomplete(s.devs) < |s.devs|
    requires s.devs[FirstIncomplete(s.devs)].curSector <= s.devs[FirstIncomplete(s.devs)].Total()
    ensures var i, t := FirstIncomplete(s.devs), Step(s, e);
            var d := s.devs[i];
            && EndsAt(d, x) && (x < d.Total() ==> ChunkAt(d, x, b, n))
            && t.writes == s.writes && t.blkList == s.blkList && t.readDone == s.readDone
            && |t.devs| == |s.devs| && t.devs == s.devs[i := t.devs[i]] && Moves(d, e.ok, x, b, n, t.devs[i])
            && (t.error <==> s.error || (x < d.Total() && !e.ok))
            && (if x < d.Total() && e.ok && e.isAsync
                then t.inFlight == s.inFlight + [Blk(i, b, n, None, 0)] && t.submitted == s.submitted + 1
                else t.inFlight == s.inFlight && t.submitted == s.submitted)
            && TotalSum(t.devs, |t.devs|) > 0
            && (x < d.Total() && e.ok ==> (b + n) * SECTOR_SIZE <= |d.disk|)
            && Reports(s, i, t, if x < d.Total() && e.ok && !e.isAsync
                                then [Block(d.name, b, ReadSectors(d.disk, b, n) + e.junk)] else [])
  {
    hide TotalSum, Report, Percent, Reports, BulkBase, BulkCount, ReadSectors, EndsAt, ChunkAt, Moves, SearchEnd;
    var i := FirstIncomplete(s.devs);
    x, b, n := BulkDevMoves(s.devs[i], e.ok);
    var u := BulkState(s, e.isAsync, e.ok, e.junk);
    TotalSumSame(s.devs, u.devs, |s.devs|);
    ReportIs(s, i, u, if x < s.devs[i].Total() && e.ok && !e.isAsync
                      then [Block(s.devs[i].name, b, ReadSectors(s.devs[i].disk, b, n) + e.junk)] else []);
  }

  /** When every device is complete there is only a percentage to report. */
  lemma NothingLeft(s: State, e: Event)
    requires Enabled(s, e) && e.BulkStep? && FirstIncomplete(s.devs) == |s.devs|
    ensures var t := Step(s, e); t == s.(wire := t.wire, prevProgress := t.prevProgress) && Reports(s, |s.devs|, t, [])
  {
    hide TotalSum, Report, Reports;
    assert s.wire + [] == s.wire;
    ReportIs(s, |s.devs|, s, []);
  }

  lemma ReportIs(s: State, i: nat, u: State, block: seq<Frame>)
    requires i <= |u.devs| && TotalSum(u.devs, |u.devs|) > 0
    requires u.wire == s.wire + block && u.prevProgress == s.prevProgress
    ensures Reports(s, i, Report(u, i), block)
    ensures var t := Report(u, i); t == u.(wire := t.wire, prevProgress := t.prevProgress)
  {
    hide TotalSum, CompletedSum, PercentOf;
    assert s.wire + block + [] == s.wire + block;
  }

  /** The percentage is the part completed of the whole, rounded down. */
  lemma PercentIs(done: nat, total: nat)
    requires total > 0
    ensures PercentOf(done, total) * total <= 100 * done < (PercentOf(done, total) + 1) * total
  {
  }

  /** The sums count every device: with all or no sectors completed they are the whole or nothing. */
  lemma {:induction false} SumsOfAll(devs: seq<Dev>, n: nat)
    requires n <= |devs|
    ensures (forall i :: 0 <= i < n ==> devs[i].completedSectors == devs[i].Total()) ==>
              CompletedSum(devs, n) == TotalSum(devs, n)
    ensures (forall i :: 0 <= i < n ==> devs[i].completedSectors == 0) ==> CompletedSum(devs, n) == 0
    ensures (forall i :: 0 <= i < n ==> devs[i].Total() == 1) ==> TotalSum(devs, n) == n
  {
    if n > 0 {
      SumsOfAll(devs, n - 1);
    }
  }

  // ---------------------------------------------------------------- the queue

  /** The reads that complete in a run, in the order in which they do, each with its result. */
  ghost function Completions(s: State, es: seq<Event>): seq<Blk>
    requires Exec(s, es).Some?
  {
    if es == [] then [] else
    var t, e := Exec(s, es[..|es| - 1]).value, es[|es| - 1];
    Completions(s, es[..|es| - 1]) + if e.ReadComplete? then [t.inFlight[e.k].(ret := e.ret)] else []
  }

  /** The queued reads that a run sends, in the order in which it does. */
  ghost function Sent(s: State, es: seq<Event>): seq<Blk>
    requires Exec(s, es).Some?
  {
    if es == [] then [] else
    var t, e := Exec(s, es[..|es| - 1]).value, es[|es| - 1];
    Sent(s, es[..|es| - 1]) + if e.FlushOne? then [t.blkList[0]] else []
  }

  /** In every run blocks are sent in the order in which their reads completed, each once. */
  lemma {:induction false} SentInOrder(s: State, es: seq<Event>)
    requires Exec(s, es).Some?
    ensures Sent(s, es) + Exec(s, es).value.blkList == s.blkList + Completions(s, es)
  {
    hide Enabled, Step;
    if es == [] {
      assert s.blkList + [] == [] + s.blkList;
    } else {
      var init, e := es[..|es| - 1], es[|es| - 1];
      SentInOrder(s, init);
      var t := Exec(s, init).value;
      QueueStep(t, e);
      if e.ReadComplete? {
        assert s.blkList + Completions(s, es) == s.blkList + Completions(s, init) + [t.inFlight[e.k].(ret := e.ret)];
        assert Sent(s, init) + (t.blkList + [t.inFlight[e.k].(ret := e.ret)])
            == (Sent(s, init) + t.blkList) + [t.inFlight[e.k].(ret := e.ret)];
      } else if e.FlushOne? {
        assert Completions(s, es) == Completions(s, init);
        assert t.blkList == [t.blkList[0]] + t.blkList[1..];
        assert Sent(s, init) + [t.blkList[0]] + t.blkList[1..] == Sent(s, init) + t.blkList;
      } else {
        assert Sent(s, es) == Sent(s, init) && Completions(s, es) == Completions(s, init);
      }
    }
  }

  lemma QueueStep(s: State, e: Event)
    requires Enabled(s, e)
    ensures var t := Step(s, e);
            && (e.FlushOne? ==> s.blkList != [] && t.blkList == s.blkList[1..])
            && (e.ReadComplete? ==> e.k < |s.inFlight| && t.blkList == s.blkList + [s.inFlight[e.k].(ret := e.ret)])
            && (!e.FlushOne? && !e.ReadComplete? ==> t.blkList == s.blkList)
  {
    hide TotalSum, CompletedSum, PercentOf, SearchEnd, BulkBase, BulkCount, ReadSectors;
  }

  // ---------------------------------------------------------------- the dirty pass

  predicate Later(a: Key, b: Key) {
    a.0 < b.0 || (a.0 == b.0 && a.1 < b.1)
  }

  /** The pass sends the chunks `ks`, in order, one frame each, and cleans them. */
  ghost predicate PassSends(p: Pass, q: Pass, ks: seq<Key>) {
    && |q.wire| == |p.wire| + |ks| && q.wire[..|p.wire|] == p.wire
    && (forall j, k :: 0 <= j < k < |ks| ==> Later(ks[j], ks[k]))
    && (forall k :: 0 <= k < |ks| ==> ChunkFrame(p.devs, ks[k], q.wire[|p.wire| + k]))
    && SameButDirty(p, q)
    && forall i: nat, c: nat :: i < |p.devs| ==> (c in q.devs[i].dirty <==> c in p.devs[i].dirty && (i, c) !in ks)
  }

  ghost predicate ChunkFrame(devs: seq<Dev>, key: Key, f: Frame) {
    key.0 < |devs| &&
    var d, c := devs[key.0], key.1;
    d.Full(c) && f == Block(d.name, c * CHUNK_SECTORS, Chunk(d.disk, c))
  }

  /** The dirty, whole chunks of the devices before `i`, each up to its cursor, and of the first `n` of device `i`. */
  ghost predicate ToSend(devs: seq<Dev>, i: nat, n: nat, key: Key) {
    && key.0 < |devs| && key.1 in devs[key.0].dirty && devs[key.0].Full(key.1)
    && if key.0 == i then key.1 < n else key.0 < i && key.1 * CHUNK_SECTORS < devs[key.0].curSector
  }

  lemma NothingPassed(p: Pass)
    ensures PassSends(p, p, [])
  {
    assert p.wire[..|p.wire|] == p.wire;
  }

  lemma SendChunkSends(p: Pass, q: Pass, ks: seq<Key>, i: nat, c: nat) returns (all: seq<Key>)
    requires PassSends(p, q, ks) && i < |p.devs| && forall k :: 0 <= k < |ks| ==> Later(ks[k], (i, c))
    ensures PassSends(p, SendChunk(q, i, c), all)
    ensures all == if c in p.devs[i].dirty && p.devs[i].Full(c) then ks + [(i, c)] else ks
  {
    assert (i, c) !in ks;
    assert q.devs[i] == p.devs[i].(dirty := q.devs[i].dirty);
    all := ks;
    if c in p.devs[i].dirty && p.devs[i].Full(c) {
      all := ks + [(i, c)];
      SentOne(p, q, ks, i, c, SendChunk(q, i, c));
    }
  }

  lemma SentOne(p: Pass, q: Pass, ks: seq<Key>, i: nat, c: nat, r: Pass)
    requires PassSends(p, q, ks) && i < |p.devs| && forall k :: 0 <= k < |ks| ==> Later(ks[k], (i, c))
    requires p.devs[i].Full(c) && q.devs[i] == p.devs[i].(dirty := q.devs[i].dirty)
    requires r.devs == q.devs[i := q.devs[i].(dirty := q.devs[i].dirty - {c})]
    requires r.wire == q.wire + [Block(p.devs[i].name, c * CHUNK_SECTORS, Chunk(p.devs[i].disk, c))]
    ensures PassSends(p, r, ks + [(i, c)])
  {
    hide ChunkFrame;
    var all := ks + [(i, c)];
    assert r.wire[..|p.wire|] == q.wire[..|p.wire|];
    forall k | 0 <= k < |all|
      ensures ChunkFrame(p.devs, all[k], r.wire[|p.wire| + k])
    {
      if k < |ks| {
        assert r.wire[|p.wire| + k] == q.wire[|p.wire| + k] && all[k] == ks[k];
      } else {
        OneFrame(p.devs, i, c);
      }
    }
  }

  lemma OneFrame(devs: seq<Dev>, i: nat, c: nat)
    requires i < |devs| && devs[i].Full(c)
    ensures ChunkFrame(devs, (i, c), Block(devs[i].name, c * CHUNK_SECTORS, Chunk(devs[i].disk, c)))
  {
  }

  lemma {:induction false} SendDevSends(p: Pass, q: Pass, ks: seq<Key>, i: nat, n: nat) returns (all: seq<Key>)
    requires PassSends(p, q, ks) && i < |p.devs| == |q.devs|
    requires forall key :: key in ks <==> ToSend(p.devs, i, 0, key)
    ensures PassSends(p, SendDev(q, i, n), all) && forall key :: key in all <==> ToSend(p.devs, i, n, key)
  {
    hide PassSends, SendChunk;
    all := ks;
    if n > 0 {
      var before := SendDevSends(p, q, ks, i, n - 1);
      forall k | 0 <= k < |before|
        ensures Later(before[k], (i, n - 1))
      {
        assert before[k] in before;
      }
      all := SendChunkSends(p, SendDev(q, i, n - 1), before, i, n - 1);
    }
  }

  lemma NextDevice(devs: seq<Dev>, i: nat, key: Key)
    requires i < |devs|
    ensures ToSend(devs, i, ChunksUpTo(devs[i].curSector), key) <==> ToSend(devs, i + 1, 0, key)
  {
  }

  /** The dirty pass sends, for the first `n` devices in turn, each dirty whole chunk below the cursor, in ascending
      order, once, as the disk holds it; these become clean and nothing else changes. */
  lemma {:induction false} PassIs(p: Pass, n: nat) returns (ks: seq<Key>)
    requires n <= |p.devs|
    ensures PassSends(p, SendAll(p, n), ks) && forall key :: key in ks <==> ToSend(p.devs, n, 0, key)
  {
    hide PassSends, ToSend, SendDev, ChunksUpTo;
    ks := [];
    if n == 0 {
      NothingPassed(p);
      forall key: Key
        ensures !ToSend(p.devs, 0, 0, key)
      {
        NoneToSend(p.devs, key);
      }
    } else {
      var before := PassIs(p, n - 1);
      var q := SendAll(p, n - 1);
      ks := SendDevSends(p, q, before, n - 1, ChunksUpTo(q.devs[n - 1].curSector));
      forall key: Key
        ensures ToSend(p.devs, n - 1, ChunksUpTo(p.devs[n - 1].curSector), key) <==> ToSend(p.devs, n, 0, key)
      {
        NextDevice(p.devs, n - 1, key);
      }
    }
  }

  lemma NoneToSend(devs: seq<Dev>, key: Key)
    ensures !ToSend(devs, 0, 0, key)
  {
  }
}
