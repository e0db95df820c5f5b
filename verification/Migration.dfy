/** The step system of live block migration: guest writes, asynchronous bulk reads, the queue of
    completed reads, the wire and the destination. `Step` says what one step does; the class
    `BlkMigState` in BlockMigration.dfy carries the steps out in place. */
module Migration {
  import opened Sectors

  type Name = seq<Byte>

  /** The disks of the destination, by device name. */
  type Disks = map<Name, Disk>

  /** A source device: its block driver state (name, contents, dirty chunks, sectors allocated in
      its own image) and its migration state. */
  datatype Dev = Dev(
    name: Name, disk: Disk, dirty: set<nat>, alloc: set<nat>,
    sharedBase: bool, bulkCompleted: bool, curSector: nat, completedSectors: nat)
  {
    function Total(): nat {
      |disk| / SECTOR_SIZE
    }

    ghost predicate Covered(c: nat) {
      c * CHUNK_SECTORS < curSector
    }

    ghost predicate Full(c: nat) {
      (c + 1) * CHUNK_BYTES <= |disk|
    }
  }

  /** A bulk read: in flight (`data` is None until the read is performed) or completed. */
  datatype Blk = Blk(dev: nat, sector: nat, nr: nat, data: Option<seq<Byte>>, ret: int)

  /** A guest write that was submitted but has not reached the disk. */
  datatype GuestWrite = GuestWrite(dev: nat, sector: nat, data: seq<Byte>)
  {
    /** The write has a byte in chunk `c` of device `i`. */
    ghost predicate Touches(i: nat, c: nat) {
      dev == i && sector * SECTOR_SIZE < (c + 1) * CHUNK_BYTES && c * CHUNK_BYTES < sector * SECTOR_SIZE + |data|
    }

    /** The write would change nothing in chunk `c` of disk `d`. */
    predicate Same(d: Disk, c: nat) {
      forall p: nat ::
        c * CHUNK_BYTES <= p < (c + 1) * CHUNK_BYTES && p < |d| &&
        sector * SECTOR_SIZE <= p < sector * SECTOR_SIZE + |data|
        ==> data[p - sector * SECTOR_SIZE] == d[p]
    }
  }

  datatype Frame =
    | Block(name: Name, sector: nat, data: seq<Byte>)
    | Progress(percent: nat)
    | Eos

  datatype State = State(
    devs: seq<Dev>, writes: seq<GuestWrite>, inFlight: seq<Blk>, blkList: seq<Blk>,
    submitted: int, readDone: int, transferred: int, prevProgress: int,
    wire: seq<Frame>, error: bool)

  datatype Event =
    | GuestSubmit(dev: nat, sector: nat, data: seq<Byte>)
    | GuestPerform(k: nat)
    | BulkStep(isAsync: bool, ok: bool, junk: seq<Byte>)
    | ReadPerform(k: nat, junk: seq<Byte>)
    | ReadComplete(k: nat, ret: int)
    | FlushOne
    | FlushError
    | PutEos

  // ---------------------------------------------------------------- destination

  /** What loading one frame does to the destination. A block that does not fit on the
      disk is dropped: the loader ignores the write's return code. */
  function LoadFrame(dest: Disks, f: Frame): Disks {
    if f.Block? && f.name in dest && f.sector * SECTOR_SIZE + |f.data| <= |dest[f.name]|
    then dest[f.name := Splice(dest[f.name], f.sector * SECTOR_SIZE, f.data)]
    else dest
  }

  function Load(dest: Disks, wire: seq<Frame>): Disks {
    if wire == [] then dest else LoadFrame(Load(dest, wire[..|wire| - 1]), wire[|wire| - 1])
  }

  lemma LoadAppend(dest: Disks, wire: seq<Frame>, f: Frame)
    ensures Load(dest, wire + [f]) == LoadFrame(Load(dest, wire), f)
  {
    assert (wire + [f])[..|wire|] == wire;
  }

  // ---------------------------------------------------------------- steps

  function RemoveAt<T>(q: seq<T>, k: nat): seq<T>
    requires k < |q|
  {
    q[..k] + q[k + 1..]
  }

  /** The set of the numbers from `lo` up to, not including, `hi`. */
  function Interval(lo: nat, hi: nat): (r: set<nat>)
    ensures forall c: nat :: c in r <==> lo <= c < hi
    decreases hi - lo
  {
    if lo >= hi then {} else {lo} + Interval(lo + 1, hi)
  }

  /** The chunks that a write of `nb` sectors from `sector` marks dirty. */
  function ChunksOf(sector: nat, nb: nat): set<nat>
    requires nb > 0
  {
    Interval(sector / CHUNK_SECTORS, (sector + nb - 1) / CHUNK_SECTORS + 1)
  }

  function SectorsOf(sector: nat, nb: nat): set<nat> {
    Interval(sector, sector + nb)
  }

  /** The first allocated sector at or after `cur`. */
  function NextAllocated(alloc: set<nat>, cur: nat, total: nat): (r: nat)
    ensures cur <= total ==> cur <= r <= total
    ensures forall s :: cur <= s < r ==> s !in alloc
    ensures r < total ==> r in alloc
    decreases total - cur
  {
    if cur >= total || cur in alloc then cur else NextAllocated(alloc, cur + 1, total)
  }

  function FirstIncomplete(devs: seq<Dev>): (i: nat)
    ensures i <= |devs|
    ensures forall j :: 0 <= j < i ==> devs[j].bulkCompleted
    ensures i < |devs| ==> !devs[i].bulkCompleted
  {
    if devs == [] || !devs[0].bulkCompleted then 0 else 1 + FirstIncomplete(devs[1..])
  }

  /** Where the bulk phase of a device goes next: the sector its search stops at. */
  function SearchEnd(d: Dev): nat {
    if d.sharedBase then NextAllocated(d.alloc, d.curSector, d.Total()) else d.curSector
  }

  function BulkBase(d: Dev): (base: nat)
    ensures base <= SearchEnd(d) < base + CHUNK_SECTORS && base % CHUNK_SECTORS == 0
  {
    SearchEnd(d) - SearchEnd(d) % CHUNK_SECTORS
  }

  function BulkCount(d: Dev): (n: nat)
    requires SearchEnd(d) < d.Total()
    ensures n > 0 && BulkBase(d) + n <= d.Total()
  {
    Min(CHUNK_SECTORS, d.Total() - BulkBase(d))
  }

  function ReadSectors(d: Disk, sector: nat, nb: nat): seq<Byte>
    requires (sector + nb) * SECTOR_SIZE <= |d|
  {
    d[sector * SECTOR_SIZE..(sector + nb) * SECTOR_SIZE]
  }

  /** What mig_save_device_bulk makes of its device. */
  function SaveDev(d: Dev, ok: bool): Dev {
    if SearchEnd(d) >= d.Total() then d.(curSector := d.Total(), completedSectors := d.Total())
    else if !ok then d.(completedSectors := SearchEnd(d))
    else d.(completedSectors := SearchEnd(d), dirty := d.dirty - {BulkBase(d) / CHUNK_SECTORS},
            curSector := BulkBase(d) + BulkCount(d))
  }

  /** Whether mig_save_device_bulk reports its device as done. */
  predicate DevDone(d: Dev, ok: bool) {
    SearchEnd(d) >= d.Total() || (ok && BulkBase(d) + BulkCount(d) >= d.Total())
  }

  /** One call of mig_save_device_bulk on device `i`. */
  function SaveDevice(s: State, i: nat, isAsync: bool, ok: bool, junk: seq<Byte>): State
    requires i < |s.devs|
  {
    var d := s.devs[i];
    var t := s.(devs := s.devs[i := SaveDev(d, ok)]);
    if SearchEnd(d) >= d.Total() then t
    else if !ok then t.(error := true)
    else if isAsync then
      t.(inFlight := s.inFlight + [Blk(i, BulkBase(d), BulkCount(d), None, 0)], submitted := s.submitted + 1)
    else
      t.(wire := s.wire + [Block(d.name, BulkBase(d), ReadSectors(d.disk, BulkBase(d), BulkCount(d)) + junk)])
  }

  function BulkDev(d: Dev, ok: bool): Dev {
    SaveDev(d, ok).(bulkCompleted := d.bulkCompleted || DevDone(d, ok))
  }

  /** The same, with the device marked completed when it reports so. */
  function BulkDevice(s: State, i: nat, isAsync: bool, ok: bool, junk: seq<Byte>): State
    requires i < |s.devs|
  {
    SaveDevice(s, i, isAsync, ok, junk).(devs := s.devs[i := BulkDev(s.devs[i], ok)])
  }

  function CompletedSum(devs: seq<Dev>, n: nat): nat
    requires n <= |devs|
  {
    if n == 0 then 0 else CompletedSum(devs, n - 1) + devs[n - 1].completedSectors
  }

  function TotalSum(devs: seq<Dev>, n: nat): nat
    requires n <= |devs|
  {
    if n == 0 then 0 else TotalSum(devs, n - 1) + devs[n - 1].Total()
  }

  function PercentOf(done: nat, total: nat): nat
    requires total > 0
  {
    done * 100 / total
  }

  /** The percentage reported after visiting device `i`, the first incomplete one. */
  function Percent(s: State, i: nat): nat
    requires i <= |s.devs| && TotalSum(s.devs, |s.devs|) > 0
  {
    PercentOf(CompletedSum(s.devs, Min(i + 1, |s.devs|)), TotalSum(s.devs, |s.devs|))
  }

  lemma PercentMonotone(a: nat, b: nat, total: nat)
    requires a <= b && total > 0
    ensures PercentOf(a, total) <= PercentOf(b, total)
  {
    var p, q := PercentOf(a, total), PercentOf(b, total);
    if q + 1 <= p {
      TimesMonotone(q + 1, p, total);
    }
  }

  lemma TimesMonotone(x: nat, y: nat, z: nat)
    requires x <= y
    ensures x * z <= y * z
  {
  }

  lemma AllDoneIsHundred(total: nat)
    requires total > 0
    ensures PercentOf(total, total) == 100
  {
  }

  lemma CompletedAtMostTotal(devs: seq<Dev>, n: nat)
    requires n <= |devs| && forall i :: 0 <= i < |devs| ==> devs[i].completedSectors <= devs[i].Total()
    ensures CompletedSum(devs, n) <= TotalSum(devs, n)
  {
  }

  function Report(s: State, i: nat): State
    requires i <= |s.devs| && TotalSum(s.devs, |s.devs|) > 0
  {
    var p := Percent(s, i);
    if p != s.prevProgress then s.(prevProgress := p, wire := s.wire + [Progress(p)]) else s
  }

  function BulkState(s: State, isAsync: bool, ok: bool, junk: seq<Byte>): (r: State)
    ensures |r.devs| == |s.devs|
    ensures forall j :: 0 <= j < |s.devs| ==> r.devs[j].disk == s.devs[j].disk
  {
    var i := FirstIncomplete(s.devs);
    if i < |s.devs| then BulkDevice(s, i, isAsync, ok, junk) else s
  }

  lemma TotalSumSame(a: seq<Dev>, b: seq<Dev>, n: nat)
    requires |a| == |b| && n <= |a|
    requires forall j :: 0 <= j < |a| ==> a[j].disk == b[j].disk
    ensures TotalSum(a, n) == TotalSum(b, n)
  {
  }

  predicate Enabled(s: State, e: Event) {
    match e
    case GuestSubmit(i, sector, data) =>
      i < |s.devs| && |data| > 0 && |data| % SECTOR_SIZE == 0 && sector * SECTOR_SIZE + |data| <= |s.devs[i].disk|
    case GuestPerform(k) =>
      k < |s.writes| && s.writes[k].dev < |s.devs|
      && s.writes[k].sector * SECTOR_SIZE + |s.writes[k].data| <= |s.devs[s.writes[k].dev].disk|
    case BulkStep(isAsync, ok, junk) =>
      var i := FirstIncomplete(s.devs);
      TotalSum(s.devs, |s.devs|) > 0
      && (!isAsync && i < |s.devs| && SearchEnd(s.devs[i]) < s.devs[i].Total() ==>
            |junk| == CHUNK_BYTES - BulkCount(s.devs[i]) * SECTOR_SIZE)
    case ReadPerform(k, junk) =>
      k < |s.inFlight| && s.inFlight[k].data == None && s.inFlight[k].dev < |s.devs|
      && (s.inFlight[k].sector + s.inFlight[k].nr) * SECTOR_SIZE <= |s.devs[s.inFlight[k].dev].disk|
      && |junk| + s.inFlight[k].nr * SECTOR_SIZE == CHUNK_BYTES
    case ReadComplete(k, ret) => k < |s.inFlight| && (ret >= 0 ==> s.inFlight[k].data.Some?)
    case FlushOne =>
      s.blkList != [] && s.blkList[0].ret >= 0 && s.blkList[0].data.Some? && s.blkList[0].dev < |s.devs|
    case FlushError => s.blkList != [] && s.blkList[0].ret < 0
    case PutEos => true
  }

  function PerformWrite(d: Dev, w: GuestWrite): Dev
    requires w.sector * SECTOR_SIZE + |w.data| <= |d.disk|
  {
    d.(disk := Splice(d.disk, w.sector * SECTOR_SIZE, w.data),
       alloc := d.alloc + SectorsOf(w.sector, |w.data| / SECTOR_SIZE))
  }

  ghost function Step(s: State, e: Event): State
    requires Enabled(s, e)
  {
    match e
    case GuestSubmit(i, sector, data) =>
      var d := s.devs[i];
      s.(devs := s.devs[i := d.(dirty := d.dirty + ChunksOf(sector, |data| / SECTOR_SIZE))],
         writes := s.writes + [GuestWrite(i, sector, data)])
    case GuestPerform(k) =>
      var w := s.writes[k];
      s.(devs := s.devs[w.dev := PerformWrite(s.devs[w.dev], w)], writes := RemoveAt(s.writes, k))
    case BulkStep(isAsync, ok, junk) =>
      var t := BulkState(s, isAsync, ok, junk);
      TotalSumSame(s.devs, t.devs, |s.devs|);
      Report(t, FirstIncomplete(s.devs))
    case ReadPerform(k, junk) =>
      var b := s.inFlight[k];
      s.(inFlight := s.inFlight[k := b.(data := Some(ReadSectors(s.devs[b.dev].disk, b.sector, b.nr) + junk))])
    case ReadComplete(k, ret) =>
      s.(inFlight := RemoveAt(s.inFlight, k), blkList := s.blkList + [s.inFlight[k].(ret := ret)],
         submitted := s.submitted - 1, readDone := s.readDone + 1)
    case FlushOne =>
      var b := s.blkList[0];
      s.(blkList := s.blkList[1..], wire := s.wire + [Block(s.devs[b.dev].name, b.sector, b.data.value)],
         readDone := s.readDone - 1, transferred := s.transferred + 1)
    case FlushError => s.(error := true)
    case PutEos => s.(wire := s.wire + [Eos])
  }

  /** The state after the events `es`, or None when one of them was not possible. */
  ghost function Exec(s: State, es: seq<Event>): Option<State> {
    if es == [] then Some(s) else
    match Exec(s, es[..|es| - 1])
    case None => None
    case Some(t) => if Enabled(t, es[|es| - 1]) then Some(Step(t, es[|es| - 1])) else None
  }

  ghost function After(s: State, es: seq<Event>): State {
    match Exec(s, es)
    case Some(t) => t
    case None => s
  }

  lemma ExecAppend(s: State, es: seq<Event>, e: Event)
    requires Exec(s, es).Some? && Enabled(Exec(s, es).value, e)
    ensures Exec(s, es + [e]) == Some(Step(Exec(s, es).value, e))
  {
    assert (es + [e])[..|es|] == es;
  }

  /** The search of a bulk call passes over chunk `c`: no sector of it is allocated. */
  ghost predicate Skips(d: Dev, ok: bool, c: nat) {
    && d.curSector <= c * CHUNK_SECTORS && c * CHUNK_BYTES < |d.disk|
    && (SearchEnd(d) >= d.Total() || (ok && c < BulkBase(d) / CHUNK_SECTORS))
  }

  /** A bulk call reads chunk `c`. */
  ghost predicate Reads(d: Dev, ok: bool, c: nat) {
    SearchEnd(d) < d.Total() && ok && c == BulkBase(d) / CHUNK_SECTORS
  }

  /** A chunk for which step `e` settles what the destination gets, unless it will be sent again: that of a
      read performed while the chunk is clean, of a synchronous bulk read, which cleans it, and the clean
      chunks that the search for allocated sectors passes over. */
  ghost predicate Takes(s: State, e: Event, i: nat, c: nat) {
    match e
    case ReadPerform(k, _) =>
      k < |s.inFlight| && s.inFlight[k].dev == i < |s.devs| && c == s.inFlight[k].sector / CHUNK_SECTORS &&
          c !in s.devs[i].dirty
    case BulkStep(isAsync, ok, _) =>
      i == FirstIncomplete(s.devs) < |s.devs|
      && ((!isAsync && Reads(s.devs[i], ok, c)) || (Skips(s.devs[i], ok, c) && c !in s.devs[i].dirty))
    case _ => false
  }

  /** Step `e` settles no chunk that an outstanding guest write has yet to change. */
  ghost predicate NoRace(s: State, e: Event) {
    forall i: nat, c: nat :: Takes(s, e, i, c) ==> forall w :: w in s.writes && w.dev == i ==> w.Same(s.devs[i].disk, c)
  }

  ghost predicate RaceFree(s: State, es: seq<Event>) {
    es == [] ||
    (RaceFree(s, es[..|es| - 1]) &&
     (Exec(s, es[..|es| - 1]).Some? ==> NoRace(Exec(s, es[..|es| - 1]).value, es[|es| - 1])))
  }

  /** The run `es` leads from `s` to `t`, without a race. */
  ghost predicate Runs(s: State, es: seq<Event>, t: State) {
    Exec(s, es) == Some(t) && RaceFree(s, es)
  }

  lemma RunsOn(s: State, es: seq<Event>, t: State, e: Event)
    requires Runs(s, es, t) && Enabled(t, e) && NoRace(t, e)
    ensures Runs(s, es + [e], Step(t, e))
  {
    ExecAppend(s, es, e);
    assert (es + [e])[..|es|] == es;
  }

  lemma {:induction false} RunsConcat(s: State, es: seq<Event>, t: State, fs: seq<Event>, u: State)
    requires Runs(s, es, t) && Runs(t, fs, u)
    ensures Runs(s, es + fs, u)
  {
    hide Enabled, Step, NoRace;
    if fs == [] {
      assert es + fs == es;
    } else {
      var init, e := fs[..|fs| - 1], fs[|fs| - 1];
      var v := Exec(t, init).value;
      RunsConcat(s, es, t, init, v);
      RunsOn(s, es + init, v, e);
      assert es + init + [e] == es + fs;
    }
  }
}
