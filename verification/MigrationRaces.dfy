/** Which steps of a migration lose a guest write, exactly: those that settle a chunk which an outstanding write
    has yet to change. */
module MigrationRaces {
  import opened Sectors
  import opened Migration
  import opened MigrationSafety
  import opened MigrationResult
  import opened BlockMigration

  // ---------------------------------------------------------------- continuations

  /** A run without a race leads from `s` to `t`. */
  ghost predicate Leads(s: State, t: State) {
    exists es :: Runs(s, es, t)
  }

  /** Migration can go on from `s` and end in `t`: no guest write outstanding, nothing left to read or send. */
  ghost predicate Completes(s: State, t: State) {
    Leads(s, t) && Drained(t) && t.writes == []
  }

  lemma LeadsToItself(s: State)
    ensures Leads(s, s)
  {
    assert Runs(s, [], s);
  }

  lemma NoSteps(s: State)
    ensures Runs(s, [], s)
  {
  }

  lemma LeadsOn(s: State, e: Event, t: State)
    requires Enabled(s, e) && NoRace(s, e) && Leads(Step(s, e), t)
    ensures Leads(s, t)
  {
    hide Step, Enabled, NoRace, Runs;
    var es :| Runs(Step(s, e), es, t);
    NoSteps(s);
    RunsOn(s, [], s, e);
    RunsConcat(s, [] + [e], Step(s, e), es, t);
  }

  /** The same devices, as large as they were. */
  ghost predicate SameSizes(a: seq<Dev>, b: seq<Dev>) {
    |a| == |b| && forall i :: 0 <= i < |a| ==> a[i].name == b[i].name && |a[i].disk| == |b[i].disk|
  }

  lemma StepKeepsSizes(s: State, e: Event)
    requires Enabled(s, e)
    ensures SameSizes(s.devs, Step(s, e).devs)
  {
    if e.BulkStep? {
      BulkShape(s, e);
      hide Step, BulkDev;
      if FirstIncomplete(s.devs) < |s.devs| {
        BulkDevKeepsSize(s.devs[FirstIncomplete(s.devs)], e.ok);
      }
    }
  }

  lemma BulkDevKeepsSize(d: Dev, ok: bool)
    ensures BulkDev(d, ok).name == d.name && BulkDev(d, ok).disk == d.disk
  {
  }

  lemma {:induction false} RunKeepsSizes(s: State, es: seq<Event>)
    requires Exec(s, es).Some?
    ensures SameSizes(s.devs, Exec(s, es).value.devs)
  {
    if es != [] {
      RunKeepsSizes(s, es[..|es| - 1]);
      StepKeepsSizes(Exec(s, es[..|es| - 1]).value, es[|es| - 1]);
    }
  }

  /** From a state with the invariant every continuation ends with the destination equal to the source. */
  lemma SafeCompletions(s: State, t: State, dest0: Disks)
    requires Inv(s, dest0, Load(dest0, s.wire)) && WholeChunks(s.devs) && Completes(s, t)
    ensures EndsSame(t, dest0)
  {
    var es :| Runs(s, es, t);
    RunKeepsInv(s, es, dest0);
    RunKeepsSizes(s, es);
    DrainedEndsSame(t, dest0);
  }

  // ---------------------------------------------------------------- a chunk sent with old data

  /** `s`, had the chunks `cs` of device `i` been marked dirty again. */
  ghost function Redirty(s: State, i: nat, cs: set<nat>): State
    requires i < |s.devs|
  {
    s.(devs := s.devs[i := s.devs[i].(dirty := s.devs[i].dirty + cs)])
  }

  /** The bulk phase is done with the chunks `cs`. */
  ghost predicate Done(d: Dev, cs: set<nat>) {
    forall c :: c in cs ==> d.Covered(c)
  }

  /** Chunks the bulk phase is done with stay so, and as clean or dirty as they were. */
  ghost predicate DoneKept(d: Dev, d': Dev) {
    forall c: nat :: d.Covered(c) ==> d'.Covered(c) && (c in d'.dirty <==> c in d.dirty)
  }

  /** Chunk `c` of device `i` reaches the destination as `x`: whatever is queued for it holds `x`, and once
      nothing is, the destination does. */
  ghost predicate Sent(s: State, dest: Disks, i: nat, c: nat, x: seq<Byte>)
    requires i < |s.devs| && s.devs[i].name in dest && (c + 1) * CHUNK_BYTES <= |dest[s.devs[i].name]|
  {
    && (forall b :: (b in s.inFlight || b in s.blkList) && b.dev == i && b.sector == c * CHUNK_SECTORS ==>
        b.data == Some(x))
    && (!Pending(s, i, c) ==> Chunk(dest[s.devs[i].name], c) == x)
  }

  /** Migration is on course but for chunks `cs` of device `i`, which the bulk phase is done with; one of them,
      `c`, is clean and sent as `x`. */
  ghost predicate Stale(s: State, dest0: Disks, i: nat, cs: set<nat>, c: nat, x: seq<Byte>) {
    && i < |s.devs| && Inv(Redirty(s, i, cs), dest0, Load(dest0, s.wire))
    && DevsOk(s.devs, Load(dest0, s.wire)) && Done(s.devs[i], cs)
    && c !in s.devs[i].dirty && s.devs[i].Covered(c) && s.devs[i].Full(c)
    && (forall b :: b in s.blkList ==> b.ret >= 0)
    && Sent(s, Load(dest0, s.wire), i, c, x)
  }

  /** The steps of a continuation that first performs the guest writes and then drains the queues. */
  ghost predicate Settles(s: State, e: Event) {
    match e
    case GuestPerform(_) => true
    case ReadPerform(_, _) => s.writes == []
    case ReadComplete(_, ret) => ret >= 0
    case FlushOne => true
    case BulkStep(isAsync, ok, _) => !isAsync && ok && s.writes == []
    case _ => false
  }

  lemma SettlesNoRace(s: State, e: Event)
    requires Settles(s, e)
    ensures NoRace(s, e)
  {
  }

  /** A bulk call that moves device `d` on works past the chunks it is done with. */
  lemma RedirtyDev(d: Dev, cs: set<nat>)
    requires Done(d, cs) && DevOk(d) && !d.bulkCompleted
    ensures var r := d.(dirty := d.dirty + cs);
            BulkDev(r, true) == BulkDev(d, true).(dirty := BulkDev(d, true).dirty + cs)
    ensures DoneKept(d, BulkDev(d, true))
  {
    assert d.curSector <= SearchEnd(d);
    var k := BulkBase(d) / CHUNK_SECTORS;
    assert !d.Covered(k);
    assert (d.dirty + cs) - {k} == (d.dirty - {k}) + cs;
  }

  lemma RedirtyDevice(s: State, i: nat, cs: set<nat>, j: nat, junk: seq<Byte>)
    requires i < |s.devs| && j < |s.devs| && Done(s.devs[i], cs)
    requires DevOk(s.devs[i]) && !s.devs[j].bulkCompleted
    ensures var m := BulkDevice(s, j, false, true, junk);
            && BulkDevice(Redirty(s, i, cs), j, false, true, junk) == Redirty(m, i, cs)
            && DoneKept(s.devs[i], m.devs[i])
  {
    var m, n := BulkDevice(s, j, false, true, junk), BulkDevice(Redirty(s, i, cs), j, false, true, junk);
    RedirtySave(s, i, cs, j, junk);
    if j == i {
      RedirtyDev(s.devs[i], cs);
    }
    hide BulkDev, SaveDevice;
    assert n.devs == Redirty(m, i, cs).devs;
  }

  lemma RedirtySave(s: State, i: nat, cs: set<nat>, j: nat, junk: seq<Byte>)
    requires i < |s.devs| && j < |s.devs|
    ensures var m, n := SaveDevice(s, j, false, true, junk), SaveDevice(Redirty(s, i, cs), j, false, true, junk);
            n.(devs := m.devs) == m
  {
  }

  lemma RedirtyBulk(s: State, i: nat, cs: set<nat>, junk: seq<Byte>)
    requires i < |s.devs| && Done(s.devs[i], cs) && DevOk(s.devs[i])
    ensures var m := BulkState(s, false, true, junk);
            && BulkState(Redirty(s, i, cs), false, true, junk) == Redirty(m, i, cs)
            && DoneKept(s.devs[i], m.devs[i])
  {
    hide BulkDevice;
    FirstSame(s.devs, Redirty(s, i, cs).devs);
    if FirstIncomplete(s.devs) < |s.devs| {
      RedirtyDevice(s, i, cs, FirstIncomplete(s.devs), junk);
    }
  }

  lemma RedirtyEnabled(s: State, i: nat, cs: set<nat>, e: Event)
    requires i < |s.devs| && Enabled(s, e)
    ensures FirstIncomplete(Redirty(s, i, cs).devs) == FirstIncomplete(s.devs) && Enabled(Redirty(s, i, cs), e)
  {
    FirstSame(s.devs, Redirty(s, i, cs).devs);
    TotalSumSame(s.devs, Redirty(s, i, cs).devs, |s.devs|);
  }

  lemma RedirtyReport(m: State, i: nat, cs: set<nat>, j: nat)
    requires i < |m.devs| && j <= |m.devs| && TotalSum(m.devs, |m.devs|) > 0
    ensures TotalSum(Redirty(m, i, cs).devs, |m.devs|) > 0
    ensures Report(Redirty(m, i, cs), j) == Redirty(Report(m, j), i, cs)
  {
    var n := Redirty(m, i, cs);
    TotalSumSame(m.devs, n.devs, |m.devs|);
    SumsSame(m.devs, n.devs, Min(j + 1, |m.devs|));
  }

  lemma FirstSame(a: seq<Dev>, b: seq<Dev>)
    requires |a| == |b| && forall j :: 0 <= j < |a| ==> a[j].bulkCompleted == b[j].bulkCompleted
    ensures FirstIncomplete(a) == FirstIncomplete(b)
  {
  }

  lemma SumsSame(a: seq<Dev>, b: seq<Dev>, n: nat)
    requires n <= |a| == |b| && forall j :: 0 <= j < |a| ==> a[j].completedSectors == b[j].completedSectors
    ensures CompletedSum(a, n) == CompletedSum(b, n)
  {
  }

  /** A settling step does the same whether the chunks are marked or not, and leaves them as they are. */
  lemma RedirtyStep(s: State, i: nat, cs: set<nat>, e: Event)
    requires i < |s.devs| && Enabled(s, e) && Settles(s, e)
    requires Done(s.devs[i], cs) && DevOk(s.devs[i])
    ensures Enabled(Redirty(s, i, cs), e) && Step(Redirty(s, i, cs), e) == Redirty(Step(s, e), i, cs)
    ensures DoneKept(s.devs[i], Step(s, e).devs[i])
  {
    hide Step, Enabled, BulkState, DoneKept;
    RedirtyEnabled(s, i, cs, e);
    if e.BulkStep? {
      RedirtyBulkStep(s, i, cs, e);
    } else {
      RedirtyOtherStep(s, i, cs, e);
    }
  }

  lemma RedirtyOtherStep(s: State, i: nat, cs: set<nat>, e: Event)
    requires i < |s.devs| && Enabled(s, e) && Settles(s, e) && !e.BulkStep? && Enabled(Redirty(s, i, cs), e)
    ensures Step(Redirty(s, i, cs), e) == Redirty(Step(s, e), i, cs) && DoneKept(s.devs[i], Step(s, e).devs[i])
  {
    assert Step(Redirty(s, i, cs), e).devs == Redirty(Step(s, e), i, cs).devs;
  }

  lemma RedirtyBulkStep(s: State, i: nat, cs: set<nat>, e: Event)
    requires i < |s.devs| && Enabled(s, e) && e.BulkStep? && Settles(s, e)
    requires Done(s.devs[i], cs) && DevOk(s.devs[i])
    requires Enabled(Redirty(s, i, cs), e) && FirstIncomplete(Redirty(s, i, cs).devs) == FirstIncomplete(s.devs)
    ensures Step(Redirty(s, i, cs), e) == Redirty(Step(s, e), i, cs)
    ensures DoneKept(s.devs[i], Step(s, e).devs[i])
  {
    hide BulkState, Report, TotalSum;
    RedirtyBulk(s, i, cs, e.junk);
    var m := BulkState(s, false, true, e.junk);
    TotalSumSame(s.devs, m.devs, |s.devs|);
    RedirtyReport(m, i, cs, FirstIncomplete(s.devs));
    ReportKeepsDevs(m, FirstIncomplete(s.devs));
  }

  lemma ReportKeepsDevs(m: State, j: nat)
    requires j <= |m.devs| && TotalSum(m.devs, |m.devs|) > 0
    ensures Report(m, j).devs == m.devs
  {
  }

  lemma PerformKeepsSent(s: State, e: Event, dest0: Disks, i: nat, cs: set<nat>, c: nat, x: seq<Byte>)
    requires Stale(s, dest0, i, cs, c, x) && Enabled(s, e) && (e.GuestPerform? || e.ReadPerform?)
    ensures var t := Step(s, e);
            && t.wire == s.wire && t.devs[i].name == s.devs[i].name
            && Sent(t, Load(dest0, t.wire), i, c, x)
  {
    hide Inv, DevsOk, Chunk;
    if e.ReadPerform? {
      var b := s.inFlight[e.k];
      var b' := Step(s, e).inFlight[e.k];
      assert b in s.inFlight;
      StaleQueues(s, dest0, i, cs, c, x);
      KeysUpdate(s.inFlight, e.k, b');
      assert forall a :: a in Step(s, e).inFlight ==> a in s.inFlight || a == b';
    }
  }

  lemma StaleQueues(s: State, dest0: Disks, i: nat, cs: set<nat>, c: nat, x: seq<Byte>)
    requires Stale(s, dest0, i, cs, c, x)
    ensures Distinct(s.inFlight) && Distinct(s.blkList) && Keys(s.inFlight) !! Keys(s.blkList)
    ensures forall b :: b in s.inFlight ==> BlkOk(Redirty(s, i, cs).devs, b) && b.ret == 0
    ensures forall b :: b in s.blkList ==> BlkOk(Redirty(s, i, cs).devs, b) && b.data.Some?
    ensures DevOk(s.devs[i])
  {
  }

  lemma CompleteKeepsSent(s: State, e: Event, dest0: Disks, i: nat, cs: set<nat>, c: nat, x: seq<Byte>)
    requires Stale(s, dest0, i, cs, c, x) && Enabled(s, e) && e.ReadComplete?
    ensures var t := Step(s, e);
            && t.wire == s.wire && t.devs == s.devs && Sent(t, Load(dest0, t.wire), i, c, x)
  {
    var b := s.inFlight[e.k];
    var b' := b.(ret := e.ret);
    var t := Step(s, e);
    StaleQueues(s, dest0, i, cs, c, x);
    hide Stale, Inv, DevsOk, Chunk;
    assert b in s.inFlight && (b.dev, b.sector) in Keys(s.inFlight);
    KeysRemove(s.inFlight, e.k);
    KeysAppend(s.blkList, b');
    assert forall a :: a in t.blkList ==> a in s.blkList || a == b';
    assert PendingKeys(t) == PendingKeys(s);
  }

  lemma FlushKeepsSent(s: State, e: Event, dest0: Disks, i: nat, cs: set<nat>, c: nat, x: seq<Byte>)
    requires Stale(s, dest0, i, cs, c, x) && Enabled(s, e) && e.FlushOne?
    ensures var t := Step(s, e);
            && t.devs == s.devs && DevsOk(s.devs, Load(dest0, t.wire))
            && Sent(t, Load(dest0, t.wire), i, c, x)
  {
    hide Inv, DevsOk, Chunk, BlkOk, LoadFrame;
    var b := s.blkList[0];
    var t := Step(s, e);
    var f := Block(s.devs[b.dev].name, b.sector, b.data.value);
    StaleHead(s, dest0, i, cs, c, x);
    LoadAppend(dest0, s.wire, f);
    LoadBlockChunk(Load(dest0, s.wire), s.devs, b.dev, b.sector, b.data.value);
  }

  lemma StaleHead(s: State, dest0: Disks, i: nat, cs: set<nat>, c: nat, x: seq<Byte>)
    requires Stale(s, dest0, i, cs, c, x) && s.blkList != []
    ensures var b := s.blkList[0];
            && b in s.blkList && b.dev < |s.devs| && b.sector % CHUNK_SECTORS == 0 && b.data.Some?
            && |b.data.value| == CHUNK_BYTES
            && forall t: State :: t.inFlight == s.inFlight && t.blkList == s.blkList[1..] ==>
                 PendingKeys(t) == PendingKeys(s) - {(b.dev, b.sector)}
  {
    var b := s.blkList[0];
    StaleQueues(s, dest0, i, cs, c, x);
    assert BlkOk(Redirty(s, i, cs).devs, b);
    hide Stale, BlkOk;
    assert b in s.blkList && (b.dev, b.sector) in Keys(s.blkList);
    assert s.blkList[1..] == RemoveAt(s.blkList, 0);
    KeysRemove(s.blkList, 0);
  }

  lemma BulkWire(s: State, e: Event, i: nat)
    requires Enabled(s, e) && e.BulkStep? && Settles(s, e) && i < |s.devs|
    ensures var j, m := FirstIncomplete(s.devs), BulkState(s, false, true, e.junk);
            && m.inFlight == s.inFlight && m.blkList == s.blkList && m.devs[i].name == s.devs[i].name
            && m.wire == s.wire +
                 if SubmitsAt(s, j) then
                   [Block(s.devs[j].name, BulkBase(s.devs[j]),
                          ReadSectors(s.devs[j].disk, BulkBase(s.devs[j]), BulkCount(s.devs[j])) + e.junk)]
                 else []
  {
  }

  /** A block of another chunk leaves a chunk of the destination alone. */
  lemma LoadElsewhere(dest: Disks, devs: seq<Dev>, j: nat, base: nat, data: seq<Byte>, i: nat, c: nat)
    requires DevsOk(devs, dest) && j < |devs| && |data| == CHUNK_BYTES && base % CHUNK_SECTORS == 0
    requires i < |devs| && c * CHUNK_BYTES < |devs[i].disk| && (j != i || base / CHUNK_SECTORS != c)
    ensures var dest' := LoadFrame(dest, Block(devs[j].name, base, data));
            DevsOk(devs, dest') && Chunk(dest'[devs[i].name], c) == Chunk(dest[devs[i].name], c)
  {
    hide DevsOk, Chunk;
    LoadBlockChunk(dest, devs, j, base, data);
  }

  lemma NextIsAhead(d: Dev, c: nat)
    requires DevOk(d) && !d.bulkCompleted && d.Covered(c)
    ensures BulkBase(d) / CHUNK_SECTORS != c
  {
    assert d.curSector <= SearchEnd(d);
  }

  /** A bulk call sends at most one block, of a chunk ahead of its device's cursor. */
  lemma BulkKeepsSent(s: State, e: Event, dest0: Disks, i: nat, cs: set<nat>, c: nat, x: seq<Byte>)
    requires Stale(s, dest0, i, cs, c, x) && Enabled(s, e) && e.BulkStep? && Settles(s, e)
    ensures var m := BulkState(s, false, true, e.junk);
            && DevsOk(s.devs, Load(dest0, m.wire)) && m.inFlight == s.inFlight && m.blkList == s.blkList
            && m.devs[i].name == s.devs[i].name && Sent(m, Load(dest0, m.wire), i, c, x)
  {
    hide Inv, DevsOk, BulkState, Chunk, LoadFrame, Load;
    var j := FirstIncomplete(s.devs);
    StaleDevs(s, dest0, i, cs, c, x);
    BulkWire(s, e, i);
    if SubmitsAt(s, j) {
      var d := s.devs[j];
      var data := ReadSectors(d.disk, BulkBase(d), BulkCount(d)) + e.junk;
      if j == i {
        NextIsAhead(d, c);
      }
      LoadAppend(dest0, s.wire, Block(d.name, BulkBase(d), data));
      LoadElsewhere(Load(dest0, s.wire), s.devs, j, BulkBase(d), data, i, c);
    } else {
      assert s.wire + [] == s.wire;
    }
  }

  lemma StaleDevs(s: State, dest0: Disks, i: nat, cs: set<nat>, c: nat, x: seq<Byte>)
    requires Stale(s, dest0, i, cs, c, x)
    ensures forall j :: 0 <= j < |s.devs| ==> DevOk(s.devs[j])
  {
    forall j | 0 <= j < |s.devs|
      ensures DevOk(s.devs[j])
    {
      assert DevOk(Redirty(s, i, cs).devs[j]);
    }
  }

  lemma ReportKeepsSent(m: State, j: nat, dest0: Disks, i: nat, c: nat, x: seq<Byte>)
    requires j <= |m.devs| && TotalSum(m.devs, |m.devs|) > 0
    requires i < |m.devs| && m.devs[i].name in Load(dest0, m.wire)
    requires (c + 1) * CHUNK_BYTES <= |Load(dest0, m.wire)[m.devs[i].name]|
    requires Sent(m, Load(dest0, m.wire), i, c, x)
    ensures var t := Report(m, j);
            && t.devs == m.devs && Load(dest0, t.wire) == Load(dest0, m.wire)
            && Sent(t, Load(dest0, t.wire), i, c, x)
  {
    LoadAppend(dest0, m.wire, Progress(Percent(m, j)));
  }

  lemma BulkStepKeepsSent(s: State, e: Event, dest0: Disks, i: nat, cs: set<nat>, c: nat, x: seq<Byte>)
    requires Stale(s, dest0, i, cs, c, x) && Enabled(s, e) && e.BulkStep? && Settles(s, e)
    ensures var t := Step(s, e);
            && t.devs[i].name == s.devs[i].name && t.blkList == s.blkList
            && DevsOk(s.devs, Load(dest0, t.wire)) && Sent(t, Load(dest0, t.wire), i, c, x)
  {
    BulkKeepsSent(s, e, dest0, i, cs, c, x);
    var m := BulkState(s, false, true, e.junk);
    TotalSumSame(s.devs, m.devs, |s.devs|);
    ReportKeepsSent(m, FirstIncomplete(s.devs), dest0, i, c, x);
    BulkShape(s, e);
  }

  /** A settling step keeps the chunk stale. */
  lemma StepStale(s: State, e: Event, dest0: Disks, i: nat, cs: set<nat>, c: nat, x: seq<Byte>)
    requires Stale(s, dest0, i, cs, c, x) && Enabled(s, e) && Settles(s, e)
    ensures NoRace(s, e) && Stale(Step(s, e), dest0, i, cs, c, x)
  {
    hide Inv, DevsOk, Sent, Step, Enabled, NoRace, BlkOk, Load;
    var r := Redirty(s, i, cs);
    var t := Step(s, e);
    StaleQueues(s, dest0, i, cs, c, x);
    RedirtyStep(s, i, cs, e);
    SettlesNoRace(s, e);
    SettlesNoRace(r, e);
    StepKeepsInv(r, e, dest0);
    StepKeepsSizes(s, e);
    SentStep(s, e, dest0, i, cs, c, x);
    SameDevsOk(Redirty(t, i, cs).devs, t.devs, Load(dest0, t.wire));
  }

  lemma SameDevsOk(a: seq<Dev>, b: seq<Dev>, dest: Disks)
    requires DevsOk(a, dest) && |a| == |b| && forall j :: 0 <= j < |a| ==> b[j] == a[j].(dirty := b[j].dirty)
    ensures DevsOk(b, dest)
  {
  }

  lemma SentStep(s: State, e: Event, dest0: Disks, i: nat, cs: set<nat>, c: nat, x: seq<Byte>)
    requires Stale(s, dest0, i, cs, c, x) && Enabled(s, e) && Settles(s, e)
    ensures var t := Step(s, e);
            && i < |t.devs| && t.devs[i].name == s.devs[i].name && (forall b :: b in t.blkList ==> b.ret >= 0)
            && t.devs[i].name in Load(dest0, t.wire) && |Load(dest0, t.wire)[t.devs[i].name]| == |s.devs[i].disk|
            && Sent(t, Load(dest0, t.wire), i, c, x)
  {
    hide Sent, Inv;
    match e
    case GuestPerform(_) => PerformKeepsSent(s, e, dest0, i, cs, c, x);
    case ReadPerform(_, _) => PerformKeepsSent(s, e, dest0, i, cs, c, x);
    case ReadComplete(_, _) => CompleteKeepsSent(s, e, dest0, i, cs, c, x);
    case FlushOne => FlushKeepsSent(s, e, dest0, i, cs, c, x);
    case BulkStep(_, _, _) => BulkStepKeepsSent(s, e, dest0, i, cs, c, x);
  }

  // ---------------------------------------------------------------- how a chunk gets stale

  lemma RedirtyWrites(s: State, i: nat, cs: set<nat>)
    requires WritesOk(s) && i < |s.devs|
    ensures WritesOk(Redirty(s, i, cs))
  {
    var r := Redirty(s, i, cs);
    assert WaitingKeys(r) == WaitingKeys(s);
    forall w | w in r.writes
      ensures WriteOk(r.devs, WaitingKeys(r), w)
    {
      WriteStaysOk(s.devs, WaitingKeys(s), r.devs, WaitingKeys(r), w);
    }
  }

  /** Marking chunks dirty keeps the invariant. */
  lemma RedirtyKeepsInv(s: State, dest0: Disks, dest: Disks, i: nat, cs: set<nat>)
    requires Inv(s, dest0, dest) && i < |s.devs|
    ensures Inv(Redirty(s, i, cs), dest0, dest)
  {
    hide QueuesOk, WritesOk, BaseOk, DevsOk, ChunksOk;
    RedirtyWrites(s, i, cs);
    MoreDirtyQueues(s, Redirty(s, i, cs));
    ChunksStay(s, Redirty(s, i, cs), dest0, dest);
  }

  lemma WholeRead(d: Disk, sector: nat, nr: nat)
    requires |d| % CHUNK_BYTES == 0 && sector % CHUNK_SECTORS == 0
    requires nr > 0 && nr == Min(CHUNK_SECTORS, |d| / SECTOR_SIZE - sector)
    ensures nr == CHUNK_SECTORS && sector == sector / CHUNK_SECTORS * CHUNK_SECTORS
    ensures (sector / CHUNK_SECTORS + 1) * CHUNK_BYTES <= |d|
  {
    var k, m := sector / CHUNK_SECTORS, |d| / CHUNK_BYTES;
    assert sector == CHUNK_SECTORS * k && |d| == CHUNK_BYTES * m && |d| / SECTOR_SIZE == CHUNK_SECTORS * m;
    assert k < m;
  }

  lemma ReadTakesChunk(s: State, e: Event)
    requires QueuesOk(s) && WholeChunks(s.devs) && Enabled(s, e) && e.ReadPerform?
    requires forall i :: 0 <= i < |s.devs| ==> DevOk(s.devs[i])
    ensures var b := s.inFlight[e.k]; var c := b.sector / CHUNK_SECTORS; var d := s.devs[b.dev];
            && b.sector == c * CHUNK_SECTORS && d.Full(c) && d.Covered(c)
            && Step(s, e).inFlight[e.k] == b.(data := Some(Chunk(d.disk, c)))
  {
    var b := s.inFlight[e.k];
    assert b in s.inFlight && BlkOk(s.devs, b);
    var d := s.devs[b.dev];
    WholeRead(d.disk, b.sector, b.nr);
    ReadIsChunk(d.disk, b.sector, b.nr);
    assert ReadSectors(d.disk, b.sector, b.nr) + e.junk == Chunk(d.disk, b.sector / CHUNK_SECTORS);
  }

  lemma ReadGetsStale(s: State, e: Event, dest0: Disks, i: nat, c: nat)
    requires Inv(s, dest0, Load(dest0, s.wire)) && WholeChunks(s.devs) && Enabled(s, e) && e.ReadPerform?
    requires Takes(s, e, i, c)
    requires forall b :: b in s.blkList ==> b.ret >= 0
    ensures Stale(Step(s, e), dest0, i, {c}, c, Chunk(s.devs[i].disk, c))
  {
    hide Inv, Chunk, NoRace, BlkOk, Load;
    var r := Redirty(s, i, {c});
    RedirtyKeepsInv(s, dest0, Load(dest0, s.wire), i, {c});
    MarkedNoRace(s, e, i, c);
    StepKeepsInv(r, e, dest0);
    InvQueues(s, dest0, Load(dest0, s.wire));
    InvQueues(Step(r, e), dest0, Load(dest0, s.wire));
    InvDevs(s, dest0, Load(dest0, s.wire));
    ReadSendsChunk(s, e, i, c);
  }

  lemma InvQueues(s: State, dest0: Disks, dest: Disks)
    requires Inv(s, dest0, dest)
    ensures QueuesOk(s) && forall i :: 0 <= i < |s.devs| ==> DevOk(s.devs[i])
  {
  }

  /** The data of a chunk that is marked will be sent again. */
  lemma MarkedNoRace(s: State, e: Event, i: nat, c: nat)
    requires Enabled(s, e) && e.ReadPerform? && Takes(s, e, i, c)
    ensures var r := Redirty(s, i, {c}); Enabled(r, e) && NoRace(r, e) && Step(r, e) == Redirty(Step(s, e), i, {c})
  {
  }

  lemma ReadSendsChunk(s: State, e: Event, i: nat, c: nat)
    requires QueuesOk(s) && WholeChunks(s.devs) && Enabled(s, e) && e.ReadPerform? && Takes(s, e, i, c)
    requires (forall i :: 0 <= i < |s.devs| ==> DevOk(s.devs[i])) && QueuesOk(Redirty(Step(s, e), i, {c}))
    ensures s.devs[i].Full(c) && s.devs[i].Covered(c) && Pending(Step(s, e), i, c)
    ensures var t := Step(s, e);
            forall a :: (a in t.inFlight || a in t.blkList) && a.dev == i && a.sector == c * CHUNK_SECTORS ==>
              a.data == Some(Chunk(s.devs[i].disk, c))
  {
    ReadTakesChunk(s, e);
    hide QueuesOk, WholeChunks, Chunk;
    var t := Step(s, e);
    assert t.inFlight[e.k] in t.inFlight && (i, c * CHUNK_SECTORS) in Keys(t.inFlight);
    forall a | (a in t.inFlight || a in t.blkList) && a.dev == i && a.sector == c * CHUNK_SECTORS
      ensures a == t.inFlight[e.k]
    {
      OneRead(Redirty(t, i, {c}), a, t.inFlight[e.k]);
    }
  }

  lemma WithoutWrites(s: State, dest0: Disks, dest: Disks)
    requires Inv(s, dest0, dest)
    ensures Inv(s.(writes := []), dest0, dest)
  {
    hide QueuesOk, BaseOk, DevsOk, ChunksOk;
    MoreDirtyQueues(s, s.(writes := []));
    ChunksStay(s, s.(writes := []), dest0, dest);
  }

  lemma WithWrites(s: State, dest0: Disks, dest: Disks)
    requires Inv(s.(writes := []), dest0, dest) && WritesOk(s)
    ensures Inv(s, dest0, dest)
  {
    hide WritesOk, QueuesOk, BaseOk, DevsOk, ChunksOk;
    MoreDirtyQueues(s.(writes := []), s);
    ChunksStay(s.(writes := []), s, dest0, dest);
  }

  /** What a bulk call settles was ahead of the cursor, is behind it afterwards, and clean. */
  lemma BulkSettlesChunk(s: State, e: Event, i: nat, c: nat)
    requires e.BulkStep? && Takes(s, e, i, c) && DevOk(s.devs[i]) && |s.devs[i].disk| % CHUNK_BYTES == 0
    ensures !s.devs[i].Covered(c) && s.devs[i].Full(c)
    ensures e.isAsync ==> c * CHUNK_SECTORS != BulkBase(s.devs[i]) || !SubmitsAt(s, i)
    ensures var d' := BulkDev(s.devs[i], e.ok);
            d'.Covered(c) && c !in d'.dirty && d'.name == s.devs[i].name && d'.disk == s.devs[i].disk
  {
    var d := s.devs[i];
    assert d.curSector <= SearchEnd(d);
    if Reads(d, e.ok, c) {
      WholeRead(d.disk, BulkBase(d), BulkCount(d));
    }
  }

  /** A bulk call adds at most its own read to what is in flight. */
  lemma BulkFlight(s: State, e: Event)
    requires Enabled(s, e) && e.BulkStep?
    ensures var t, i := Step(s, e), FirstIncomplete(s.devs);
            t.inFlight == s.inFlight +
              if e.isAsync && e.ok && SubmitsAt(s, i)
              then [Blk(i, BulkBase(s.devs[i]), BulkCount(s.devs[i]), None, 0)]
              else []
  {
    hide TotalSum, Percent;
    var m := BulkState(s, e.isAsync, e.ok, e.junk);
    TotalSumSame(s.devs, m.devs, |s.devs|);
  }

  lemma NothingPendingAhead(s: State, i: nat, c: nat)
    requires QueuesOk(s) && i < |s.devs| && !s.devs[i].Covered(c)
    ensures !Pending(s, i, c)
  {
    forall b | b in s.inFlight || b in s.blkList
      ensures (b.dev, b.sector) != (i, c * CHUNK_SECTORS)
    {
      assert BlkOk(s.devs, b);
    }
  }

  lemma BulkTakesChunk(s: State, e: Event, i: nat, c: nat)
    requires QueuesOk(s) && Enabled(s, e) && e.BulkStep? && Takes(s, e, i, c)
    requires DevOk(s.devs[i]) && |s.devs[i].disk| % CHUNK_BYTES == 0
    ensures var t := Step(s, e);
            && t.blkList == s.blkList && t.writes == s.writes && s.inFlight <= t.inFlight
            && t.devs == s.devs[i := t.devs[i]] && t.devs[i].name == s.devs[i].name && t.devs[i].disk == s.devs[i].disk
            && t.devs[i].Full(c) && t.devs[i].Covered(c) && c !in t.devs[i].dirty && !Pending(t, i, c)
  {
    hide QueuesOk, BulkDev;
    BulkShape(s, e);
    BulkFlight(s, e);
    BulkSettlesChunk(s, e, i, c);
    NothingPendingAhead(s, i, c);
    hide Step;
    var t := Step(s, e);
    forall b | b in t.inFlight || b in t.blkList
      ensures (b.dev, b.sector) != (i, c * CHUNK_SECTORS)
    {
      assert b in s.inFlight || b in s.blkList ==> (b.dev, b.sector) in PendingKeys(s);
    }
  }

  /** The chunks the bulk phase is done with. */
  function CoveredChunks(d: Dev): (r: set<nat>)
    ensures forall c: nat :: c in r <==> d.Covered(c)
  {
    Interval(0, ChunksUpTo(d.curSector))
  }

  /** With all of them marked again every outstanding write is safe. */
  lemma BulkStaleWrites(s: State, e: Event, i: nat)
    requires Enabled(s, e) && e.BulkStep? && i == FirstIncomplete(s.devs) < |s.devs| && WritesOk(s)
    ensures WritesOk(Redirty(Step(s, e), i, CoveredChunks(Step(s, e).devs[i])))
  {
    BulkShape(s, e);
    BulkFlight(s, e);
    BulkKeepsDisks(s, e);
    hide Step, Enabled, BulkDev;
    var t := Step(s, e);
    var r := Redirty(t, i, CoveredChunks(t.devs[i]));
    assert WaitingKeys(s) <= WaitingKeys(r);
    forall w | w in r.writes
      ensures WriteOk(r.devs, WaitingKeys(r), w)
    {
      forall c: nat
        ensures WriteSafe(r.devs[w.dev], WaitingKeys(r), w, c)
      {
        assert WriteSafe(s.devs[w.dev], WaitingKeys(s), w, c);
      }
    }
  }

  lemma BulkKeepsDisks(s: State, e: Event)
    requires Enabled(s, e) && e.BulkStep?
    ensures |Step(s, e).devs| == |s.devs| && forall j :: 0 <= j < |s.devs| ==> Step(s, e).devs[j].disk == s.devs[j].disk
  {
  }

  lemma BulkWithoutWrites(s: State, e: Event)
    requires Enabled(s, e) && e.BulkStep?
    ensures Enabled(s.(writes := []), e) && Step(s.(writes := []), e) == Step(s, e).(writes := [])
  {
    hide BulkState, Report;
    var m := BulkState(s, e.isAsync, e.ok, e.junk);
    BulkStateWithoutWrites(s, e);
    TotalSumSame(s.devs, m.devs, |s.devs|);
    ReportWithoutWrites(m, FirstIncomplete(s.devs));
  }

  lemma BulkStateWithoutWrites(s: State, e: Event)
    requires e.BulkStep?
    ensures BulkState(s.(writes := []), e.isAsync, e.ok, e.junk) == BulkState(s, e.isAsync, e.ok, e.junk).(writes := [])
  {
    var i := FirstIncomplete(s.devs);
    if i < |s.devs| {
      var m, n := SaveDevice(s, i, e.isAsync, e.ok, e.junk), SaveDevice(s.(writes := []), i, e.isAsync, e.ok, e.junk);
      assert n == m.(writes := []);
      hide SaveDevice;
    }
  }

  lemma ReportWithoutWrites(m: State, j: nat)
    requires j <= |m.devs| && TotalSum(m.devs, |m.devs|) > 0
    ensures Report(m.(writes := []), j) == Report(m, j).(writes := [])
  {
  }

  lemma BulkGetsStale(s: State, e: Event, dest0: Disks, i: nat, c: nat)
    requires Inv(s, dest0, Load(dest0, s.wire)) && WholeChunks(s.devs) && Enabled(s, e) && e.BulkStep?
    requires Takes(s, e, i, c)
    requires forall b :: b in s.blkList ==> b.ret >= 0
    ensures var t := Step(s, e);
            && i < |t.devs|
            && Stale(t, dest0, i, CoveredChunks(t.devs[i]), c, Chunk(s.devs[i].disk, c))
  {
    hide Inv, Step, Enabled, DevsOk, QueuesOk, WritesOk, Load, Chunk, BulkDevice;
    InvDevs(s, dest0, Load(dest0, s.wire));
    InvQueues(s, dest0, Load(dest0, s.wire));
    InvWrites(s, dest0, Load(dest0, s.wire));
    var t := Step(s, e);
    var t0 := t.(writes := []);
    BulkWithoutWrites(s, e);
    WithoutWrites(s, dest0, Load(dest0, s.wire));
    BulkStepKeeps(s.(writes := []), e, dest0);
    BulkTakesChunk(s, e, i, c);
    var cs := CoveredChunks(t.devs[i]);
    BulkStaleWrites(s, e, i);
    BulkSends(t0, dest0, i, c);
    RedirtyKeepsInv(t0, dest0, Load(dest0, t.wire), i, cs);
    WithWrites(Redirty(t, i, cs), dest0, Load(dest0, t.wire));
  }

  lemma InvWrites(s: State, dest0: Disks, dest: Disks)
    requires Inv(s, dest0, dest)
    ensures WritesOk(s)
  {
  }

  lemma BulkSends(t: State, dest0: Disks, i: nat, c: nat)
    requires Inv(t, dest0, Load(dest0, t.wire)) && i < |t.devs|
    requires t.devs[i].Covered(c) && t.devs[i].Full(c) && c !in t.devs[i].dirty && !Pending(t, i, c)
    ensures DevsOk(t.devs, Load(dest0, t.wire)) && Sent(t, Load(dest0, t.wire), i, c, Chunk(t.devs[i].disk, c))
  {
    assert ChunkOk(t, dest0, Load(dest0, t.wire), i, c);
    assert forall b :: b in t.inFlight || b in t.blkList ==> (b.dev, b.sector) in PendingKeys(t);
  }

  /** A step that settles a clean chunk fixes what reaches the destination. */
  lemma TakenIsStale(s: State, e: Event, dest0: Disks, i: nat, c: nat) returns (cs: set<nat>)
    requires Inv(s, dest0, Load(dest0, s.wire)) && WholeChunks(s.devs) && Enabled(s, e) && Takes(s, e, i, c)
    requires forall b :: b in s.blkList ==> b.ret >= 0
    ensures i < |s.devs| && c * CHUNK_BYTES < |s.devs[i].disk|
    ensures Stale(Step(s, e), dest0, i, cs, c, Chunk(s.devs[i].disk, c))
  {
    hide Inv;
    if e.ReadPerform? {
      ReadGetsStale(s, e, dest0, i, c);
      cs := {c};
    } else {
      BulkGetsStale(s, e, dest0, i, c);
      cs := CoveredChunks(Step(s, e).devs[i]);
    }
  }

  // ---------------------------------------------------------------- one way to go on

  /** Performs all outstanding writes, `w` last. */
  lemma PerformAll(s: State, w: GuestWrite, dest0: Disks, i: nat, cs: set<nat>, c: nat, x: seq<Byte>) returns (t: State)
    requires Stale(s, dest0, i, cs, c, x) && w in s.writes
    ensures Leads(s, t) && Stale(t, dest0, i, cs, c, x) && t.writes == []
    ensures |t.devs| == |s.devs| && forall j :: 0 <= j < |s.devs| ==> |t.devs[j].disk| == |s.devs[j].disk|
    ensures w.dev < |t.devs| && w.sector * SECTOR_SIZE + |w.data| <= |t.devs[w.dev].disk|
    ensures t.devs[w.dev].disk[w.sector * SECTOR_SIZE..w.sector * SECTOR_SIZE + |w.data|] == w.data
    decreases |s.writes|
  {
    hide Stale, Leads;
    var k: nat :| k < |s.writes| && s.writes[k] == w;
    var j := if |s.writes| == 1 then 0 else if k == 0 then 1 else 0;
    var e := GuestPerform(j);
    StaleWriteFits(s, dest0, i, cs, c, x, j);
    StepStale(s, e, dest0, i, cs, c, x);
    StepKeepsSizes(s, e);
    t := Step(s, e);
    if |s.writes| == 1 {
      LeadsToItself(t);
    } else {
      assert t.writes[if k == 0 then 0 else k - 1] == w;
      t := PerformAll(t, w, dest0, i, cs, c, x);
    }
    LeadsOn(s, e, t);
  }

  lemma StaleWriteFits(s: State, dest0: Disks, i: nat, cs: set<nat>, c: nat, x: seq<Byte>, k: nat)
    requires Stale(s, dest0, i, cs, c, x) && k < |s.writes|
    ensures Enabled(s, GuestPerform(k))
  {
    var r := Redirty(s, i, cs);
    assert r.writes[k] in r.writes && WriteOk(r.devs, WaitingKeys(r), r.writes[k]);
  }

  /** The first read in flight is performed if need be, and completes. */
  lemma FinishRead(s: State, dest0: Disks, i: nat, cs: set<nat>, c: nat, x: seq<Byte>) returns (t: State, u: State)
    requires Stale(s, dest0, i, cs, c, x) && s.writes == [] && s.inFlight != []
    ensures t == s ||
            (Enabled(s, ReadPerform(0, Junk(s.inFlight[0].nr))) &&
             t == Step(s, ReadPerform(0, Junk(s.inFlight[0].nr))))
    ensures Stale(t, dest0, i, cs, c, x) && Enabled(t, ReadComplete(0, 0)) && u == Step(t, ReadComplete(0, 0))
    ensures Stale(u, dest0, i, cs, c, x) && u.writes == [] && u.inFlight == s.inFlight[1..] && u.devs == s.devs
  {
    var b := s.inFlight[0];
    StaleQueues(s, dest0, i, cs, c, x);
    assert b in s.inFlight && BlkOk(Redirty(s, i, cs).devs, b);
    hide Stale, BulkState, Report, DevOk, Distinct;
    t := s;
    if b.data == None {
      var e := ReadPerform(0, Junk(b.nr));
      StepStale(s, e, dest0, i, cs, c, x);
      t := Step(s, e);
    }
    StepStale(t, ReadComplete(0, 0), dest0, i, cs, c, x);
    u := Step(t, ReadComplete(0, 0));
  }

  /** What the rest of a chunk-sized buffer may hold. */
  function Junk(nr: nat): (junk: seq<Byte>)
    ensures nr <= CHUNK_SECTORS ==> |junk| + nr * SECTOR_SIZE == CHUNK_BYTES
  {
    if nr <= CHUNK_SECTORS then seq(CHUNK_BYTES - nr * SECTOR_SIZE, _ => 0) else []
  }

  /** The next synchronous bulk read. */
  function NextRead(s: State): Event {
    var i := FirstIncomplete(s.devs);
    var search := i < |s.devs| && SearchEnd(s.devs[i]) < s.devs[i].Total();
    BulkStep(false, true, if search then Junk(BulkCount(s.devs[i])) else [])
  }

  lemma NextReadWorks(s: State, dest0: Disks, i: nat, cs: set<nat>, c: nat, x: seq<Byte>)
    requires Stale(s, dest0, i, cs, c, x) && s.writes == [] && !AllComplete(s.devs)
    ensures Enabled(s, NextRead(s)) && Stale(Step(s, NextRead(s)), dest0, i, cs, c, x)
    ensures var t := Step(s, NextRead(s));
            && t.writes == [] && t.inFlight == s.inFlight && t.blkList == s.blkList && SameContents(s.devs, t.devs)
            && WorkSum(t.devs, |t.devs|) < WorkSum(s.devs, |s.devs|)
  {
    StaleDevs(s, dest0, i, cs, c, x);
    TotalSumPositive(s.devs, |s.devs|);
    hide Stale, TotalSum, WorkSum;
    var e := NextRead(s);
    StepStale(s, e, dest0, i, cs, c, x);
    BulkShape(s, e);
    BulkCursorGrows(s, e);
    BulkStepWork(s, e);
  }

  /** Completes and sends all reads, then reads and sends the rest of the bulk. */
  lemma Drain(s: State, dest0: Disks, i: nat, cs: set<nat>, c: nat, x: seq<Byte>) returns (t: State)
    requires Stale(s, dest0, i, cs, c, x) && s.writes == []
    ensures Leads(s, t) && Stale(t, dest0, i, cs, c, x) && t.writes == [] && Drained(t) && SameContents(s.devs, t.devs)
    decreases |s.inFlight|, |s.blkList|, WorkSum(s.devs, |s.devs|)
  {
    hide Stale, Leads, WorkSum;
    if s.inFlight != [] {
      var p, u := FinishRead(s, dest0, i, cs, c, x);
      t := Drain(u, dest0, i, cs, c, x);
      SettlesNoRace(p, ReadComplete(0, 0));
      LeadsOn(p, ReadComplete(0, 0), t);
      if p != s {
        SettlesNoRace(s, ReadPerform(0, Junk(s.inFlight[0].nr)));
        LeadsOn(s, ReadPerform(0, Junk(s.inFlight[0].nr)), t);
      }
    } else if s.blkList != [] {
      HeadCanBeSent(s, dest0, i, cs, c, x);
      StepStale(s, FlushOne, dest0, i, cs, c, x);
      t := Drain(Step(s, FlushOne), dest0, i, cs, c, x);
      LeadsOn(s, FlushOne, t);
    } else if AllComplete(s.devs) {
      t := s;
      LeadsToItself(s);
    } else {
      NextReadWorks(s, dest0, i, cs, c, x);
      SettlesNoRace(s, NextRead(s));
      t := Drain(Step(s, NextRead(s)), dest0, i, cs, c, x);
      LeadsOn(s, NextRead(s), t);
    }
  }

  lemma HeadCanBeSent(s: State, dest0: Disks, i: nat, cs: set<nat>, c: nat, x: seq<Byte>)
    requires Stale(s, dest0, i, cs, c, x) && s.blkList != []
    ensures Enabled(s, FlushOne)
  {
    StaleQueues(s, dest0, i, cs, c, x);
    assert s.blkList[0] in s.blkList;
  }

  // ---------------------------------------------------------------- the dirty pass does not send it

  /** Chunk `c` of device `i` is clean and holds `x` on the destination. */
  ghost predicate CleanAs(p: Pass, dest0: Disks, i: nat, c: nat, x: seq<Byte>) {
    && i < |p.devs| && DevsOk(p.devs, Load(dest0, p.wire)) && (c + 1) * CHUNK_BYTES <= |p.devs[i].disk|
    && c !in p.devs[i].dirty && Chunk(Load(dest0, p.wire)[p.devs[i].name], c) == x
  }

  lemma SendChunkClean(p: Pass, j: nat, e: nat, dest0: Disks, i: nat, c: nat, x: seq<Byte>)
    requires CleanAs(p, dest0, i, c, x) && j < |p.devs|
    ensures CleanAs(SendChunk(p, j, e), dest0, i, c, x)
  {
    hide DevsOk, Chunk, LoadFrame, Load;
    var d := p.devs[j];
    var q := SendChunk(p, j, e);
    if e in d.dirty && (e + 1) * CHUNK_BYTES <= |d.disk| {
      var data := ReadSectors(d.disk, e * CHUNK_SECTORS, CHUNK_SECTORS);
      assert |data| == CHUNK_BYTES;
      LoadAppend(dest0, p.wire, Block(d.name, e * CHUNK_SECTORS, data));
      LoadElsewhere(Load(dest0, p.wire), p.devs, j, e * CHUNK_SECTORS, data, i, c);
      SameDevsOk(p.devs, q.devs, Load(dest0, q.wire));
    }
  }

  lemma {:induction false} SendDevClean(p: Pass, j: nat, n: nat, dest0: Disks, i: nat, c: nat, x: seq<Byte>)
    requires CleanAs(p, dest0, i, c, x) && j < |p.devs|
    ensures CleanAs(SendDev(p, j, n), dest0, i, c, x)
  {
    hide CleanAs, SendChunk;
    if n > 0 {
      SendDevClean(p, j, n - 1, dest0, i, c, x);
      SendChunkClean(SendDev(p, j, n - 1), j, n - 1, dest0, i, c, x);
    }
  }

  lemma {:induction false} SendAllClean(p: Pass, n: nat, dest0: Disks, i: nat, c: nat, x: seq<Byte>)
    requires CleanAs(p, dest0, i, c, x) && n <= |p.devs|
    ensures CleanAs(SendAll(p, n), dest0, i, c, x)
  {
    hide CleanAs, SendDev;
    if n > 0 {
      SendAllClean(p, n - 1, dest0, i, c, x);
      var q := SendAll(p, n - 1);
      SendDevClean(q, n - 1, ChunksUpTo(q.devs[n - 1].curSector), dest0, i, c, x);
    }
  }

  lemma StaleEndsDifferent(t: State, dest0: Disks, i: nat, cs: set<nat>, c: nat, x: seq<Byte>)
    requires Stale(t, dest0, i, cs, c, x) && Drained(t) && Chunk(t.devs[i].disk, c) != x
    ensures !EndsSame(t, dest0)
  {
    assert !Pending(t, i, c);
    SendAllClean(Pass(t.devs, t.wire), |t.devs|, dest0, i, c, x);
  }

  // ---------------------------------------------------------------- exactly the races lose writes

  /** A write that has yet to change the chunk whose data step `e` takes may be lost: migration can go on
      to its end, without another race, and leave the destination different. */
  lemma RaceCanLoseWrite(s: State, e: Event, dest0: Disks, i: nat, c: nat, w: GuestWrite) returns (t: State)
    requires Inv(s, dest0, Load(dest0, s.wire)) && WholeChunks(s.devs) && Enabled(s, e) && Takes(s, e, i, c)
    requires forall b :: b in s.blkList ==> b.ret >= 0
    requires w in s.writes && w.dev == i && !w.Same(s.devs[i].disk, c)
    ensures Completes(Step(s, e), t) && !EndsSame(t, dest0)
  {
    hide Stale, Inv, Leads, Drained, EndsSame, Step, Enabled, Takes, WholeChunks, Chunk;
    var cs := TakenIsStale(s, e, dest0, i, c);
    var x := Chunk(s.devs[i].disk, c);
    TakingKeepsWrites(s, e, i, c);
    StepKeepsSizes(s, e);
    var u := PerformAll(Step(s, e), w, dest0, i, cs, c, x);
    t := Drain(u, dest0, i, cs, c, x);
    LeadsTransitive(Step(s, e), u, t);
    WriteShows(w, s.devs[i].disk, u.devs[i].disk, c);
    StaleEndsDifferent(t, dest0, i, cs, c, x);
  }

  lemma TakingKeepsWrites(s: State, e: Event, i: nat, c: nat)
    requires Enabled(s, e) && Takes(s, e, i, c)
    ensures Step(s, e).writes == s.writes
  {
  }

  lemma WriteShows(w: GuestWrite, d: Disk, d': Disk, c: nat)
    requires !w.Same(d, c) && |d'| == |d| && c * CHUNK_BYTES < |d| && w.sector * SECTOR_SIZE + |w.data| <= |d'|
    requires d'[w.sector * SECTOR_SIZE..w.sector * SECTOR_SIZE + |w.data|] == w.data
    ensures Chunk(d', c) != Chunk(d, c)
  {
    var p: nat :|
        c * CHUNK_BYTES <= p < (c + 1) * CHUNK_BYTES && p < |d| &&
        w.sector * SECTOR_SIZE <= p < w.sector * SECTOR_SIZE + |w.data|
                  && w.data[p - w.sector * SECTOR_SIZE] != d[p];
    assert d'[p] == w.data[p - w.sector * SECTOR_SIZE];
    assert Chunk(d', c)[p - c * CHUNK_BYTES] == d'[p] && Chunk(d, c)[p - c * CHUNK_BYTES] == d[p];
  }

  lemma LeadsTransitive(s: State, t: State, u: State)
    requires Leads(s, t) && Leads(t, u)
    ensures Leads(s, u)
  {
    var es :| Runs(s, es, t);
    var fs :| Runs(t, fs, u);
    RunsConcat(s, es, t, fs, u);
  }

  /** A step is without a race if and only if every way to complete migration after it, itself without a
      race, ends with the destination equal to the source. */
  lemma RaceIsExact(s: State, e: Event, dest0: Disks)
    requires Inv(s, dest0, Load(dest0, s.wire)) && WholeChunks(s.devs) && Enabled(s, e)
    requires forall b :: b in s.blkList ==> b.ret >= 0
    ensures NoRace(s, e) <==> forall t :: Completes(Step(s, e), t) ==> EndsSame(t, dest0)
  {
    if NoRace(s, e) {
      StepKeepsInv(s, e, dest0);
      StepKeepsSizes(s, e);
      forall t | Completes(Step(s, e), t)
        ensures EndsSame(t, dest0)
      {
        SafeCompletions(Step(s, e), t, dest0);
      }
    } else {
      var i: nat, c: nat, w :| Takes(s, e, i, c) && w in s.writes && w.dev == i && !w.Same(s.devs[i].disk, c);
      var t := RaceCanLoseWrite(s, e, dest0, i, c, w);
    }
  }
}
