/** The books live migration keeps: reads issued, in flight, queued and sent; progress reported. */
module MigrationCounters {
  import opened Sectors
  import opened Migration
  import opened MigrationSafety

  // ---------------------------------------------------------------- reads are conserved

  /** Step `e` hands an asynchronous bulk read to the driver. */
  ghost predicate Issues(s: State, e: Event) {
    e.BulkStep? && e.isAsync && e.ok && FirstIncomplete(s.devs) < |s.devs|
    && SearchEnd(s.devs[FirstIncomplete(s.devs)]) < s.devs[FirstIncomplete(s.devs)].Total()
  }

  /** How many asynchronous bulk reads the run `es` from `s` issued. */
  ghost function Issued(s: State, es: seq<Event>): nat
    requires Exec(s, es).Some?
  {
    if es == [] then 0 else
    Issued(s, es[..|es| - 1]) + if Issues(Exec(s, es[..|es| - 1]).value, es[|es| - 1]) then 1 else 0
  }

  ghost predicate Balanced(s: State, issued: int) {
    s.submitted == |s.inFlight| && s.readDone == |s.blkList| && s.submitted + s.readDone + s.transferred == issued
  }

  lemma StepBalances(s: State, e: Event, issued: int)
    requires Balanced(s, issued) && Enabled(s, e)
    ensures Balanced(Step(s, e), issued + if Issues(s, e) then 1 else 0)
  {
    if e.BulkStep? {
      BulkBalances(s, e, issued);
    }
  }

  lemma BulkBalances(s: State, e: Event, issued: int)
    requires Balanced(s, issued) && Enabled(s, e) && e.BulkStep?
    ensures Balanced(Step(s, e), issued + if Issues(s, e) then 1 else 0)
  {
    hide BulkState, TotalSum, Percent;
    BulkStateBalances(s, e, issued);
    TotalSumSame(s.devs, BulkState(s, e.isAsync, e.ok, e.junk).devs, |s.devs|);
  }

  lemma BulkStateBalances(s: State, e: Event, issued: int)
    requires Balanced(s, issued) && e.BulkStep?
    ensures Balanced(BulkState(s, e.isAsync, e.ok, e.junk), issued + if Issues(s, e) then 1 else 0)
  {
  }

  /** Every issued read is in flight, queued or sent, in every run. */
  lemma {:induction false} ReadsConserved(devs: seq<Dev>, writes: seq<GuestWrite>, es: seq<Event>)
    requires Exec(StartState(devs, writes), es).Some?
    ensures Balanced(Exec(StartState(devs, writes), es).value, Issued(StartState(devs, writes), es))
  {
    if es != [] {
      var init := es[..|es| - 1];
      ReadsConserved(devs, writes, init);
      StepBalances(Exec(StartState(devs, writes), init).value, es[|es| - 1], Issued(StartState(devs, writes), init));
    }
  }

  // ---------------------------------------------------------------- progress is monotone

  /** The progress frames of `wire` increase and never pass `limit`. */
  ghost predicate Monotone(wire: seq<Frame>, limit: int) {
    && (forall k :: 0 <= k < |wire| && wire[k].Progress? ==> wire[k].percent <= limit)
    && forall j, k :: 0 <= j < k < |wire| && wire[j].Progress? && wire[k].Progress? ==>
        wire[j].percent < wire[k].percent
  }

  /** What is counted as completed is not past where the next search ends; without an error it is not past the
      cursor either. */
  ghost predicate DevProgressOk(d: Dev, error: bool) {
    d.completedSectors <= SearchEnd(d) && d.curSector <= d.Total() && (!error ==> d.completedSectors <= d.curSector)
  }

  /** Devices are worked through in order, and what was last reported is no more than what is completed. */
  ghost predicate ProgressOk(s: State) {
    && Monotone(s.wire, s.prevProgress)
    && (forall i :: 0 <= i < |s.devs| ==> DevProgressOk(s.devs[i], s.error))
    && (forall i :: FirstIncomplete(s.devs) < i < |s.devs| ==> s.devs[i].completedSectors == 0)
    && (s.prevProgress >= 0 ==>
          TotalSum(s.devs, |s.devs|) > 0 &&
          s.prevProgress <= PercentOf(CompletedSum(s.devs, |s.devs|), TotalSum(s.devs, |s.devs|)))
  }

  lemma CompletedSumGrows(a: seq<Dev>, b: seq<Dev>, n: nat)
    requires |a| == |b| && n <= |a| && forall i :: 0 <= i < |a| ==> a[i].completedSectors <= b[i].completedSectors
    ensures CompletedSum(a, n) <= CompletedSum(b, n)
  {
  }

  /** Devices past the first incomplete one add nothing to the sum. */
  lemma SumStopsAtFirst(devs: seq<Dev>, m: nat, n: nat)
    requires m <= n <= |devs| && forall i :: m <= i < n ==> devs[i].completedSectors == 0
    ensures CompletedSum(devs, n) == CompletedSum(devs, m)
  {
  }

  lemma FirstIncompleteGrows(a: seq<Dev>, b: seq<Dev>)
    requires |a| == |b| && forall i :: 0 <= i < |a| ==> (a[i].bulkCompleted ==> b[i].bulkCompleted)
    ensures FirstIncomplete(a) <= FirstIncomplete(b)
  {
  }

  lemma SameProgress(s: State, t: State)
    requires ProgressOk(s) && |t.devs| == |s.devs| && t.prevProgress == s.prevProgress && t.wire == s.wire
    requires forall i :: 0 <= i < |s.devs| ==> DevProgressOk(t.devs[i], t.error)
    requires forall i :: 0 <= i < |s.devs| ==>
      t.devs[i].completedSectors == s.devs[i].completedSectors && t.devs[i].curSector == s.devs[i].curSector
      && t.devs[i].bulkCompleted == s.devs[i].bulkCompleted && |t.devs[i].disk| == |s.devs[i].disk|
    ensures ProgressOk(t)
  {
    FirstIncompleteGrows(s.devs, t.devs);
    FirstIncompleteGrows(t.devs, s.devs);
    CompletedSumGrows(s.devs, t.devs, |s.devs|);
    CompletedSumGrows(t.devs, s.devs, |s.devs|);
    SameTotals(s.devs, t.devs, |s.devs|);
  }

  lemma SameTotals(a: seq<Dev>, b: seq<Dev>, n: nat)
    requires |a| == |b| && n <= |a| && forall i :: 0 <= i < |a| ==> |a[i].disk| == |b[i].disk|
    ensures TotalSum(a, n) == TotalSum(b, n)
  {
  }

  /** A bulk call never takes its device back, whether its read is accepted or refused. */
  lemma BulkDevProgress(d: Dev, ok: bool, error: bool)
    requires DevProgressOk(d, error) && !d.bulkCompleted
    ensures var d' := BulkDev(d, ok);
            && d.completedSectors <= d'.completedSectors <= d'.Total() == d.Total()
            && DevProgressOk(d', error || (!ok && SearchEnd(d) < d.Total()))
  {
    assert d.curSector <= SearchEnd(d);
    assert BulkDev(d, ok).curSector <= SearchEnd(BulkDev(d, ok));
  }

  lemma DevsProgress(s: State, t: State, i: nat, ok: bool)
    requires ProgressOk(s) && i == FirstIncomplete(s.devs) < |s.devs| && t.devs == s.devs[i := BulkDev(s.devs[i], ok)]
    requires t.prevProgress == s.prevProgress
    requires t.error == (s.error || (!ok && SearchEnd(s.devs[i]) < s.devs[i].Total()))
    requires t.wire == s.wire
    ensures ProgressOk(t)
    ensures forall j :: i < j < |t.devs| ==> t.devs[j].completedSectors == 0
  {
    hide BulkDev, SearchEnd, Monotone, PercentOf, TotalSum, CompletedSum;
    BulkDevProgress(s.devs[i], ok, s.error);
    BulkDevStaysDone(s.devs[i], ok);
    FirstIncompleteGrows(s.devs, t.devs);
    CompletedSumGrows(s.devs, t.devs, |t.devs|);
    SameTotals(s.devs, t.devs, |t.devs|);
    if s.prevProgress >= 0 {
      PercentMonotone(CompletedSum(s.devs, |t.devs|), CompletedSum(t.devs, |t.devs|), TotalSum(t.devs, |t.devs|));
    }
  }

  lemma BulkDevStaysDone(d: Dev, ok: bool)
    ensures (d.bulkCompleted ==> BulkDev(d, ok).bulkCompleted) && BulkDev(d, ok).disk == d.disk
  {
  }

  lemma BlockKeepsProgress(s: State, t: State)
    requires ProgressOk(s) && t.devs == s.devs && t.prevProgress == s.prevProgress && t.error == s.error
    requires t.wire == s.wire || exists f: Frame :: f.Block? && t.wire == s.wire + [f]
    ensures ProgressOk(t)
  {
    hide DevProgressOk, TotalSum, CompletedSum;
  }

  /** The bulk part of a step, before anything is reported. */
  lemma BulkProgress(s: State, e: Event)
    requires ProgressOk(s) && Enabled(s, e) && e.BulkStep?
    ensures var t := BulkState(s, e.isAsync, e.ok, e.junk);
            && ProgressOk(t)
            && forall i :: FirstIncomplete(s.devs) < i < |t.devs| ==> t.devs[i].completedSectors == 0
  {
    hide ProgressOk, TotalSum;
    var i := FirstIncomplete(s.devs);
    var t := BulkState(s, e.isAsync, e.ok, e.junk);
    if i < |s.devs| {
      DevsProgress(s, s.(devs := t.devs, error := t.error), i, e.ok);
      BlockKeepsProgress(s.(devs := t.devs, error := t.error), t);
    }
  }

  lemma ReportProgress(s: State, i: nat)
    requires ProgressOk(s) && i <= |s.devs| && TotalSum(s.devs, |s.devs|) > 0
    requires forall j :: i < j < |s.devs| ==> s.devs[j].completedSectors == 0
    ensures ProgressOk(Report(s, i))
  {
    SumStopsAtFirst(s.devs, Min(i + 1, |s.devs|), |s.devs|);
  }

  lemma BulkStepProgress(s: State, e: Event)
    requires ProgressOk(s) && Enabled(s, e) && e.BulkStep?
    ensures ProgressOk(Step(s, e))
  {
    hide BulkState, Report, ProgressOk, TotalSum;
    BulkProgress(s, e);
    var t := BulkState(s, e.isAsync, e.ok, e.junk);
    TotalSumSame(s.devs, t.devs, |s.devs|);
    ReportProgress(t, FirstIncomplete(s.devs));
  }

  /** A guest write that reaches the disk allocates no sector that is counted as completed but ahead of the
      cursor. There is such a sector only where a read failed on a device with a shared base. */
  predicate Calm(s: State, e: Event) {
    e.GuestPerform? && e.k < |s.writes| && s.writes[e.k].dev < |s.devs| ==>
      var w := s.writes[e.k];
      var d := s.devs[w.dev];
      d.sharedBase ==>
        forall x :: x in SectorsOf(w.sector, |w.data| / SECTOR_SIZE) && d.curSector <= x ==> d.completedSectors <= x
  }

  /** Every step of the run is calm. */
  ghost predicate AllCalm(s: State, es: seq<Event>) {
    es == [] ||
    (AllCalm(s, es[..|es| - 1]) &&
     (Exec(s, es[..|es| - 1]).Some? ==> Calm(Exec(s, es[..|es| - 1]).value, es[|es| - 1])))
  }

  /** Without an error every step is calm. */
  lemma NoErrorIsCalm(s: State, e: Event)
    requires ProgressOk(s) && !s.error
    ensures Calm(s, e)
  {
    if e.GuestPerform? && e.k < |s.writes| && s.writes[e.k].dev < |s.devs| {
      assert DevProgressOk(s.devs[s.writes[e.k].dev], s.error);
    }
  }

  /** A run that ends without an error is calm. */
  lemma {:induction false} NoErrorIsAllCalm(s: State, es: seq<Event>)
    requires ProgressOk(s) && Exec(s, es).Some? && !Exec(s, es).value.error
    ensures AllCalm(s, es)
  {
    hide ProgressOk, Calm, Step, Enabled;
    if es != [] {
      var init, e := es[..|es| - 1], es[|es| - 1];
      ErrorStays(Exec(s, init).value, e);
      NoErrorIsAllCalm(s, init);
      RunKeepsProgress(s, init);
      NoErrorIsCalm(Exec(s, init).value, e);
    }
  }

  lemma ErrorStays(s: State, e: Event)
    requires Enabled(s, e)
    ensures s.error ==> Step(s, e).error
  {
  }

  lemma PerformedProgress(d: Dev, w: GuestWrite, error: bool)
    requires DevProgressOk(d, error) && w.sector * SECTOR_SIZE + |w.data| <= |d.disk|
    ensures DevProgressOk(PerformWrite(d, w), error) <==>
            (d.sharedBase ==> forall x :: x in SectorsOf(w.sector, |w.data| / SECTOR_SIZE) && d.curSector <= x ==>
               d.completedSectors <= x)
  {
    var d' := PerformWrite(d, w);
    assert d'.alloc == d.alloc + SectorsOf(w.sector, |w.data| / SECTOR_SIZE);
    assert d.sharedBase ==> SearchEnd(d') < d'.Total() ==> SearchEnd(d') in d'.alloc;
  }

  lemma GuestProgress(s: State, e: Event)
    requires ProgressOk(s) && Enabled(s, e) && (e.GuestSubmit? || e.GuestPerform?) && Calm(s, e)
    ensures ProgressOk(Step(s, e))
  {
    hide TotalSum, CompletedSum, PercentOf, Monotone, FirstIncomplete, NextAllocated, SectorsOf;
    if e.GuestPerform? {
      var w := s.writes[e.k];
      PerformedProgress(s.devs[w.dev], w, s.error);
    }
    SameProgress(s, Step(s, e));
  }

  lemma StepKeepsProgress(s: State, e: Event)
    requires ProgressOk(s) && Enabled(s, e) && Calm(s, e)
    ensures ProgressOk(Step(s, e))
  {
    match e
    case BulkStep(_, _, _) =>
      hide Step, ProgressOk;
      BulkStepProgress(s, e);
    case GuestSubmit(_, _, _) => GuestProgress(s, e);
    case GuestPerform(_) => GuestProgress(s, e);
    case ReadPerform(_, _) =>
    case ReadComplete(_, _) =>
    case FlushOne =>
    case FlushError =>
    case PutEos =>
  }

  lemma {:induction false} RunKeepsProgress(s: State, es: seq<Event>)
    requires ProgressOk(s) && Exec(s, es).Some? && AllCalm(s, es)
    ensures ProgressOk(Exec(s, es).value)
  {
    hide ProgressOk, Calm, Step, Enabled;
    if es != [] {
      RunKeepsProgress(s, es[..|es| - 1]);
      StepKeepsProgress(Exec(s, es[..|es| - 1]).value, es[|es| - 1]);
    }
  }

  /** Each reported percentage is greater than those before it and at most 100, also when reads fail, in every run in
      which guest writes allocate nothing that is counted as completed. */
  lemma ProgressIsMonotone(devs: seq<Dev>, writes: seq<GuestWrite>, es: seq<Event>)
    requires forall i :: 0 <= i < |devs| ==> devs[i].curSector == 0 && devs[i].completedSectors == 0
    requires Exec(StartState(devs, writes), es).Some? && AllCalm(StartState(devs, writes), es)
    ensures Monotone(Exec(StartState(devs, writes), es).value.wire, 100)
  {
    RunKeepsProgress(StartState(devs, writes), es);
    var s := Exec(StartState(devs, writes), es).value;
    AllWithinTotals(s);
    CompletedAtMostTotal(s.devs, |s.devs|);
    if s.prevProgress >= 0 {
      PercentMonotone(CompletedSum(s.devs, |s.devs|), TotalSum(s.devs, |s.devs|), TotalSum(s.devs, |s.devs|));
      AllDoneIsHundred(TotalSum(s.devs, |s.devs|));
    }
  }

  lemma AllWithinTotals(s: State)
    requires ProgressOk(s)
    ensures forall i :: 0 <= i < |s.devs| ==> s.devs[i].completedSectors <= s.devs[i].Total()
  {
    forall i | 0 <= i < |s.devs|
      ensures s.devs[i].completedSectors <= s.devs[i].Total()
    {
      assert DevProgressOk(s.devs[i], s.error);
    }
  }

  // ---------------------------------------------------------------- a report that falls

  lemma CompletedSumUpdate(devs: seq<Dev>, i: nat, d: Dev, n: nat)
    requires i < |devs| && n <= |devs|
    ensures CompletedSum(devs[i := d], n) ==
            CompletedSum(devs, n) + if i < n then d.completedSectors - devs[i].completedSectors else 0
  {
    if n > 0 {
      CompletedSumUpdate(devs, i, d, n - 1);
    }
  }

  /** The sum of what is counted as completed. */
  function Completed(s: State): nat {
    CompletedSum(s.devs, |s.devs|)
  }

  /** After a step that is not calm the next bulk call, whichever way it goes, lowers the completed sum. */
  lemma NotCalmFalls(s: State, e: Event, b: Event)
    requires ProgressOk(s) && Enabled(s, e) && !Calm(s, e) && forall d :: d in s.devs ==> DevOk(d)
    requires b.BulkStep? && Enabled(Step(s, e), b)
    ensures Completed(Step(Step(s, e), b)) < Completed(s)
  {
    hide TotalSum, CompletedSum, PercentOf, Monotone, NextAllocated, SectorsOf;
    var w := s.writes[e.k];
    var d, i := s.devs[w.dev], w.dev;
    assert d in s.devs && DevProgressOk(d, s.error) && DevOk(d);
    PerformedProgress(d, w, s.error);
    var t := Step(s, e);
    var d' := PerformWrite(d, w);
    assert t.devs == s.devs[i := d'];
    SameFirst(s.devs, i, d');
    CompletedSumUpdate(s.devs, i, d', |s.devs|);
    CompletedSumUpdate(t.devs, i, BulkDev(d', b.ok), |s.devs|);
    BulkReports(t, b);
  }

  lemma SameFirst(devs: seq<Dev>, i: nat, d: Dev)
    requires i < |devs| && d.bulkCompleted == devs[i].bulkCompleted
    ensures FirstIncomplete(devs[i := d]) == FirstIncomplete(devs)
  {
    FirstIncompleteGrows(devs, devs[i := d]);
    FirstIncompleteGrows(devs[i := d], devs);
  }

  lemma BulkReports(s: State, e: Event)
    requires Enabled(s, e) && e.BulkStep? && FirstIncomplete(s.devs) < |s.devs|
    ensures var i := FirstIncomplete(s.devs); Step(s, e).devs == s.devs[i := BulkDev(s.devs[i], e.ok)]
  {
  }

  lemma SameCompleted(s: State, e: Event)
    requires Enabled(s, e) && e.GuestPerform?
    ensures Completed(Step(s, e)) == Completed(s)
  {
    var w := s.writes[e.k];
    CompletedSumUpdate(s.devs, w.dev, PerformWrite(s.devs[w.dev], w), |s.devs|);
  }

  lemma BulkCompletes(s: State, e: Event)
    requires ProgressOk(s) && Enabled(s, e) && e.BulkStep?
    ensures Completed(Step(s, e)) >= Completed(s)
  {
    hide Monotone, CompletedSum, TotalSum, PercentOf;
    var i := FirstIncomplete(s.devs);
    if i < |s.devs| {
      BulkReports(s, e);
      BulkDevProgress(s.devs[i], e.ok, s.error);
      CompletedSumUpdate(s.devs, i, BulkDev(s.devs[i], e.ok), |s.devs|);
    } else {
      NothingToDo(s, e);
    }
  }

  lemma NothingToDo(s: State, e: Event)
    requires Enabled(s, e) && e.BulkStep? && FirstIncomplete(s.devs) == |s.devs|
    ensures Step(s, e).devs == s.devs
  {
  }

  /** Where a step is not calm, a bulk call can follow. */
  lemma SomethingToRead(s: State, e: Event)
    requires Enabled(s, e) && !Calm(s, e) && forall d :: d in s.devs ==> DevOk(d)
    ensures Enabled(Step(s, e), BulkStep(true, true, []))
  {
    var w := s.writes[e.k];
    var t := Step(s, e);
    assert s.devs[w.dev] in s.devs && DevOk(s.devs[w.dev]);
    TotalAtLeast(t.devs, w.dev, |t.devs|);
  }

  lemma TotalAtLeast(devs: seq<Dev>, i: nat, n: nat)
    requires i < n <= |devs|
    ensures TotalSum(devs, n) >= devs[i].Total()
  {
  }

  /** A guest write that reaches the disk is calm if and only if no bulk call after it can lower the sum. */
  lemma CalmIff(s: State, e: Event)
    requires ProgressOk(s) && Enabled(s, e) && e.GuestPerform? && forall d :: d in s.devs ==> DevOk(d)
    ensures Calm(s, e) <==>
            forall b: Event :: b.BulkStep? && Enabled(Step(s, e), b) ==> Completed(Step(Step(s, e), b)) >= Completed(s)
  {
    hide Step, Calm, ProgressOk, CompletedSum;
    var t := Step(s, e);
    if Calm(s, e) {
      StepKeepsProgress(s, e);
      SameCompleted(s, e);
      forall b: Event | b.BulkStep? && Enabled(t, b)
        ensures Completed(Step(t, b)) >= Completed(s)
      {
        BulkCompletes(t, b);
      }
    } else {
      var b := BulkStep(true, true, []);
      SomethingToRead(s, e);
      NotCalmFalls(s, e, b);
    }
  }

  /** A device of two chunks with a shared base, of which the sectors `alloc` are allocated and nothing is read. */
  function TwoChunks(a: seq<Byte>, dirty: set<nat>, alloc: set<nat>, completed: nat): Dev {
    Dev([], a, dirty, alloc, true, false, 0, completed)
  }

  /** A read that fails has been counted up to where its search stopped. If a guest write then allocates a sector
      before that, the next report is lower: for any contents `a` progress goes from 50 to 0. */
  lemma ProgressFalls(a: seq<Byte>, w: seq<Byte>) returns (es: seq<Event>, t: State)
    requires |a| == 2 * CHUNK_BYTES && |w| == SECTOR_SIZE
    ensures Exec(StartState([TwoChunks(a, {}, {2048}, 0)], [GuestWrite(0, 0, w)]), es) == Some(t)
    ensures t.wire == [Progress(50), Progress(0)] && t.error
    ensures !AllCalm(StartState([TwoChunks(a, {}, {2048}, 0)], [GuestWrite(0, 0, w)]), es)
  {
    hide Step, Exec, Enabled, Calm;
    var s := StartState([TwoChunks(a, {}, {2048}, 0)], [GuestWrite(0, 0, w)]);
    var e0, e1, e2 := BulkStep(true, false, []), GuestPerform(0), BulkStep(true, true, []);
    var s1 := RefuseSecondChunk(s, a);
    var s2 := WriteFirstSector(s1, a, w);
    t := ReadFirstChunk(s2, s2.devs[0].disk);
    NothingDone(s);
    ExecAppend(s, [], e0);
    ExecAppend(s, [] + [e0], e1);
    ExecAppend(s, [] + [e0] + [e1], e2);
    es := [] + [e0] + [e1] + [e2];
    NotCalm(s1);
    assert es[..|es| - 1] == [] + [e0] + [e1] && ([] + [e0] + [e1])[..1] == [] + [e0];
  }

  lemma NothingDone(s: State)
    ensures Exec(s, []) == Some(s)
  {
  }

  lemma NotCalm(s: State)
    requires |s.devs| == 1 && s.devs[0].sharedBase && s.devs[0].curSector == 0 < s.devs[0].completedSectors
    requires |s.writes| == 1 && s.writes[0].dev == s.writes[0].sector == 0 && |s.writes[0].data| == SECTOR_SIZE
    ensures !Calm(s, GuestPerform(0))
  {
    var x := 0;
    assert x in SectorsOf(s.writes[0].sector, |s.writes[0].data| / SECTOR_SIZE);
  }

  lemma OneDeviceReports(m: State)
    requires |m.devs| == 1 && m.devs[0].Total() == 4096
    ensures TotalSum(m.devs, 1) == 4096
    ensures Report(m, 0) ==
            var p := PercentOf(m.devs[0].completedSectors, 4096);
            if p != m.prevProgress then m.(prevProgress := p, wire := m.wire + [Progress(p)]) else m
  {
    assert TotalSum(m.devs, 0) == 0 && CompletedSum(m.devs, 0) == 0;
  }

  lemma RefuseSecondChunk(s: State, a: seq<Byte>) returns (t: State)
    requires |a| == 2 * CHUNK_BYTES && s.devs == [TwoChunks(a, {}, {2048}, 0)] && s.wire == [] && s.prevProgress == -1
    ensures Enabled(s, BulkStep(true, false, [])) && t == Step(s, BulkStep(true, false, []))
    ensures t == s.(devs := [TwoChunks(a, {}, {2048}, 2048)], wire := [Progress(50)], prevProgress := 50, error := true)
  {
    OneDeviceReports(s);
    assert FirstIncomplete(s.devs) == 0 && SearchEnd(s.devs[0]) == 2048;
    var m := BulkState(s, true, false, []);
    assert m == s.(devs := [TwoChunks(a, {}, {2048}, 2048)], error := true);
    OneDeviceReports(m);
    t := Step(s, BulkStep(true, false, []));
  }

  lemma WriteFirstSector(s: State, a: seq<Byte>, w: seq<Byte>) returns (t: State)
    requires |a| == 2 * CHUNK_BYTES && |w| == SECTOR_SIZE
    requires s.devs == [TwoChunks(a, {}, {2048}, 2048)] && s.writes == [GuestWrite(0, 0, w)]
    ensures Enabled(s, GuestPerform(0)) && t == Step(s, GuestPerform(0))
    ensures t == s.(devs := [TwoChunks(Splice(a, 0, w), {}, {0, 2048}, 2048)], writes := [])
  {
    t := Step(s, GuestPerform(0));
    assert SectorsOf(0, 1) == {0};
    var alloc: set<nat> := {2048};
    assert alloc + SectorsOf(0, 1) == {0, 2048};
    assert RemoveAt(s.writes, 0) == [];
  }

  lemma ReadFirstChunk(s: State, a: seq<Byte>) returns (t: State)
    requires |a| == 2 * CHUNK_BYTES && s.devs == [TwoChunks(a, {}, {0, 2048}, 2048)] && s.prevProgress == 50
    ensures Enabled(s, BulkStep(true, true, [])) && t == Step(s, BulkStep(true, true, []))
    ensures t.wire == s.wire + [Progress(0)] && t.error == s.error
  {
    OneDeviceReports(s);
    assert FirstIncomplete(s.devs) == 0 && SearchEnd(s.devs[0]) == 0;
    var m := BulkState(s, true, true, []);
    OneDeviceReports(m);
    t := Step(s, BulkStep(true, true, []));
  }
}
