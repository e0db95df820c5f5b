/** Live block migration in place: the state block_mig_state, its queues and its save handler. */
module BlockMigration {
  import opened Sectors
  import opened Migration
  import opened MigrationSafety
  import opened MigrationResult

  // ---------------------------------------------------------------- a measure for the bulk loops

  function Work(d: Dev): nat {
    if d.bulkCompleted then 0 else 1 + if d.curSector <= d.Total() then d.Total() - d.curSector else 0
  }

  function WorkSum(devs: seq<Dev>, n: nat): nat
    requires n <= |devs|
  {
    if n == 0 then 0 else WorkSum(devs, n - 1) + Work(devs[n - 1])
  }

  lemma WorkSumUpdate(devs: seq<Dev>, i: nat, d: Dev, n: nat)
    requires i < |devs| && n <= |devs|
    ensures WorkSum(devs[i := d], n) == WorkSum(devs, n) + if i < n then Work(d) - Work(devs[i]) else 0
  {
    if n > 0 {
      WorkSumUpdate(devs, i, d, n - 1);
    }
  }

  /** What a bulk step leaves alone, and the one device it moves. */
  lemma BulkShape(s: State, e: Event)
    requires Enabled(s, e) && e.BulkStep?
    ensures var t, i := Step(s, e), FirstIncomplete(s.devs);
            && t.devs == (if i < |s.devs| then s.devs[i := BulkDev(s.devs[i], e.ok)] else s.devs)
            && t.writes == s.writes && t.blkList == s.blkList
            && (!e.isAsync || i == |s.devs| ==> t.inFlight == s.inFlight)
  {
    hide TotalSum, CompletedSum, PercentOf, SearchEnd, BulkBase, BulkCount, ReadSectors;
  }

  lemma BulkDevMoves(d: Dev, ok: bool)
    requires DevOk(d) && !d.bulkCompleted
    ensures var d' := BulkDev(d, ok);
            d'.name == d.name && d'.disk == d.disk && AheadDev(d, d') && (ok ==> Work(d') < Work(d))
  {
    assert d.curSector <= SearchEnd(d);
  }

  lemma CursorInside(d: Dev)
    requires DevOk(d)
    ensures d.curSector <= d.Total()
  {
  }

  /** The same devices, with the same contents. */
  ghost predicate SameContents(a: seq<Dev>, b: seq<Dev>) {
    |a| == |b| && forall i :: 0 <= i < |a| ==> a[i].name == b[i].name && a[i].disk == b[i].disk
  }

  /** `t` has the outstanding writes of `s` and its devices, with cursors that are not behind and, ahead of
      them, the chunks that were dirty. */
  ghost predicate Ahead(s: State, t: State) {
    && t.writes == s.writes && SameContents(s.devs, t.devs)
    && forall i :: 0 <= i < |s.devs| ==> AheadDev(s.devs[i], t.devs[i])
  }

  ghost predicate AheadDev(d: Dev, d': Dev) {
    && d.curSector <= d'.curSector && d'.sharedBase == d.sharedBase
    && forall c: nat :: c in d.dirty && !d'.Covered(c) ==> c in d'.dirty
  }

  /** A step of the save handler; all others are the guest's and the drivers'. */
  predicate ByHandler(e: Event) {
    e.BulkStep? || e.FlushOne? || e.FlushError? || e.PutEos?
  }

  ghost predicate AllByHandler(es: seq<Event>) {
    forall e :: e in es ==> ByHandler(e)
  }

  // ---------------------------------------------------------------- flushing and submitting, at a rate

  /** What limits a call of the handler: the rate, and at each of its two flushes, before each block, whether the
      rate limiter of the stream objects. */
  datatype Limit = Limit(rate: nat, first: nat -> bool, second: nat -> bool)

  /** The steps `es` have sent the first |es| of the queued reads, in order; the limiter did not object. */
  ghost predicate SentBy(s: State, objects: nat -> bool, es: seq<Event>, t: State) {
    var n := |es|;
    && n <= |s.blkList| && |t.wire| == |s.wire| + n && t.wire[..|s.wire|] == s.wire
    && t == s.(blkList := s.blkList[n..], wire := t.wire, readDone := s.readDone - n, transferred := s.transferred + n)
    && (forall e :: e in es ==> e == FlushOne)
    && forall k :: 0 <= k < n ==> !objects(k) && Sends(s.devs, s.blkList[k], t.wire[|s.wire| + k])
  }

  /** Frame `f` is the completed read `b`. */
  ghost predicate Sends(devs: seq<Dev>, b: Blk, f: Frame) {
    b.ret >= 0 && b.dev < |devs| && b.data.Some? && f == Block(devs[b.dev].name, b.sector, b.data.value)
  }

  /** The steps `es` are a flush: it sends the queued reads in order, until none is left, the limiter objects,
      or the next one has failed, which is an error. */
  ghost predicate FlushedBy(s: State, objects: nat -> bool, es: seq<Event>, t: State) {
    var n := |es| - 1;
    if n >= 0 && es[n] == FlushError then
      && SentBy(s, objects, es[..n], t.(error := s.error)) && t.error
      && n < |s.blkList| && !objects(n) && s.blkList[n].ret < 0
    else SentBy(s, objects, es, t) && (|es| == |s.blkList| || objects(|es|))
  }

  /** Less is being read, or waits to be sent, than the rate allows. */
  predicate Below(s: State, rate: nat) {
    (s.submitted + s.readDone) * CHUNK_BYTES < rate
  }

  /** Asynchronous bulk calls, each made below the rate, and none after one that found nothing to read. */
  ghost predicate SubmittingBy(s: State, rate: nat, es: seq<Event>) {
    && (forall e :: e in es ==> e.BulkStep? && e.isAsync)
    && forall k :: 0 <= k < |es| ==> BelowAt(s, rate, es, k)
  }

  ghost predicate BelowAt(s: State, rate: nat, es: seq<Event>, k: nat)
    requires k < |es|
  {
    Below(After(s, es[..k]), rate) && (k > 0 ==> !AllComplete(After(s, es[..k - 1]).devs))
  }

  /** They go on until the rate is reached or one finds nothing to read. */
  ghost predicate SubmittedBy(s: State, rate: nat, es: seq<Event>) {
    && SubmittingBy(s, rate, es)
    && (Below(After(s, es), rate) ==> es != [] && AllComplete(After(s, es[..|es| - 1]).devs))
  }

  /** What every call of the handler does, up to the first error: flush, submit bulk reads, flush. */
  ghost predicate WorkedBy(s: State, l: Limit, es: seq<Event>, i: nat, j: nat)
    requires i <= j <= |es|
  {
    var s1, s2 := After(s, es[..i]), After(s, es[..j]);
    && FlushedBy(s, l.first, es[..i], s1)
    && if s1.error then i == |es|
       else SubmittedBy(s1, l.rate, es[i..j]) && FlushedBy(s2, l.second, es[j..], After(s, es))
  }

  ghost predicate Worked(s: State, l: Limit, es: seq<Event>) {
    exists i: nat, j: nat :: i <= j <= |es| && WorkedBy(s, l, es, i, j)
  }

  /** Synchronous bulk calls, until one finds nothing to read. */
  ghost predicate FinishedBy(s: State, es: seq<Event>) {
    && (forall e :: e in es ==> e.BulkStep? && !e.isAsync)
    && es != [] && forall k :: 0 <= k < |es| ==> (AllComplete(After(s, es[..k]).devs) <==> k == |es| - 1)
  }

  /** What a call of stage 3 does before its dirty pass: the work of every call and, unless there was an error,
      what is left of the bulk. */
  ghost predicate WorkedToEnd(s: State, l: Limit, es: seq<Event>) {
    exists n: nat :: n <= |es| && Worked(s, l, es[..n]) && EndedBy(After(s, es[..n]), es[n..])
  }

  ghost predicate EndedBy(s: State, es: seq<Event>) {
    if s.error then es == [] else FinishedBy(s, es)
  }

  /** The dirty pass has to read chunk `c` of device `i` and cannot: the driver fails, as it does for the chunks
      `bad`, or the chunk runs past the end of the device. */
  ghost predicate Unreadable(devs: seq<Dev>, bad: set<Key>, i: nat, c: nat) {
    i < |devs| && c in devs[i].dirty && c * CHUNK_BYTES < |devs[i].disk| && ((i, c) in bad || !devs[i].Full(c))
  }

  ghost predicate Readable(devs: seq<Dev>, bad: set<Key>, i: nat) {
    forall c: nat :: !Unreadable(devs, bad, i, c)
  }

  ghost predicate PassFails(devs: seq<Dev>, bad: set<Key>) {
    exists i: nat :: i < |devs| && !Readable(devs, bad, i)
  }

  /** The dirty pass fails if and only if some dirty chunk runs past the end of its device or cannot be read. */
  lemma PassFailsIff(devs: seq<Dev>, bad: set<Key>)
    ensures PassFails(devs, bad) <==>
            exists i: nat, c: nat ::
              && i < |devs| && c in devs[i].dirty && c * CHUNK_BYTES < |devs[i].disk|
              && ((i, c) in bad || |devs[i].disk| < (c + 1) * CHUNK_BYTES)
  {
    if PassFails(devs, bad) {
      var i: nat :| i < |devs| && !Readable(devs, bad, i);
      var c: nat :| Unreadable(devs, bad, i, c);
      assert c in devs[i].dirty;
    }
    if i: nat, c: nat :|
      && i < |devs| && c in devs[i].dirty && c * CHUNK_BYTES < |devs[i].disk|
      && ((i, c) in bad || |devs[i].disk| < (c + 1) * CHUNK_BYTES)
    {
      assert Unreadable(devs, bad, i, c);
      assert !Readable(devs, bad, i);
    }
  }

  // ---------------------------------------------------------------- what the handler may assume

  /** The invariant, as the save handler relies on it. */
  ghost predicate Steady(s: State, dest0: Disks) {
    Inv(s, dest0, Load(dest0, s.wire)) && WireOk(dest0, s.wire) && WritesMarked(s)
  }

  /** On a device with a shared base, where chunks may be skipped, outstanding guest writes are marked. */
  ghost predicate WritesMarked(s: State) {
    forall w, c: nat :: w in s.writes && w.dev < |s.devs| && s.devs[w.dev].sharedBase && !s.devs[w.dev].Covered(c) ==>
      c in s.devs[w.dev].dirty || w.Same(s.devs[w.dev].disk, c)
  }

  /** No outstanding guest write has anything left to change ahead of its device's bulk cursor. */
  ghost predicate WritesBehind(s: State) {
    forall w, c: nat :: w in s.writes && w.dev < |s.devs| && !s.devs[w.dev].Covered(c) ==> w.Same(s.devs[w.dev].disk, c)
  }

  lemma SameIsAhead(s: State)
    ensures Ahead(s, s) && Runs(s, [], s)
  {
  }

  lemma AheadIsSame(s: State, t: State)
    requires Ahead(s, t)
    ensures SameContents(s.devs, t.devs)
  {
  }

  lemma AheadOfAll(s: State, t: State, u: State)
    requires Ahead(s, t) && Ahead(t, u)
    ensures Ahead(s, u)
  {
  }

  /** An asynchronous bulk call can always be made. */
  lemma BulkCallEnabled(s: State, ok: bool, dest0: Disks)
    requires Steady(s, dest0) && s.devs != []
    ensures Enabled(s, BulkStep(true, ok, []))
  {
    TotalSumPositive(s.devs, |s.devs|);
  }

  lemma StaysMarked(s: State, t: State)
    requires WritesMarked(s) && Ahead(s, t)
    ensures WritesMarked(t)
  {
  }

  lemma StaysBehind(s: State, t: State)
    requires WritesBehind(s) && Ahead(s, t)
    ensures WritesBehind(t)
  {
  }

  /** What a bulk call settles is ahead of the cursor; an asynchronous one settles only what it skips. */
  lemma SettledAhead(s: State, e: Event, i: nat, c: nat)
    requires e.BulkStep? && Takes(s, e, i, c) && DevOk(s.devs[i])
    ensures !s.devs[i].Covered(c) && (e.isAsync ==> s.devs[i].sharedBase && c !in s.devs[i].dirty)
  {
    var d := s.devs[i];
    assert d.curSector <= SearchEnd(d);
  }

  lemma BulkNoRace(s: State, e: Event)
    requires e.BulkStep? && WritesMarked(s) && (e.isAsync || WritesBehind(s))
    requires forall i :: 0 <= i < |s.devs| ==> DevOk(s.devs[i])
    ensures NoRace(s, e)
  {
    hide DevOk;
    forall i: nat, c: nat, w | Takes(s, e, i, c) && w in s.writes && w.dev == i
      ensures w.Same(s.devs[i].disk, c)
    {
      SettledAhead(s, e, i, c);
    }
  }

  lemma SendHeadOk(s: State, dest0: Disks)
    requires Steady(s, dest0) && s.blkList != [] && s.blkList[0].ret >= 0
    ensures Enabled(s, FlushOne) && NoRace(s, FlushOne)
    ensures var t := Step(s, FlushOne); Steady(t, dest0) && t.devs == s.devs && t.writes == s.writes
  {
    assert s.blkList[0] in s.blkList && BlkOk(s.devs, s.blkList[0]);
    StepKeepsInv(s, FlushOne, dest0);
    StepKeepsWire(s, FlushOne, dest0, Load(dest0, s.wire));
  }

  lemma FlushErrorOk(s: State, dest0: Disks)
    requires Steady(s, dest0) && s.blkList != [] && s.blkList[0].ret < 0
    ensures Enabled(s, FlushError) && NoRace(s, FlushError) && Step(s, FlushError) == s.(error := true)
    ensures Steady(s.(error := true), dest0)
  {
    StepKeepsInv(s, FlushError, dest0);
  }

  lemma SendHeadShape(s: State)
    requires Enabled(s, FlushOne)
    ensures s.blkList != [] && s.blkList[0].dev < |s.devs| && s.blkList[0].data.Some?
    ensures var blk := s.blkList[0];
            Step(s, FlushOne) == s.(wire := s.wire + [Block(s.devs[blk.dev].name, blk.sector, blk.data.value)],
                                    blkList := s.blkList[1..], readDone := s.readDone - 1,
                                    transferred := s.transferred + 1)
  {
  }

  lemma BulkStepOk(s: State, e: Event, dest0: Disks)
    requires Steady(s, dest0) && Enabled(s, e) && e.BulkStep? && (e.isAsync || WritesBehind(s))
    ensures NoRace(s, e) && Steady(Step(s, e), dest0)
  {
    BulkNoRace(s, e);
    StepKeepsInv(s, e, dest0);
    StepKeepsWire(s, e, dest0, Load(dest0, s.wire));
    BulkCursorGrows(s, e);
    StaysMarked(s, Step(s, e));
  }

  lemma BulkCursorGrows(s: State, e: Event)
    requires Enabled(s, e) && e.BulkStep? && forall i :: 0 <= i < |s.devs| ==> DevOk(s.devs[i])
    ensures Ahead(s, Step(s, e))
  {
    BulkShape(s, e);
    if FirstIncomplete(s.devs) < |s.devs| {
      BulkDevMoves(s.devs[FirstIncomplete(s.devs)], e.ok);
    }
  }

  lemma BulkCallOk(s: State, e: Event, dest0: Disks)
    requires Steady(s, dest0) && Enabled(s, e) && e.BulkStep? && (e.isAsync || WritesBehind(s))
    ensures var t := Step(s, e);
            && NoRace(s, e) && Steady(t, dest0) && Ahead(s, t)
            && t.blkList == s.blkList && (AllComplete(s.devs) || !e.isAsync ==> t.inFlight == s.inFlight)
            && (AllComplete(s.devs) ==> t.devs == s.devs)
            && (e.ok && !AllComplete(s.devs) ==> WorkSum(t.devs, |t.devs|) < WorkSum(s.devs, |s.devs|))
    ensures AllComplete(s.devs) <==> FirstIncomplete(s.devs) >= |s.devs|
  {
    BulkStepOk(s, e, dest0);
    BulkShape(s, e);
    BulkCursorGrows(s, e);
    if FirstIncomplete(s.devs) < |s.devs| {
      BulkStepWork(s, e);
    }
  }

  // ---------------------------------------------------------------- how flushing and submitting go on

  lemma RunsAfter(s: State, es: seq<Event>, t: State)
    requires Runs(s, es, t)
    ensures After(s, es) == t
  {
  }

  lemma NothingSent(s: State, objects: nat -> bool)
    ensures SentBy(s, objects, [], s)
  {
    assert s.blkList[0..] == s.blkList && s.wire[..|s.wire|] == s.wire;
  }

  lemma SentOneMore(s: State, objects: nat -> bool, es: seq<Event>, t: State)
    requires SentBy(s, objects, es, t) && Enabled(t, FlushOne) && !objects(|es|)
    ensures SentBy(s, objects, es + [FlushOne], Step(t, FlushOne))
  {
    SendHeadShape(t);
    var n := |es|;
    assert t.blkList[0] == s.blkList[n] && t.blkList[1..] == s.blkList[n + 1..];
    hide Enabled, Step;
    SentTwo(s, objects, es, t, Step(t, FlushOne));
  }

  lemma SentTwo(s: State, objects: nat -> bool, es: seq<Event>, t: State, u: State)
    requires SentBy(s, objects, es, t) && !objects(|es|) && |es| < |s.blkList|
    requires |u.wire| == |t.wire| + 1 && u.wire[..|t.wire|] == t.wire
    requires Sends(s.devs, s.blkList[|es|], u.wire[|t.wire|])
    requires u == t.(wire := u.wire, blkList := s.blkList[|es| + 1..], readDone := t.readDone - 1,
                     transferred := t.transferred + 1)
    ensures SentBy(s, objects, es + [FlushOne], u)
  {
    hide Sends;
    assert u.wire[..|s.wire|] == u.wire[..|t.wire|][..|s.wire|];
    forall k | 0 <= k < |es| + 1
      ensures !objects(k) && Sends(s.devs, s.blkList[k], u.wire[|s.wire| + k])
    {
      if k < |es| {
        assert u.wire[..|t.wire|][|s.wire| + k] == u.wire[|s.wire| + k];
      }
    }
  }

  lemma FlushFails(s: State, objects: nat -> bool, es: seq<Event>, t: State)
    requires SentBy(s, objects, es, t) && |es| < |s.blkList| && !objects(|es|) && s.blkList[|es|].ret < 0
    ensures FlushedBy(s, objects, es + [FlushError], t.(error := true))
  {
    hide SentBy;
    assert (es + [FlushError])[..|es|] == es && t.(error := true).(error := s.error) == t by {
      assert t.error == s.error by { SentKeepsError(s, objects, es, t); }
    }
  }

  lemma FlushStops(s: State, objects: nat -> bool, es: seq<Event>, t: State)
    requires SentBy(s, objects, es, t) && (t.blkList == [] || objects(|es|))
    ensures FlushedBy(s, objects, es, t)
  {
    assert es != [] ==> es[|es| - 1] in es;
    hide SentBy;
    SentKeepsError(s, objects, es, t);
  }

  lemma SentKeepsError(s: State, objects: nat -> bool, es: seq<Event>, t: State)
    requires SentBy(s, objects, es, t)
    ensures t.error == s.error && t.devs == s.devs && |es| <= |s.blkList| && t.blkList == s.blkList[|es|..]
    ensures forall e :: e in es ==> e == FlushOne
  {
  }

  /** One more asynchronous bulk call, made below the rate. */
  lemma SubmittedOneMore(s: State, rate: nat, es: seq<Event>, t: State, e: Event)
    requires SubmittingBy(s, rate, es) && Runs(s, es, t) && Below(t, rate) && e.BulkStep? && e.isAsync
    requires es != [] ==> !AllComplete(After(s, es[..|es| - 1]).devs)
    ensures SubmittingBy(s, rate, es + [e])
  {
    hide Below, AllComplete, Exec, RaceFree;
    RunsAfter(s, es, t);
    hide After;
    var all := es + [e];
    forall k | 0 <= k < |all|
      ensures BelowAt(s, rate, all, k)
    {
      assert k < |es| ==> BelowAt(s, rate, es, k);
      assert k <= |es| && all[..k] == es[..k];
      if k > 0 {
        assert all[..k - 1] == es[..k - 1];
      }
      if k == |es| {
        assert es[..k] == es;
      }
    }
  }

  /** One more synchronous bulk call, before which a read was left. */
  lemma FinishedOneMore(s: State, es: seq<Event>, t: State, e: Event)
    requires FinishingBy(s, es) && Runs(s, es, t) && e.BulkStep? && !e.isAsync
    ensures !AllComplete(t.devs) ==> FinishingBy(s, es + [e])
    ensures AllComplete(t.devs) ==> FinishedBy(s, es + [e])
  {
    hide AllComplete, Exec, RaceFree;
    RunsAfter(s, es, t);
    hide After;
    var all := es + [e];
    forall k | 0 <= k < |all|
      ensures all[..k] == es[..k]
    {
    }
    assert es[..|es|] == es;
  }

  ghost predicate FinishingBy(s: State, es: seq<Event>) {
    && (forall e :: e in es ==> e.BulkStep? && !e.isAsync)
    && forall k :: 0 <= k < |es| ==> !AllComplete(After(s, es[..k]).devs)
  }

  lemma NothingSubmitted(s: State, rate: nat)
    ensures SubmittingBy(s, rate, [])
  {
  }

  lemma NothingFinished(s: State)
    ensures FinishingBy(s, [])
  {
  }

  /** A bulk call asks for at most one more read, and sends nothing that was queued. */
  lemma BulkCounts(s: State, e: Event)
    requires Enabled(s, e) && e.BulkStep? && e.isAsync
    ensures var t := Step(s, e);
            && t.readDone == s.readDone && s.submitted <= t.submitted <= s.submitted + 1
            && t.submitted == s.submitted + if Asks(s, e) then 1 else 0
  {
    hide TotalSum, CompletedSum, PercentOf, SearchEnd, BulkBase, BulkCount, ReadSectors;
  }

  /** A bulk call finds something to read, and the read is accepted. */
  predicate Asks(s: State, e: Event) {
    var i := FirstIncomplete(s.devs);
    e.BulkStep? && e.ok && i < |s.devs| && SearchEnd(s.devs[i]) < s.devs[i].Total()
  }

  /** Submitting never overshoots the rate by as much as one chunk; at the rate it does nothing. */
  lemma {:induction false} SubmitWithinRate(s: State, rate: nat, es: seq<Event>, t: State)
    requires Runs(s, es, t) && SubmittingBy(s, rate, es)
    ensures !Below(s, rate) ==> es == [] && t == s
    ensures t.readDone == s.readDone && s.submitted <= t.submitted <= s.submitted + |es|
    ensures (t.submitted + t.readDone) * CHUNK_BYTES < rate + CHUNK_BYTES || t.submitted == s.submitted
  {
    hide Enabled, Step, NoRace, AllComplete;
    if es != [] {
      var init, e := es[..|es| - 1], es[|es| - 1];
      var u := After(s, init);
      assert es[..0] == [] && After(s, []) == s && e in es;
      assert BelowAt(s, rate, es, 0) && BelowAt(s, rate, es, |es| - 1);
      SubmittingFront(s, rate, es);
      SubmitWithinRate(s, rate, init, u);
      BulkCounts(u, e);
    }
  }

  lemma SubmittingFront(s: State, rate: nat, es: seq<Event>)
    requires SubmittingBy(s, rate, es) && es != []
    ensures SubmittingBy(s, rate, es[..|es| - 1])
  {
    hide After, Below, AllComplete;
    var init := es[..|es| - 1];
    forall k | 0 <= k < |init|
      ensures BelowAt(s, rate, init, k)
    {
      assert BelowAt(s, rate, es, k);
      assert init[..k] == es[..k];
      if k > 0 {
        assert init[..k - 1] == es[..k - 1];
      }
    }
  }

  lemma FlushedOnly(s: State, l: Limit, es: seq<Event>, t: State)
    requires Runs(s, es, t) && FlushedBy(s, l.first, es, t) && t.error
    ensures Worked(s, l, es)
  {
    hide FlushedBy, Exec, RaceFree, SubmittedBy;
    RunsAfter(s, es, t);
    assert es[..|es|] == es;
    assert WorkedBy(s, l, es, |es|, |es|);
  }

  lemma AllWorked(s: State, l: Limit, f: seq<Event>, s1: State, es: seq<Event>, s2: State, g: seq<Event>, t: State)
    requires Runs(s, f, s1) && FlushedBy(s, l.first, f, s1) && !s1.error && AllByHandler(f)
    requires Runs(s1, es, s2) && SubmittedBy(s1, l.rate, es)
    requires Runs(s2, g, t) && FlushedBy(s2, l.second, g, t) && AllByHandler(g)
    ensures Runs(s, f + es + g, t) && Worked(s, l, f + es + g) && AllByHandler(f + es + g)
  {
    SubmitsByHandler(s1, l.rate, es);
    hide FlushedBy, SubmittedBy, Exec, RaceFree, Runs;
    RunsConcat(s, f, s1, es, s2);
    RunsConcat(s, f + es, s2, g, t);
    RunsAfter(s, f, s1);
    RunsAfter(s, f + es, s2);
    RunsAfter(s, f + es + g, t);
    hide After;
    var all, i, j := f + es + g, |f|, |f| + |es|;
    assert all[..i] == f && all[..j] == f + es && all[i..j] == es && all[j..] == g;
    assert WorkedBy(s, l, all, i, j);
  }

  lemma WorkedNoEnd(s: State, l: Limit, es: seq<Event>, t: State)
    requires Runs(s, es, t) && Worked(s, l, es) && t.error
    ensures WorkedToEnd(s, l, es)
  {
    hide Worked, Exec, RaceFree;
    RunsAfter(s, es, t);
    assert es[..|es|] == es && es[|es|..] == [];
  }

  lemma WorkedThenEnd(s: State, l: Limit, es: seq<Event>, t: State, rest: seq<Event>)
    requires Runs(s, es, t) && Worked(s, l, es) && !t.error && FinishedBy(t, rest) && AllByHandler(es)
    ensures WorkedToEnd(s, l, es + rest) && AllByHandler(es + rest)
  {
    FinishesByHandler(t, rest);
    hide Worked, Exec, RaceFree, FinishedBy;
    RunsAfter(s, es, t);
    var all, n := es + rest, |es|;
    assert all[..n] == es && all[n..] == rest;
    assert EndedBy(After(s, all[..n]), all[n..]);
  }

  lemma FinishesByHandler(s: State, es: seq<Event>)
    requires FinishedBy(s, es)
    ensures AllByHandler(es)
  {
  }

  lemma SubmitsByHandler(s: State, rate: nat, es: seq<Event>)
    requires SubmittedBy(s, rate, es)
    ensures AllByHandler(es)
  {
  }

  // ---------------------------------------------------------------- the state and its methods

  class BlkMigState {
    /** The parameters of the migration, set before it begins. */
    const blkEnable: bool
    const sharedBase: bool
    var devs: seq<Dev>
    var writes: seq<GuestWrite>
    var inFlight: seq<Blk>
    var blkList: seq<Blk>
    var submitted: int
    var readDone: int
    var transferred: int
    var totalSectorSum: int
    var prevProgress: int
    var wire: seq<Frame>
    var error: bool

    function View(): State
      reads this
    {
      State(devs, writes, inFlight, blkList, submitted, readDone, transferred, prevProgress, wire, error)
    }

    /** Migration is under way towards a destination that started as `dest0`. */
    ghost predicate Active(dest0: Disks)
      reads this
    {
      && totalSectorSum == TotalSum(devs, |devs|) && devs != []
      && Steady(View(), dest0)
    }

    /** A bulk read completes with `ret`: the callback of the asynchronous read. */
    method ReadCb(k: nat, ret: int)
      requires Enabled(View(), ReadComplete(k, ret))
      modifies this
      ensures View() == Step(old(View()), ReadComplete(k, ret))
      ensures inFlight == old(inFlight)[..k] + old(inFlight)[k + 1..]
      ensures blkList == old(blkList) + [old(inFlight)[k].(ret := ret)]
      ensures totalSectorSum == old(totalSectorSum)
    {
      var blk := inFlight[k].(ret := ret);
      inFlight := inFlight[..k] + inFlight[k + 1..];
      blkList := blkList + [blk];
      submitted := submitted - 1;
      readDone := readDone + 1;
    }

    /** The driver's answer for a sector inside the device: whether it is allocated, and a number of
        sectors from there, at least one, in the same condition. */
    method IsAllocated(i: nat, sector: nat) returns (present: bool, nr: nat)
      requires i < |devs| && sector < devs[i].Total()
      ensures present <==> sector in devs[i].alloc
      ensures nr > 0 && sector + nr <= devs[i].Total()
      ensures forall s :: sector <= s < sector + nr ==> (s in devs[i].alloc <==> present)
    {
      present := sector in devs[i].alloc;
      nr :| nr > 0 && sector + nr <= devs[i].Total()
            && forall s :: sector <= s < sector + nr ==> (s in devs[i].alloc <==> present);
    }

    /** The sector the bulk phase of device `i` goes on from. */
    method SearchAllocated(i: nat) returns (curSector: nat)
      requires i < |devs| && devs[i].curSector <= devs[i].Total()
      ensures curSector == SearchEnd(devs[i])
    {
      var totalSectors := devs[i].Total();
      curSector := devs[i].curSector;
      if devs[i].sharedBase {
        while curSector < totalSectors
          invariant devs[i].curSector <= curSector <= totalSectors
          invariant NextAllocated(devs[i].alloc, curSector, totalSectors) == SearchEnd(devs[i])
        {
          var present, nr := IsAllocated(i, curSector);
          if present {
            break;
          }
          NextAllocatedSkips(devs[i].alloc, curSector, nr, totalSectors);
          curSector := curSector + nr;
        }
      }
    }

    /** Starts reading sectors of device `i`, or reads and sends them, and moves the device on. */
    method ReadBulk(i: nat, sector: nat, nr: nat, isAsync: bool, junk: seq<Byte>)
      requires i < |devs| && (sector + nr) * SECTOR_SIZE <= |devs[i].disk|
      modifies this`devs, this`inFlight, this`submitted, this`wire
      ensures devs ==
                old(devs)[i := old(devs)[i].(dirty := old(devs)[i].dirty - {sector / CHUNK_SECTORS},
                                             curSector := sector + nr)]
      ensures isAsync ==>
                && inFlight == old(inFlight) + [Blk(i, sector, nr, None, 0)]
                && submitted == old(submitted) + 1 && wire == old(wire)
      ensures !isAsync ==>
                && wire == old(wire) + [Block(devs[i].name, sector, ReadSectors(devs[i].disk, sector, nr) + junk)]
                && inFlight == old(inFlight) && submitted == old(submitted)
    {
      if isAsync {
        inFlight := inFlight + [Blk(i, sector, nr, None, 0)];
        submitted := submitted + 1;
      } else {
        wire := wire + [Block(devs[i].name, sector, ReadSectors(devs[i].disk, sector, nr) + junk)];
      }
      devs := devs[i := devs[i].(dirty := devs[i].dirty - {sector / CHUNK_SECTORS}, curSector := sector + nr)];
    }

    /** Reads the next chunk of device `i`, asynchronously or at once; `ok` tells whether the read
        was accepted, `junk` is what the buffer holds past the end of a partial chunk. */
    method SaveDeviceBulk(i: nat, isAsync: bool, ok: bool, junk: seq<Byte>) returns (completed: bool)
      requires i < |devs| && DevOk(devs[i])
      modifies this
      ensures View() == SaveDevice(old(View()), i, isAsync, ok, junk)
      ensures completed <==> DevDone(old(devs)[i], ok)
      ensures totalSectorSum == old(totalSectorSum)
    {
      hide SearchEnd, ReadSectors, DevOk;
      ghost var s := View();
      CursorInside(devs[i]);
      var totalSectors := devs[i].Total();
      var curSector := SearchAllocated(i);
      if curSector >= totalSectors {
        devs := devs[i := devs[i].(curSector := totalSectors, completedSectors := totalSectors)];
        return true;
      }
      devs := devs[i := devs[i].(completedSectors := curSector)];
      curSector := curSector - curSector % CHUNK_SECTORS;
      var nrSectors := CHUNK_SECTORS;
      if totalSectors - curSector < CHUNK_SECTORS {
        nrSectors := totalSectors - curSector;
      }
      if !ok {
        error := true;
        return false;
      }
      ReadBulk(i, curSector, nrSectors, isAsync, junk);
      completed := devs[i].curSector >= totalSectors;
      assert devs == s.devs[i := SaveDev(s.devs[i], ok)];
    }

    /** Saves from device `i` and marks it completed when it is. */
    method SaveAndMark(i: nat, isAsync: bool, ok: bool, junk: seq<Byte>)
      requires i < |devs| && DevOk(devs[i]) && !devs[i].bulkCompleted
      modifies this
      ensures View() == BulkDevice(old(View()), i, isAsync, ok, junk)
      ensures totalSectorSum == old(totalSectorSum)
    {
      var completed := SaveDeviceBulk(i, isAsync, ok, junk);
      if completed {
        devs := devs[i := devs[i].(bulkCompleted := true)];
      }
    }

    /** The loop over devices of blk_mig_save_bulked_block: a bulk read of the first incomplete one,
        and the sum of the sectors completed up to there. */
    method BulkFirstIncomplete(isAsync: bool, ok: bool, junk: seq<Byte>) returns (ret: bool, completedSectorSum: nat)
      requires forall i :: 0 <= i < |devs| ==> DevOk(devs[i])
      modifies this
      ensures View() == BulkState(old(View()), isAsync, ok, junk)
      ensures ret <==> FirstIncomplete(old(devs)) < |old(devs)|
      ensures completedSectorSum == CompletedSum(devs, Min(FirstIncomplete(old(devs)) + 1, |devs|))
      ensures totalSectorSum == old(totalSectorSum)
    {
      hide DevOk, SaveDev, SaveDevice;
      ghost var s0 := View();
      ghost var first := FirstIncomplete(devs);
      completedSectorSum := 0;
      ret := false;
      var i := 0;
      while i < |devs|
        invariant 0 <= i <= first <= |devs|
        invariant View() == s0 && totalSectorSum == old(totalSectorSum)
        invariant completedSectorSum == CompletedSum(devs, i)
      {
        if !devs[i].bulkCompleted {
          assert i == first;
          SaveAndMark(i, isAsync, ok, junk);
          CompletedUpTo(s0.devs, i, BulkDev(s0.devs[i], ok));
          completedSectorSum := completedSectorSum + devs[i].completedSectors;
          return true, completedSectorSum;
        }
        completedSectorSum := completedSectorSum + devs[i].completedSectors;
        i := i + 1;
      }
    }

    /** Puts a progress frame on the wire when the percentage has changed. */
    method PutProgress(completedSectorSum: nat, ghost first: nat)
      requires first <= |devs| && completedSectorSum == CompletedSum(devs, Min(first + 1, |devs|))
      requires totalSectorSum == TotalSum(devs, |devs|) > 0
      modifies this`prevProgress, this`wire
      ensures View() == Report(old(View()), first)
    {
      var progress: nat := completedSectorSum * 100 / totalSectorSum;
      if progress != prevProgress {
        prevProgress := progress;
        wire := wire + [Progress(progress)];
      }
    }

    /** One call of blk_mig_save_bulked_block: a bulk read of the first incomplete device, and a
        progress frame when the percentage has changed. */
    method SaveBulkedBlock(isAsync: bool, ok: bool, junk: seq<Byte>) returns (ret: bool)
      requires Enabled(View(), BulkStep(isAsync, ok, junk)) && totalSectorSum == TotalSum(devs, |devs|)
      requires forall i :: 0 <= i < |devs| ==> DevOk(devs[i])
      modifies this
      ensures View() == Step(old(View()), BulkStep(isAsync, ok, junk))
      ensures ret <==> FirstIncomplete(old(devs)) < |old(devs)|
      ensures totalSectorSum == old(totalSectorSum) == TotalSum(devs, |devs|)
    {
      hide BulkState, TotalSum, CompletedSum, Percent, DevOk;
      ghost var s0 := View();
      var sum;
      ret, sum := BulkFirstIncomplete(isAsync, ok, junk);
      TotalSumSame(s0.devs, devs, |devs|);
      PutProgress(sum, FirstIncomplete(s0.devs));
    }

    /** Sends the block at the head of the queue. */
    method SendHead(ghost dest0: Disks)
      requires Active(dest0) && blkList != [] && blkList[0].ret >= 0
      modifies this`blkList, this`wire, this`readDone, this`transferred
      ensures Active(dest0)
      ensures Enabled(old(View()), FlushOne) && NoRace(old(View()), FlushOne) && View() == Step(old(View()), FlushOne)
      ensures blkList == old(blkList)[1..]
    {
      hide Step, Steady, Enabled, TotalSum;
      SendHeadOk(View(), dest0);
      SendHeadShape(View());
      ghost var t := Step(View(), FlushOne);
      var blk := blkList[0];
      wire := wire + [Block(devs[blk.dev].name, blk.sector, blk.data.value)];
      blkList := blkList[1..];
      readDone := readDone - 1;
      transferred := transferred + 1;
      assert View() == t;
    }

    /** Sends completed reads until the queue is empty, the rate limiter objects, or one of them
        turns out to have failed. */
    method FlushBlks(objects: nat -> bool, ghost dest0: Disks) returns (ghost es: seq<Event>)
      requires Active(dest0)
      modifies this`blkList, this`wire, this`readDone, this`transferred, this`error
      ensures Active(dest0)
      ensures Runs(old(View()), es, View()) && FlushedBy(old(View()), objects, es, View()) && AllByHandler(es)
      ensures !error && (forall k :: !objects(k)) ==> blkList == []
      ensures old(error) ==> error
    {
      es := [];
      hide Steady, Step, Runs, Enabled, TotalSum, SentBy, FlushedBy;
      ghost var s0 := View();
      SameIsAhead(s0);
      NothingSent(s0, objects);
      var n: nat := 0;
      while blkList != []
        invariant Active(dest0) && n == |es|
        invariant Runs(s0, es, View()) && SentBy(s0, objects, es, View())
        decreases |blkList|
      {
        SentKeepsError(s0, objects, es, View());
        if objects(n) {
          break;
        }
        if blkList[0].ret < 0 {
          FlushErrorOk(View(), dest0);
          RunsOn(s0, es, View(), FlushError);
          FlushFails(s0, objects, es, View());
          error := true;
          es := es + [FlushError];
          return;
        }
        ghost var s := View();
        SendHead(dest0);
        SentOneMore(s0, objects, es, s);
        RunsOn(s0, es, s, FlushOne);
        es := es + [FlushOne];
        n := n + 1;
      }
      SentKeepsError(s0, objects, es, View());
      FlushStops(s0, objects, es, View());
    }

    /** One bulk call, while the state keeps the invariant. */
    method BulkCall(isAsync: bool, ok: bool, junk: seq<Byte>, ghost dest0: Disks) returns (more: bool)
      requires Active(dest0) && Enabled(View(), BulkStep(isAsync, ok, junk)) && (isAsync || WritesBehind(View()))
      modifies this
      ensures Active(dest0)
      ensures View() == Step(old(View()), BulkStep(isAsync, ok, junk))
      ensures NoRace(old(View()), BulkStep(isAsync, ok, junk))
      ensures more <==> !AllComplete(old(devs))
      ensures more && ok ==> WorkSum(devs, |devs|) < WorkSum(old(devs), |old(devs)|)
      ensures blkList == old(blkList) && Ahead(old(View()), View())
      ensures !more || !isAsync ==> inFlight == old(inFlight)
      ensures !more ==> devs == old(devs)
    {
      ghost var t := Step(View(), BulkStep(isAsync, ok, junk));
      BulkCallOk(View(), BulkStep(isAsync, ok, junk), dest0);
      more := SaveBulkedBlock(isAsync, ok, junk);
      assert View() == t;
    }

    /** Issues asynchronous bulk reads until as many are outstanding as the rate allows, or there is
        nothing more to read. At most `failures` of the reads are refused. */
    method SubmitBulk(rate: nat, failures: nat, ghost dest0: Disks) returns (ghost es: seq<Event>)
      requires Active(dest0)
      modifies this
      ensures Active(dest0)
      ensures Runs(old(View()), es, View()) && SubmittedBy(old(View()), rate, es)
      ensures AllComplete(old(devs)) ==> devs == old(devs) && inFlight == old(inFlight)
      ensures Ahead(old(View()), View())
      ensures (submitted + readDone) * CHUNK_BYTES < rate ==> AllComplete(devs)
      ensures old((submitted + readDone) * CHUNK_BYTES >= rate) ==> View() == old(View())
      ensures (submitted + readDone) * CHUNK_BYTES < rate + CHUNK_BYTES || submitted == old(submitted)
    {
      hide Steady, Step, Runs, Enabled, Ahead, WorkSum, SubmittingBy, After, AllComplete, TotalSum, NoRace;
      hide WritesBehind;
      es := [];
      ghost var s0 := View();
      ghost var last := s0;
      SameIsAhead(s0);
      NothingSubmitted(s0, rate);
      var failing := failures;
      while (submitted + readDone) * CHUNK_BYTES < rate
        invariant Active(dest0)
        invariant Runs(s0, es, View()) && SubmittingBy(s0, rate, es)
        invariant es != [] ==> last == After(s0, es[..|es| - 1]) && !AllComplete(last.devs)
        invariant AllComplete(s0.devs) ==> devs == s0.devs && inFlight == s0.inFlight
        invariant Ahead(s0, View())
        decreases failing, WorkSum(devs, |devs|)
      {
        var refused: bool := *;
        refused := refused && failing > 0;
        BulkCallEnabled(View(), !refused, dest0);
        ghost var s := View();
        ghost var e := BulkStep(true, !refused, []);
        var more := BulkCall(true, !refused, [], dest0);
        SubmittedOneMore(s0, rate, es, s, e);
        RunsOn(s0, es, s, e);
        RunsAfter(s0, es, s);
        AheadOfAll(s0, s, View());
        es, last := es + [e], s;
        if !more {
          break;
        }
        if refused {
          failing := failing - 1;
        }
      }
      RunsAfter(s0, es, View());
      SubmitWithinRate(s0, rate, es, View());
    }

    /** Whether nothing is in flight and every device is through its bulk phase. Completed reads
        that are still queued do not count. */
    method IsStage2Completed() returns (completed: bool)
      ensures completed <==> submitted <= 0 && AllComplete(devs)
    {
      if submitted > 0 {
        return false;
      }
      for i := 0 to |devs|
        invariant forall j :: 0 <= j < i ==> devs[j].bulkCompleted
      {
        if !devs[i].bulkCompleted {
          return false;
        }
      }
      return true;
    }

    /** Sends chunk `c` of device `i` if it is dirty, and marks it clean. A chunk that runs past the
        end of its device cannot be read whole; that is an error, like any other failing read. */
    method SaveDirtyChunk(i: nat, c: nat, bad: set<Key>, ghost mid: State, ghost dest0: Disks) returns (ok: bool)
      requires WireOk(dest0, wire)
      requires Inv(mid, dest0, Load(dest0, mid.wire)) && AllComplete(mid.devs)
      requires PassOk(mid, dest0, devs, Load(dest0, wire), i, c)
      requires i < |devs| && c * CHUNK_BYTES < |devs[i].disk|
      modifies this`devs, this`wire, this`error
      ensures error == (old(error) || !ok) && (ok <==> !Unreadable(mid.devs, bad, i, c))
      ensures ok ==> PassOk(mid, dest0, devs, Load(dest0, wire), i, c + 1) && WireOk(dest0, wire)
      ensures ok ==> Pass(devs, wire) == SendChunk(old(Pass(devs, wire)), i, c)
    {
      hide WireOk, Inv, FinalChunk, DevOk, Load, LoadFrame, Chunk;
      AsInMid(mid, dest0, devs, Load(dest0, wire), i, c);
      if c in devs[i].dirty {
        if (i, c) in bad || (c + 1) * CHUNK_BYTES > |devs[i].disk| {
          error := true;
          return false;
        }
        SendDirtyOk(mid, dest0, devs, wire, i, c);
        var buf := ReadSectors(devs[i].disk, c * CHUNK_SECTORS, CHUNK_SECTORS);
        wire := wire + [Block(devs[i].name, c * CHUNK_SECTORS, buf)];
        devs := devs[i := devs[i].(dirty := devs[i].dirty - {c})];
      } else {
        CleanIsFinal(mid, dest0, i, c);
        PassClean(mid, dest0, devs, Load(dest0, wire), i, c);
      }
      return true;
    }

    /** Sends every dirty chunk of device `i` below its bulk cursor, up to the first error. */
    method SaveDirtyDevice(i: nat, bad: set<Key>, ghost mid: State, ghost dest0: Disks) returns (ok: bool)
      requires Inv(mid, dest0, Load(dest0, mid.wire)) && AllComplete(mid.devs)
      requires i < |devs| && PassOk(mid, dest0, devs, Load(dest0, wire), i, 0) && WireOk(dest0, wire)
      modifies this`devs, this`wire, this`error
      ensures error == (old(error) || !ok) && (ok <==> Readable(mid.devs, bad, i))
      ensures ok ==> PassOk(mid, dest0, devs, Load(dest0, wire), i + 1, 0) && WireOk(dest0, wire)
      ensures ok ==> Pass(devs, wire) == SendDev(old(Pass(devs, wire)), i, ChunksUpTo(old(devs[i].curSector)))
    {
      hide SendDev, SendChunk, ChunksUpTo, Inv, AllComplete, PassOk, WireOk, Unreadable;
      PassDevs(mid, dest0, devs, Load(dest0, wire), i, 0);
      var sector: nat := 0;
      ghost var cur := devs[i].curSector;
      ghost var p := Pass(devs, wire);
      SendDevStep(p, i, 0);
      ChunkOfSector(0, cur);
      while sector < devs[i].curSector
        invariant i < |devs| && error == old(error)
        invariant devs[i].curSector == cur && sector % CHUNK_SECTORS == 0 && sector / CHUNK_SECTORS <= ChunksUpTo(cur)
        invariant Pass(devs, wire) == SendDev(p, i, sector / CHUNK_SECTORS)
        invariant PassOk(mid, dest0, devs, Load(dest0, wire), i, sector / CHUNK_SECTORS) && WireOk(dest0, wire)
        invariant forall e: nat :: e < sector / CHUNK_SECTORS ==> !Unreadable(mid.devs, bad, i, e)
        decreases cur - sector
      {
        PassDevs(mid, dest0, devs, Load(dest0, wire), i, sector / CHUNK_SECTORS);
        ok := SaveDirtyChunk(i, sector / CHUNK_SECTORS, bad, mid, dest0);
        if !ok {
          return;
        }
        SendDevStep(p, i, sector / CHUNK_SECTORS);
        ChunkOfSector(sector, cur);
        sector := sector + CHUNK_SECTORS;
      }
      ChunkOfSector(sector, cur);
      PassDevs(mid, dest0, devs, Load(dest0, wire), i, sector / CHUNK_SECTORS);
      NoneBehind(mid.devs, bad, i, cur);
      PassNextDev(mid, dest0, devs, Load(dest0, wire), i, sector / CHUNK_SECTORS);
      ok := true;
    }

    /** Sends every dirty chunk below the bulk cursors, up to the first error. */
    method SaveDirtyBlocks(bad: set<Key>, ghost mid: State, ghost dest0: Disks)
      requires WireOk(dest0, wire) && mid == View() && Inv(mid, dest0, Load(dest0, mid.wire)) && AllComplete(devs)
      modifies this`devs, this`wire, this`error
      ensures error <==> old(error) || PassFails(mid.devs, bad)
      ensures !PassFails(mid.devs, bad) ==> PassOk(mid, dest0, devs, Load(dest0, wire), |mid.devs|, 0)
      ensures !PassFails(mid.devs, bad) ==>
                WireOk(dest0, wire) && Pass(devs, wire) == SendAll(Pass(mid.devs, mid.wire), |mid.devs|)
    {
      hide Inv, PassOk, WireOk, AllComplete, SendDev, SendAll, Readable, Load, ChunksUpTo, DevsOk;
      InvDevs(mid, dest0, Load(dest0, mid.wire));
      PassStart(mid, dest0);
      SendAllStep(Pass(devs, wire), 0);
      PassCount(mid, dest0, devs, Load(dest0, wire), 0);
      var i: nat := 0;
      while i < |devs|
        invariant i <= |devs| == |mid.devs| && error == old(error)
        invariant PassOk(mid, dest0, devs, Load(dest0, wire), i, 0) && WireOk(dest0, wire)
        invariant Pass(devs, wire) == SendAll(Pass(mid.devs, mid.wire), i)
        invariant forall j: nat :: j < i ==> Readable(mid.devs, bad, j)
      {
        var ok := SaveDirtyDevice(i, bad, mid, dest0);
        if !ok {
          return;
        }
        SendAllStep(Pass(mid.devs, mid.wire), i);
        i := i + 1;
        PassCount(mid, dest0, devs, Load(dest0, wire), i);
      }
    }

    /** Forgets the devices and frees the queue, sent or not. */
    method Cleanup()
      modifies this`devs, this`blkList
      ensures devs == [] && blkList == []
    {
      devs := [];
      blkList := [];
    }

    /** Adds a drive if it is a hard disk with at least one sector. */
    method AddDrive(v: Drive)
      requires totalSectorSum == TotalSum(devs, |devs|)
      modifies this`devs, this`totalSectorSum
      ensures devs == old(devs) + if Migrates(v) then [StartDev(v, sharedBase)] else []
      ensures totalSectorSum == TotalSum(devs, |devs|)
    {
      if v.isHd {
        var sectors := |v.disk| / SECTOR_SIZE;
        if sectors != 0 {
          TotalSumAppend(devs, StartDev(v, sharedBase));
          totalSectorSum := totalSectorSum + sectors;
          devs := devs + [StartDev(v, sharedBase)];
        }
      }
    }

    /** Collects the drives to migrate. */
    method InitBlkMigration(drives: seq<Drive>)
      requires devs == []
      modifies this
      ensures devs == StartDevs(drives, sharedBase)
      ensures View() == old(View()).(devs := devs, submitted := 0, readDone := 0, transferred := 0, prevProgress := -1)
      ensures totalSectorSum == TotalSum(devs, |devs|)
    {
      submitted := 0;
      readDone := 0;
      transferred := 0;
      totalSectorSum := 0;
      prevProgress := -1;
      ghost var s := View();
      for k := 0 to |drives|
        invariant View() == s.(devs := devs) && devs == StartDevs(drives[..k], sharedBase)
        invariant totalSectorSum == TotalSum(devs, |devs|)
      {
        StartDevsStep(drives, k, sharedBase);
        AddDrive(drives[k]);
      }
      assert drives[..|drives|] == drives;
    }

    /** The part every stage shares: flush, submit, flush. Clears the state when an error shows. */
    method FlushSubmitFlush(l: Limit, failures: nat, ghost dest0: Disks)
      returns (ok: bool, ghost es: seq<Event>, ghost t: State)
      requires Active(dest0)
      modifies this
      ensures Runs(old(View()), es, t) && Worked(old(View()), l, es) && AllByHandler(es) && Steady(t, dest0)
      ensures ok <==> !t.error
      ensures ok ==> View() == t && Active(dest0)
      ensures !ok ==> devs == [] && blkList == [] && wire == t.wire && error
      ensures AllComplete(old(devs)) ==> t.devs == old(devs) && t.inFlight == old(inFlight)
      ensures Ahead(old(View()), t)
    {
      hide Steady, Runs, SubmittedBy, FlushedBy, AllByHandler, Worked;
      ghost var s0 := View();
      es := FlushBlks(l.first, dest0);
      t := View();
      if error {
        Cleanup();
        FlushedOnly(s0, l, es, t);
        return false, es, t;
      }
      ghost var s1 := View();
      ghost var es1 := SubmitBulk(l.rate, failures, dest0);
      ghost var s2 := View();
      ghost var es2 := FlushBlks(l.second, dest0);
      t := View();
      AllWorked(s0, l, es, s1, es1, s2, es2, t);
      es := es + es1 + es2;
      if error {
        Cleanup();
        return false, es, t;
      }
      ok := true;
    }

    /** Stage 3 reads what is left of the bulk synchronously; at most `failures` reads fail. */
    method FinishBulk(failures: nat, ghost dest0: Disks) returns (ghost es: seq<Event>)
      requires Active(dest0) && WritesBehind(View())
      modifies this
      ensures Active(dest0) && AllComplete(devs)
      ensures Runs(old(View()), es, View()) && FinishedBy(old(View()), es)
      ensures blkList == old(blkList) && inFlight == old(inFlight) && SameContents(old(devs), devs)
    {
      hide Steady, Step, Runs, Enabled, Ahead, WorkSum, WritesBehind, FinishingBy, FinishedBy, After, AllComplete;
      NothingFinished(View());
      es := [];
      ghost var s0 := View();
      SameIsAhead(s0);
      var failing := failures;
      var more := true;
      while more
        invariant Active(dest0) && WritesBehind(View()) && (!more ==> AllComplete(devs))
        invariant Runs(s0, es, View()) && (if more then FinishingBy(s0, es) else FinishedBy(s0, es))
        invariant blkList == old(blkList) && inFlight == old(inFlight) && SameContents(s0.devs, devs)
        decreases failing, WorkSum(devs, |devs|), more
      {
        var failed: bool := *;
        failed := failed && failing > 0;
        var junk := PadBuffer(dest0);
        ghost var s := View();
        ghost var e := BulkStep(false, !failed, junk);
        more := BulkCall(false, !failed, junk, dest0);
        FinishedOneMore(s0, es, s, e);
        RunsOn(s0, es, s, e);
        es := es + [e];
        StaysBehind(s, View());
        AheadIsSame(s, View());
        if failed && more {
          failing := failing - 1;
        }
      }
    }

    /** Whatever the buffer of the next synchronous read holds past the end of the device. */
    method PadBuffer(ghost dest0: Disks) returns (junk: seq<Byte>)
      requires Active(dest0)
      ensures forall ok :: Enabled(View(), BulkStep(false, ok, junk))
    {
      var i := FirstIncomplete(devs);
      TotalSumPositive(devs, |devs|);
      var n := if i < |devs| && SearchEnd(devs[i]) < devs[i].Total() then BulkCount(devs[i]) else CHUNK_SECTORS;
      assert |seq(CHUNK_BYTES - n * SECTOR_SIZE, _ => 0 as Byte)| == CHUNK_BYTES - n * SECTOR_SIZE;
      junk :| |junk| == CHUNK_BYTES - n * SECTOR_SIZE;
    }

    /** The rest of stage 3: finish the bulk, send the dirty chunks, clean up. */
    method Complete(failures: nat, bad: set<Key>, ghost dest0: Disks) returns (ghost es: seq<Event>, ghost mid: State)
      requires Active(dest0) && WritesBehind(View())
      modifies this
      ensures Runs(old(View()), es, mid) && FinishedBy(old(View()), es)
      ensures DevsOk(mid.devs, dest0) && AllComplete(mid.devs) && SameContents(old(devs), mid.devs)
      ensures mid.blkList == old(blkList) && mid.inFlight == old(inFlight)
      ensures error <==> mid.error || PassFails(mid.devs, bad)
      ensures !error ==>
                DevsOk(mid.devs, Load(dest0, wire)) && Migrated(mid, dest0, Load(dest0, wire)) && WireOk(dest0, wire)
      ensures !error ==> wire == SendAll(Pass(mid.devs, mid.wire), |mid.devs|).wire + [Progress(100)]
      ensures devs == [] && blkList == []
    {
      hide Inv, PassOk, DevsOk, Migrated, Load, LoadFrame, SendAll, PassFails, Runs, AllComplete, TotalSum;
      hide WritesBehind, FinishedBy;
      es := FinishBulk(failures, dest0);
      mid := View();
      InvDevs(mid, dest0, Load(dest0, wire));
      SaveDirtyBlocks(bad, mid, dest0);
      if !error {
        PassEnds(mid, dest0, devs, Load(dest0, wire));
      }
      Cleanup();
      LoadAppend(dest0, wire, Progress(100));
      LoadHundred(Load(dest0, wire));
      wire := wire + [Progress(100)];
    }

    /** Stages 1 and 2 after the devices are known: one round of work and the end-of-section mark. */
    method SaveRound(l: Limit, failures: nat, ghost dest0: Disks)
      returns (done: bool, ghost es: seq<Event>, ghost mid: State)
      requires Active(dest0)
      modifies this
      ensures Runs(old(View()), es, mid) && Worked(old(View()), l, es) && AllByHandler(es)
      ensures mid.error ==> error && devs == [] && !done
      ensures !mid.error ==> View() == mid.(wire := mid.wire + [Eos]) && Active(dest0)
      ensures !mid.error ==> (done <==> submitted <= 0 && AllComplete(devs))
    {
      hide Steady, Runs, Worked, AllByHandler, AllComplete, TotalSum, Ahead;
      var ok;
      ok, es, mid := FlushSubmitFlush(l, failures, dest0);
      if !ok {
        return false, es, mid;
      }
      PutEosOk(View(), dest0);
      wire := wire + [Eos];
      done := IsStage2Completed();
    }

    /** Stage 3: one more round, then what is left of the bulk, the dirty chunks and the marks. */
    method SaveFinal(l: Limit, failures: nat, bad: set<Key>, ghost dest0: Disks)
      returns (ghost es: seq<Event>, ghost mid: State)
      requires Active(dest0) && WritesBehind(View())
      modifies this
      ensures devs == [] && blkList == []
      ensures Runs(old(View()), es, mid) && WorkedToEnd(old(View()), l, es) && AllByHandler(es)
      ensures SameContents(old(devs), mid.devs)
      ensures error <==> mid.error || PassFails(mid.devs, bad)
      ensures !error ==> Saved(mid, dest0, wire)
      ensures !error && AllComplete(old(devs)) && old(inFlight) == [] ==> mid.inFlight == []
    {
      hide Steady, Runs, Ahead, WritesBehind, Migrated, DevsOk, SendAll, WireOk, Worked, WorkedToEnd, FinishedBy;
      hide AllByHandler;
      ghost var s0 := View();
      var ok;
      ok, es, mid := FlushSubmitFlush(l, failures, dest0);
      AheadIsSame(s0, mid);
      if !ok {
        WorkedNoEnd(s0, l, es, mid);
        return;
      }
      StaysBehind(s0, View());
      ghost var rest;
      ghost var s1 := mid;
      rest, mid := Complete(failures, bad, dest0);
      RunsConcat(s0, es, s1, rest, mid);
      WorkedThenEnd(s0, l, es, s1, rest);
      es := es + rest;
      assert SameContents(s0.devs, mid.devs);
      if error {
        return;
      }
      EosSaved(mid, dest0, wire);
      wire := wire + [Eos];
    }

    /** The save handler. Stage 1 begins a migration of `drives`, stage 2 continues it, stage 3
        completes it, a negative stage cancels it. `l` is the rate and what the rate limiter says;
        `failures` bounds the bulk reads that fail in one call; `bad` are the chunks that the dirty pass of
        stage 3 cannot read. */
    method BlockSaveLive(stage: int, drives: seq<Drive>, l: Limit, failures: nat, bad: set<Key>, ghost dest0: Disks)
      returns (r: int, ghost es: seq<Event>, ghost mid: State)
      requires stage <= 3 && stage != 0
      requires stage == 1 && blkEnable ==>
                 devs == [] && inFlight == [] && blkList == [] && wire == []
                 && StartOk(StartDevs(drives, sharedBase), dest0) && StartDevs(drives, sharedBase) != []
                 && (forall w :: w in writes ==> WriteFits(StartDevs(drives, sharedBase), w))
                 && (sharedBase ==> writes == [])
      requires stage >= 2 && blkEnable ==> Active(dest0)
      requires stage == 3 && blkEnable ==> WritesBehind(View())
      modifies this
      // Cancelled.
      ensures stage < 0 ==> r == 0 && devs == [] && blkList == [] && wire == old(wire)
      // Not asked to migrate disks.
      ensures stage > 0 && !blkEnable ==> r == 1 && View() == old(View()).(wire := old(wire) + [Eos])
      // Each stage takes a run of steps, to `mid`.
      ensures stage > 0 && blkEnable ==>
                && AllByHandler(es)
                && Runs(if stage == 1 then StartOf(old(View()), StartDevs(drives, sharedBase)) else old(View()),
                        es, mid)
      // It flushes, submits up to the rate and flushes, as far as the limiter lets it; stage 3 reads the rest.
      ensures stage == 1 && blkEnable ==> Worked(StartOf(old(View()), StartDevs(drives, sharedBase)), l, es)
      ensures stage == 2 && blkEnable ==> Worked(old(View()), l, es)
      ensures stage == 3 && blkEnable ==> WorkedToEnd(old(View()), l, es)
      // Stages 1 and 2 end there, and report done when nothing is left to read or in flight.
      ensures (stage == 1 || stage == 2) && blkEnable && !mid.error ==>
                && View() == mid.(wire := mid.wire + [Eos]) && Active(dest0)
                && (r == 1 <==> stage == 2 && submitted <= 0 && AllComplete(devs))
      ensures (stage == 1 || stage == 2) && blkEnable && mid.error ==> r == 0 && error && devs == []
      ensures (stage == 1 || stage == 2) && blkEnable && !mid.error ==> !error
      // Stage 3 goes on with the dirty pass: what the destination then holds is known, chunk by chunk.
      ensures stage == 3 && blkEnable ==> r == 0 && devs == [] && blkList == [] && SameContents(old(devs), mid.devs)
      ensures stage == 3 && blkEnable ==> (error <==> mid.error || PassFails(mid.devs, bad))
      ensures stage == 3 && blkEnable && !error ==> Saved(mid, dest0, wire)
      // When stage 2 had completed, only what the last flush left in the queue is dropped.
      ensures stage == 3 && blkEnable && !error && AllComplete(old(devs)) && old(inFlight) == [] ==> mid.inFlight == []
      // If that is nothing and devices are whole chunks, the destination is the source.
      ensures stage == 3 && blkEnable && !error && mid.inFlight == mid.blkList == [] && WholeChunks(old(devs)) ==>
                HoldsContents(Load(dest0, wire), old(devs))
    {
      es, mid := [], View();
      r := 0;
      if stage < 0 {
        Cleanup();
        return;
      }
      if !blkEnable {
        wire := wire + [Eos];
        r := 1;
        return;
      }
      if stage == 3 {
        ghost var devs0 := devs;
        es, mid := SaveFinal(l, failures, bad, dest0);
        if !error && mid.inFlight == mid.blkList == [] && WholeChunks(devs0) {
          DrainedIsSame(devs0, mid, dest0, Load(dest0, wire));
        }
        return;
      }
      if stage == 1 {
        InitBlkMigration(drives);
        StartInv(View(), dest0);
        StartMarked(View(), drives, sharedBase);
      }
      var done;
      done, es, mid := SaveRound(l, failures, dest0);
      if stage == 2 && done {
        r := 1;
      }
    }
  }

  /** Stage 3 from `mid` on has put `wire` on the stream: its dirty pass, and the two closing marks. */
  ghost predicate Saved(mid: State, dest0: Disks, wire: seq<Frame>) {
    && AllComplete(mid.devs) && WireOk(dest0, wire)
    && wire == SendAll(Pass(mid.devs, mid.wire), |mid.devs|).wire + [Progress(100), Eos]
    && DevsOk(mid.devs, dest0) && DevsOk(mid.devs, Load(dest0, wire)) && Migrated(mid, dest0, Load(dest0, wire))
  }

  lemma EosSaved(mid: State, dest0: Disks, wire: seq<Frame>)
    requires AllComplete(mid.devs) && WireOk(dest0, wire)
    requires wire == SendAll(Pass(mid.devs, mid.wire), |mid.devs|).wire + [Progress(100)]
    requires DevsOk(mid.devs, dest0) && DevsOk(mid.devs, Load(dest0, wire)) && Migrated(mid, dest0, Load(dest0, wire))
    ensures Saved(mid, dest0, wire + [Eos])
  {
    hide DevsOk, Migrated, SendAll;
    LoadAppend(dest0, wire, Eos);
    assert FrameOk(dest0, Eos);
    assert wire + [Eos] == SendAll(Pass(mid.devs, mid.wire), |mid.devs|).wire + [Progress(100), Eos];
  }

  ghost predicate HoldsContents(dest: Disks, devs: seq<Dev>) {
    forall i :: 0 <= i < |devs| ==> devs[i].name in dest && dest[devs[i].name] == devs[i].disk
  }

  lemma DrainedIsSame(devs: seq<Dev>, mid: State, dest0: Disks, dest: Disks)
    requires SameContents(devs, mid.devs) && DevsOk(mid.devs, dest0) && DevsOk(mid.devs, dest)
    requires Migrated(mid, dest0, dest) && mid.inFlight == mid.blkList == [] && WholeChunks(devs)
    ensures HoldsContents(dest, devs)
  {
    assert NothingMissed(mid);
    MigratedIffSame(mid, dest0, dest);
  }

  lemma PassDevs(mid: State, dest0: Disks, devs: seq<Dev>, dest: Disks, i: nat, c: nat)
    requires Inv(mid, dest0, Load(dest0, mid.wire)) && AllComplete(mid.devs) && PassOk(mid, dest0, devs, dest, i, c)
    requires i < |devs|
    ensures DevsOk(mid.devs, dest0) && |devs| == |mid.devs|
    ensures mid.devs[i].disk == devs[i].disk && |devs[i].disk| == devs[i].curSector * SECTOR_SIZE
  {
  }

  lemma PassCount(mid: State, dest0: Disks, devs: seq<Dev>, dest: Disks, i: nat)
    requires Inv(mid, dest0, Load(dest0, mid.wire)) && PassOk(mid, dest0, devs, dest, i, 0)
    ensures |devs| == |mid.devs|
  {
  }

  lemma AsInMid(mid: State, dest0: Disks, devs: seq<Dev>, dest: Disks, i: nat, c: nat)
    requires Inv(mid, dest0, Load(dest0, mid.wire)) && PassOk(mid, dest0, devs, dest, i, c)
    requires i < |devs| && c * CHUNK_BYTES < |devs[i].disk|
    ensures DevsOk(mid.devs, dest0) && DevsOk(mid.devs, Load(dest0, mid.wire))
    ensures |devs| == |mid.devs| && devs[i] == mid.devs[i].(dirty := devs[i].dirty)
    ensures c in devs[i].dirty <==> c in mid.devs[i].dirty
  {
    assert PassChunkOk(mid, dest0, devs, dest, i, c, i, c);
  }

  lemma SendAllStep(p: Pass, i: nat)
    requires i <= |p.devs|
    ensures SendAll(p, 0) == p
    ensures i < |p.devs| ==>
              var q := SendAll(p, i); SendAll(p, i + 1) == SendDev(q, i, ChunksUpTo(q.devs[i].curSector))
  {
  }

  lemma NoneBehind(devs: seq<Dev>, bad: set<Key>, i: nat, cur: nat)
    requires i < |devs| && |devs[i].disk| == cur * SECTOR_SIZE
    ensures forall c: nat :: c >= ChunksUpTo(cur) ==> !Unreadable(devs, bad, i, c)
  {
  }

  lemma PassEnds(mid: State, dest0: Disks, devs: seq<Dev>, dest: Disks)
    requires DevsOk(mid.devs, dest0) && PassOk(mid, dest0, devs, dest, |mid.devs|, 0)
    ensures DevsOk(mid.devs, dest) && Migrated(mid, dest0, dest)
  {
    PassEnd(mid, dest0, devs, dest);
  }

  lemma LoadHundred(dest: Disks)
    ensures LoadFrame(dest, Progress(100)) == dest
  {
  }

  lemma SendDirtyOk(mid: State, dest0: Disks, devs: seq<Dev>, wire: seq<Frame>, i: nat, c: nat)
    requires DevsOk(mid.devs, dest0) && PassOk(mid, dest0, devs, Load(dest0, wire), i, c) && WireOk(dest0, wire)
    requires i < |devs| && (c + 1) * CHUNK_BYTES <= |devs[i].disk| && c in devs[i].dirty
    ensures var f := Block(devs[i].name, c * CHUNK_SECTORS,
              ReadSectors(devs[i].disk, c * CHUNK_SECTORS, CHUNK_SECTORS));
            && PassOk(mid, dest0, devs[i := devs[i].(dirty := devs[i].dirty - {c})], Load(dest0, wire + [f]), i, c + 1)
            && WireOk(dest0, wire + [f])
  {
    var f := Block(devs[i].name, c * CHUNK_SECTORS, ReadSectors(devs[i].disk, c * CHUNK_SECTORS, CHUNK_SECTORS));
    assert f == Block(mid.devs[i].name, c * CHUNK_SECTORS, Chunk(mid.devs[i].disk, c));
    PassDirty(mid, dest0, devs, Load(dest0, wire), i, c);
    LoadAppend(dest0, wire, f);
    assert FrameOk(dest0, f);
  }

  lemma PutEosOk(s: State, dest0: Disks)
    requires Steady(s, dest0)
    ensures var t := s.(wire := s.wire + [Eos]); Steady(t, dest0)
  {
    LoadAppend(dest0, s.wire, Eos);
    InvIgnoresReport(s, s.(wire := s.wire + [Eos]), dest0, Load(dest0, s.wire));
    assert FrameOk(dest0, Eos);
  }

  lemma NextAllocatedSkips(alloc: set<nat>, cur: nat, nr: nat, total: nat)
    requires cur + nr <= total && forall s :: cur <= s < cur + nr ==> s !in alloc
    ensures NextAllocated(alloc, cur, total) == NextAllocated(alloc, cur + nr, total)
    decreases nr
  {
    if nr > 0 {
      NextAllocatedSkips(alloc, cur + 1, nr - 1, total);
    }
  }

  lemma CompletedUpTo(devs: seq<Dev>, i: nat, d: Dev)
    requires i < |devs|
    ensures CompletedSum(devs[i := d], i + 1) == CompletedSum(devs, i) + d.completedSectors
  {
    CompletedSumSame(devs, devs[i := d], i);
  }

  lemma CompletedSumSame(a: seq<Dev>, b: seq<Dev>, n: nat)
    requires n <= |a| == |b| && forall j :: 0 <= j < n ==> a[j] == b[j]
    ensures CompletedSum(a, n) == CompletedSum(b, n)
  {
  }

  lemma TotalSumPositive(devs: seq<Dev>, n: nat)
    requires 0 < n <= |devs| && forall i :: 0 <= i < |devs| ==> DevOk(devs[i])
    ensures TotalSum(devs, n) > 0
  {
  }

  lemma BulkStepWork(s: State, e: Event)
    requires Enabled(s, e) && e.BulkStep? && forall i :: 0 <= i < |s.devs| ==> DevOk(s.devs[i])
    requires FirstIncomplete(s.devs) < |s.devs|
    ensures |Step(s, e).devs| == |s.devs|
    ensures e.ok ==> WorkSum(Step(s, e).devs, |s.devs|) < WorkSum(s.devs, |s.devs|)
  {
    var i := FirstIncomplete(s.devs);
    BulkShape(s, e);
    BulkDevMoves(s.devs[i], e.ok);
    WorkSumUpdate(s.devs, i, BulkDev(s.devs[i], e.ok), |s.devs|);
  }

  lemma StartDevsStep(drives: seq<Drive>, k: nat, sharedBase: bool)
    requires k < |drives|
    ensures StartDevs(drives[..k + 1], sharedBase) ==
            StartDevs(drives[..k], sharedBase) + if Migrates(drives[k]) then [StartDev(drives[k], sharedBase)] else []
  {
    assert drives[..k + 1][..k] == drives[..k];
  }

  lemma TotalSumAppend(devs: seq<Dev>, d: Dev)
    ensures TotalSum(devs + [d], |devs| + 1) == TotalSum(devs, |devs|) + d.Total()
  {
    TotalSumPrefix(devs, devs + [d], |devs|);
  }

  lemma TotalSumPrefix(a: seq<Dev>, b: seq<Dev>, n: nat)
    requires n <= |a| && a <= b
    ensures TotalSum(a, n) == TotalSum(b, n)
  {
  }

  lemma {:induction false} StartShares(drives: seq<Drive>, sharedBase: bool)
    ensures forall i :: 0 <= i < |StartDevs(drives, sharedBase)| ==>
              StartDevs(drives, sharedBase)[i].sharedBase == sharedBase
  {
    if drives != [] {
      StartShares(drives[..|drives| - 1], sharedBase);
    }
  }

  lemma StartMarked(s: State, drives: seq<Drive>, sharedBase: bool)
    requires s.devs == StartDevs(drives, sharedBase) && (sharedBase ==> s.writes == [])
    ensures WritesMarked(s)
  {
    StartShares(drives, sharedBase);
  }

  function StartOf(s: State, devs: seq<Dev>): State {
    s.(devs := devs, submitted := 0, readDone := 0, transferred := 0, prevProgress := -1)
  }
}
