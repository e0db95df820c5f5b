/** A whole migration: the calls of the save handler, what the guest and the drivers do between them, and the
    end, when the guest is stopped. */
module BlockSession {
  import opened Sectors
  import opened Migration
  import opened MigrationSafety
  import opened MigrationResult
  import opened MigrationCounters
  import opened BlockMigration
  import opened MigrationRaces

  // ---------------------------------------------------------------- between two calls

  /** What the guest and the drivers do: writes are submitted and performed, reads performed and completed. */
  predicate Between(e: Event) {
    e.GuestSubmit? || e.GuestPerform? || e.ReadPerform? || e.ReadComplete?
  }

  lemma SubmitKeepsMarked(s: State, e: Event)
    requires WritesMarked(s) && Enabled(s, e) && e.GuestSubmit?
    ensures WritesMarked(Step(s, e))
  {
    var t := Step(s, e);
    forall w, c: nat | w in t.writes && w.dev < |t.devs| && t.devs[w.dev].sharedBase && !t.devs[w.dev].Covered(c)
      ensures c in t.devs[w.dev].dirty || w.Same(t.devs[w.dev].disk, c)
    {
      if w !in s.writes && !w.Touches(w.dev, c) {
        UntouchedIsSame(w, t.devs[w.dev].disk, c);
      }
    }
  }

  lemma PerformKeepsMarked(s: State, e: Event)
    requires WritesMarked(s) && Enabled(s, e) && e.GuestPerform?
    ensures WritesMarked(Step(s, e))
  {
    var t := Step(s, e);
    var w := s.writes[e.k];
    assert w in s.writes;
    forall v, c: nat | v in t.writes && v.dev < |t.devs| && t.devs[v.dev].sharedBase && !t.devs[v.dev].Covered(c)
      ensures c in t.devs[v.dev].dirty || v.Same(t.devs[v.dev].disk, c)
    {
      assert v in s.writes;
      if v.dev == w.dev && c !in s.devs[w.dev].dirty {
        SameKeepsSame(v, w, s.devs[w.dev].disk, c);
      }
    }
  }

  /** What happens between two calls of the handler keeps what it relies on, unless it is a race. */
  lemma BetweenKeepsSteady(s: State, e: Event, dest0: Disks)
    requires Steady(s, dest0) && Enabled(s, e) && NoRace(s, e) && Between(e)
    ensures Steady(Step(s, e), dest0)
  {
    StepKeepsInv(s, e, dest0);
    hide Inv, WritesMarked;
    match e
    case GuestSubmit(_, _, _) => SubmitKeepsMarked(s, e);
    case GuestPerform(_) => PerformKeepsMarked(s, e);
    case ReadPerform(_, _) => SameIsMarked(s, Step(s, e));
    case ReadComplete(_, _) => SameIsMarked(s, Step(s, e));
  }

  lemma SameIsMarked(s: State, t: State)
    requires WritesMarked(s) && t.devs == s.devs && t.writes == s.writes
    ensures WritesMarked(t)
  {
  }

  lemma BetweenKeepsDevs(s: State, e: Event)
    requires Enabled(s, e) && Between(e)
    ensures var t := Step(s, e);
            && SameSizes(s.devs, t.devs) && TotalSum(t.devs, |t.devs|) == TotalSum(s.devs, |s.devs|)
            && (AllComplete(s.devs) ==> AllComplete(t.devs)) && t.error == s.error && t.wire == s.wire
  {
    StepKeepsSizes(s, e);
    SameTotals(s.devs, Step(s, e).devs, |s.devs|);
  }

  /** Of these only a read can race: if its chunk is clean and an outstanding write has yet to change it. */
  predicate Undisturbed(s: State, e: Event)
    requires Enabled(s, e) && Between(e)
  {
    e.ReadPerform? ==>
      var b := s.inFlight[e.k];
      var d, c := s.devs[b.dev], b.sector / CHUNK_SECTORS;
      c in d.dirty || forall w :: w in s.writes && w.dev == b.dev ==> w.Same(d.disk, c)
  }

  lemma UndisturbedIff(s: State, e: Event)
    requires Enabled(s, e) && Between(e)
    ensures Undisturbed(s, e) <==> NoRace(s, e)
  {
    if e.ReadPerform? {
      var b := s.inFlight[e.k];
      var i, c := b.dev, b.sector / CHUNK_SECTORS;
      assert c !in s.devs[i].dirty ==> Takes(s, e, i, c);
    }
  }

  /** Carries out one such event. */
  method Act(m: BlkMigState, e: Event)
    requires Enabled(m.View(), e) && Between(e)
    modifies m
    ensures m.View() == Step(old(m.View()), e) && m.totalSectorSum == old(m.totalSectorSum)
  {
    match e
    case GuestSubmit(i, sector, data) =>
      m.devs := m.devs[i := m.devs[i].(dirty := m.devs[i].dirty + ChunksOf(sector, |data| / SECTOR_SIZE))];
      m.writes := m.writes + [GuestWrite(i, sector, data)];
    case GuestPerform(k) =>
      var w := m.writes[k];
      m.devs := m.devs[w.dev := PerformWrite(m.devs[w.dev], w)];
      m.writes := RemoveAt(m.writes, k);
    case ReadPerform(k, junk) =>
      var b := m.inFlight[k];
      m.inFlight := m.inFlight[k := b.(data := Some(ReadSectors(m.devs[b.dev].disk, b.sector, b.nr) + junk))];
    case ReadComplete(k, ret) =>
      m.ReadCb(k, ret);
  }

  /** The events of `script` that happen from `s` on: those that are possible when their turn comes, and no race. */
  ghost function Carried(s: State, script: seq<Event>): (es: seq<Event>)
    ensures forall e :: e in es ==> Between(e) && e in script
    decreases |script|
  {
    if script == [] then []
    else if Happens(s, script[0]) then [script[0]] + Carried(Step(s, script[0]), script[1..])
    else Carried(s, script[1..])
  }

  predicate Happens(s: State, e: Event)
    ensures Happens(s, e) ==> Between(e) && Enabled(s, e)
  {
    Between(e) && Enabled(s, e) && Undisturbed(s, e)
  }

  /** One event further: `es` has happened, in `s`, of the first `n` events. */
  lemma CarriedOn(s: State, script: seq<Event>, n: nat, es: seq<Event>, all: seq<Event>)
    requires n < |script| && es + Carried(s, script[n..]) == all
    ensures Happens(s, script[n]) ==> (es + [script[n]]) + Carried(Step(s, script[n]), script[n + 1..]) == all
    ensures !Happens(s, script[n]) ==> es + Carried(s, script[n + 1..]) == all
  {
    hide Step, Happens;
    assert script[n..][1..] == script[n + 1..];
    if Happens(s, script[n]) {
      assert es + ([script[n]] + Carried(Step(s, script[n]), script[n + 1..])) == all;
    }
  }

  lemma NothingToCarry(s: State, script: seq<Event>)
    ensures Carried(s, script[|script|..]) == []
  {
  }

  /** Without a race, all that is possible happens. */
  lemma {:induction false} AllCarried(s: State, script: seq<Event>)
    requires Exec(s, script).Some? && RaceFree(s, script) && forall e :: e in script ==> Between(e)
    ensures Carried(s, script) == script
    decreases |script|
  {
    hide Step, Enabled, NoRace, Between, Happens;
    if script != [] {
      FirstOfRun(s, script);
      AllCarried(Step(s, script[0]), script[1..]);
      assert script == [script[0]] + script[1..];
    }
  }

  lemma {:induction false} FirstOfRun(s: State, es: seq<Event>)
    requires Exec(s, es).Some? && RaceFree(s, es) && es != [] && forall e :: e in es ==> Between(e)
    ensures Happens(s, es[0])
    ensures Exec(Step(s, es[0]), es[1..]).Some? && RaceFree(Step(s, es[0]), es[1..])
    ensures Exec(Step(s, es[0]), es[1..]) == Exec(s, es)
  {
    hide Step, Enabled, NoRace, Between, Undisturbed;
    var init := es[..|es| - 1];
    if init == [] {
      assert es[1..] == [] && es[0] == es[|es| - 1];
      UndisturbedIff(s, es[0]);
    } else {
      FirstOfRun(s, init);
      assert init[1..] == es[1..][..|es| - 2] && init[0] == es[0];
    }
  }

  lemma HappensKeeps(s: State, e: Event, dest0: Disks)
    requires Steady(s, dest0) && Happens(s, e)
    ensures NoRace(s, e) && Steady(Step(s, e), dest0)
    ensures var t := Step(s, e);
            |t.devs| == |s.devs| && TotalSum(t.devs, |t.devs|) == TotalSum(s.devs, |s.devs|) && t.error == s.error
  {
    hide Steady, Step, Enabled, NoRace, TotalSum, AllComplete;
    UndisturbedIff(s, e);
    BetweenKeepsSteady(s, e, dest0);
    BetweenKeepsDevs(s, e);
  }

  /** The guest and the drivers at work: of `script` what is possible and no race happens, in this order. */
  method Others(m: BlkMigState, script: seq<Event>, ghost dest0: Disks) returns (ghost es: seq<Event>)
    requires m.Active(dest0)
    modifies m
    ensures m.Active(dest0) && Runs(old(m.View()), es, m.View()) && m.error == old(m.error)
    ensures es == Carried(old(m.View()), script)
  {
    hide Steady, Runs, Step, Enabled, NoRace, Happens, TotalSum, Carried;
    es := [];
    ghost var s0 := m.View();
    SameIsAhead(s0);
    assert script[0..] == script;
    for n := 0 to |script|
      invariant m.Active(dest0) && Runs(s0, es, m.View()) && m.error == old(m.error)
      invariant es + Carried(m.View(), script[n..]) == Carried(s0, script)
    {
      var e := script[n];
      CarriedOn(m.View(), script, n, es, Carried(s0, script));
      if Happens(m.View(), e) {
        ghost var s := m.View();
        HappensKeeps(s, e, dest0);
        Act(m, e);
        RunsOn(s0, es, s, e);
        es := es + [e];
      }
    }
    NothingToCarry(m.View(), script);
  }

  // ---------------------------------------------------------------- the whole migration

  lemma OutstandingFits(s: State, dest0: Disks, k: nat)
    requires Steady(s, dest0) && k < |s.writes|
    ensures Enabled(s, GuestPerform(k)) && NoRace(s, GuestPerform(k))
  {
    assert s.writes[k] in s.writes && WriteOk(s.devs, WaitingKeys(s), s.writes[k]);
  }

  lemma PerformKeepsRest(s: State, k: nat)
    requires Enabled(s, GuestPerform(k))
    ensures var t := Step(s, GuestPerform(k));
            && |t.writes| == |s.writes| - 1 && t.inFlight == s.inFlight && t.blkList == s.blkList
            && t.submitted == s.submitted
  {
  }

  /** Stops the guest and waits for its outstanding writes, which reach the disk in any order. */
  method StopGuest(m: BlkMigState, ghost dest0: Disks) returns (ghost es: seq<Event>)
    requires m.Active(dest0)
    modifies m
    ensures m.Active(dest0) && Runs(old(m.View()), es, m.View()) && m.error == old(m.error)
    ensures m.writes == [] && m.inFlight == old(m.inFlight) && (AllComplete(old(m.devs)) ==> AllComplete(m.devs))
    ensures |es| == |old(m.writes)| && forall e :: e in es ==> e.GuestPerform?
  {
    hide Steady, Runs, Step, Enabled, NoRace, TotalSum, SameSizes, AllComplete;
    es := [];
    ghost var s0 := m.View();
    SameIsAhead(s0);
    while m.writes != []
      invariant m.Active(dest0) && Runs(s0, es, m.View()) && m.error == old(m.error)
      invariant m.inFlight == old(m.inFlight) && (AllComplete(s0.devs) ==> AllComplete(m.devs))
      invariant |es| + |m.writes| == |s0.writes| && forall e :: e in es ==> e.GuestPerform?
      decreases |m.writes|
    {
      assert 0 < |m.writes|;
      var k: nat :| k < |m.writes|;
      ghost var s := m.View();
      OutstandingFits(s, dest0, k);
      BetweenKeepsSteady(s, GuestPerform(k), dest0);
      BetweenKeepsDevs(s, GuestPerform(k));
      PerformKeepsRest(s, k);
      Act(m, GuestPerform(k));
      RunsOn(s0, es, s, GuestPerform(k));
      es := es + [GuestPerform(k)];
    }
  }

  lemma EosIsStep(s: State)
    ensures Enabled(s, PutEos) && NoRace(s, PutEos) && Step(s, PutEos) == s.(wire := s.wire + [Eos])
  {
  }

  lemma NothingInFlight(s: State, dest0: Disks)
    requires Steady(s, dest0) && s.submitted <= 0
    ensures s.inFlight == []
  {
  }

  lemma NothingAhead(s: State)
    requires s.writes == []
    ensures WritesBehind(s)
  {
  }

  lemma StartedAs(s: State, es: seq<Event>, t: State)
    requires Runs(s, es, t)
    ensures SameSizes(s.devs, t.devs)
  {
    RunKeepsSizes(s, es);
  }

  /** Nothing is left to read or in flight. */
  ghost predicate Finished(s: State) {
    s.submitted <= 0 && AllComplete(s.devs)
  }

  /** Calls of the handler that take the steps `rounds`; before each, what the next of `gaps` says happens. */
  ghost function Rounds(s: State, gaps: seq<seq<Event>>, rounds: seq<seq<Event>>): seq<Event>
    requires |rounds| <= |gaps|
    decreases |rounds|
  {
    if rounds == [] then [] else
    var k := |rounds| - 1;
    var es := Rounds(s, gaps, rounds[..k]);
    es + Carried(After(s, es), gaps[k]) + rounds[k]
  }

  /** A call of stage 1 or 2 under `l` takes the steps `es`: its work and, without an error, the closing mark. */
  ghost predicate Called(s: State, l: Limit, es: seq<Event>) {
    AllByHandler(es) && (CalledInVain(s, l, es) || CalledWell(s, l, es))
  }

  ghost predicate CalledInVain(s: State, l: Limit, es: seq<Event>) {
    Worked(s, l, es) && After(s, es).error
  }

  ghost predicate CalledWell(s: State, l: Limit, es: seq<Event>) {
    && es != [] && es[|es| - 1] == PutEos
    && Worked(s, l, es[..|es| - 1]) && !After(s, es[..|es| - 1]).error
  }

  /** The state when round `k` begins, after what happens before it. */
  ghost function Opening(s: State, gaps: seq<seq<Event>>, rounds: seq<seq<Event>>, k: nat): State
    requires k < |rounds| <= |gaps|
  {
    var t := After(s, Rounds(s, gaps, rounds[..k]));
    After(t, Carried(t, gaps[k]))
  }

  /** The steps of the handler in `rounds`: each round is a call under its limit, in `limits`, and the last alone may
      have finished. */
  ghost predicate RoundsOk(s: State, gaps: seq<seq<Event>>, limits: nat -> Limit, rounds: seq<seq<Event>>) {
    && |rounds| <= |gaps|
    && (forall k :: 0 <= k < |rounds| ==> Called(Opening(s, gaps, rounds, k), limits(k), rounds[k]))
    && forall k :: 0 < k < |rounds| ==> !Finished(After(s, Rounds(s, gaps, rounds[..k])))
  }

  lemma NoRounds(s: State, gaps: seq<seq<Event>>, limits: nat -> Limit)
    ensures RoundsOk(s, gaps, limits, []) && Rounds(s, gaps, []) == [] && Runs(s, [], s)
  {
  }

  /** One more call, with what happens before it. */
  lemma OneMoreRound(s: State, gaps: seq<seq<Event>>, limits: nat -> Limit, rounds: seq<seq<Event>>, t: State,
                     u: State, r: seq<Event>, v: State)
    requires RoundsOk(s, gaps, limits, rounds) && |rounds| < |gaps| && Runs(s, Rounds(s, gaps, rounds), t)
    requires rounds != [] ==> !Finished(t)
    requires Runs(t, Carried(t, gaps[|rounds|]), u) && Called(u, limits(|rounds|), r) && Runs(u, r, v)
    ensures RoundsOk(s, gaps, limits, rounds + [r]) && Runs(s, Rounds(s, gaps, rounds + [r]), v)
  {
    hide Carried, Finished, Exec, RaceFree, Called;
    var es := Rounds(s, gaps, rounds);
    var fs := Carried(t, gaps[|rounds|]);
    assert (rounds + [r])[..|rounds|] == rounds && After(s, es) == t && After(t, fs) == u;
    RunsConcat(s, es, t, fs, u);
    RunsConcat(s, es + fs, u, r, v);
    OneMoreIsOk(s, gaps, limits, rounds, r);
  }

  lemma OneMoreIsOk(s: State, gaps: seq<seq<Event>>, limits: nat -> Limit, rounds: seq<seq<Event>>, r: seq<Event>)
    requires RoundsOk(s, gaps, limits, rounds) && |rounds| < |gaps|
    requires Called(Opening(s, gaps, rounds + [r], |rounds|), limits(|rounds|), r)
    requires rounds != [] ==> !Finished(After(s, Rounds(s, gaps, rounds)))
    ensures RoundsOk(s, gaps, limits, rounds + [r])
  {
    hide Finished, After, Rounds, Called, Carried;
    var all := rounds + [r];
    forall k | 0 <= k < |all|
      ensures Called(Opening(s, gaps, all, k), limits(k), all[k])
    {
      if k < |rounds| {
        assert all[..k] == rounds[..k];
      }
    }
    forall k | 0 < k < |all|
      ensures !Finished(After(s, Rounds(s, gaps, all[..k])))
    {
      assert all[..k] == rounds[..k];
      assert rounds[..|rounds|] == rounds;
    }
  }

  lemma EosByHandler(fs: seq<Event>)
    requires AllByHandler(fs)
    ensures AllByHandler(fs + [PutEos]) && AllByHandler([])
  {
  }

  /** A call of stage 1 or 2 that leaves no error ends with the end-of-section mark. */
  lemma CallRuns(s: State, l: Limit, es: seq<Event>, mid: State)
    requires Runs(s, es, mid) && AllByHandler(es) && Worked(s, l, es) && !mid.error
    ensures Called(s, l, es + [PutEos]) && Runs(s, es + [PutEos], mid.(wire := mid.wire + [Eos]))
  {
    hide Worked, Exec, RaceFree;
    RunsAfter(s, es, mid);
    EosIsStep(mid);
    RunsOn(s, es, mid, PutEos);
    EosByHandler(es);
    assert (es + [PutEos])[..|es|] == es;
    assert CalledWell(s, l, es + [PutEos]);
  }

  lemma CallFails(s: State, l: Limit, es: seq<Event>, mid: State)
    requires Runs(s, es, mid) && AllByHandler(es) && Worked(s, l, es) && mid.error
    ensures Called(s, l, es)
  {
    hide Worked, Exec, RaceFree;
    RunsAfter(s, es, mid);
    assert CalledInVain(s, l, es);
  }

  /** One call of stage 2, and what is done before it. */
  method Round(m: BlkMigState, gap: seq<Event>, l: Limit, failures: nat, ghost dest0: Disks)
    returns (done: bool, ghost u: State, ghost es: seq<Event>, ghost mid: State)
    requires m.blkEnable && m.Active(dest0) && !m.error
    modifies m
    ensures Runs(old(m.View()), Carried(old(m.View()), gap), u) && Runs(u, es, mid) && Called(u, l, es)
    ensures m.error == mid.error && (m.error ==> !done)
    ensures !m.error ==> m.Active(dest0) && mid == m.View() && (done <==> Finished(mid))
  {
    hide Steady, Runs, AllComplete, TotalSum, AllByHandler, Carried, Called, Worked;
    ghost var fs := Others(m, gap, dest0);
    u := m.View();
    var r;
    r, es, mid := m.BlockSaveLive(2, [], l, failures, {}, dest0);
    done := r == 1;
    if !m.error {
      CallRuns(u, l, es, mid);
      es, mid := es + [PutEos], m.View();
    } else {
      CallFails(u, l, es, mid);
    }
  }

  /** Stage 2 is called until it reports that nothing is left to read or in flight, or an error shows; before
      each call the guest and the drivers do what the next of `gaps` says. */
  method Iterate(m: BlkMigState, gaps: seq<seq<Event>>, limits: nat -> Limit, failures: nat, ghost dest0: Disks)
    returns (done: bool, ghost rounds: seq<seq<Event>>, ghost mid: State)
    requires m.blkEnable && m.Active(dest0) && !m.error
    modifies m
    ensures RoundsOk(old(m.View()), gaps, limits, rounds)
    ensures Runs(old(m.View()), Rounds(old(m.View()), gaps, rounds), mid)
    ensures m.error == mid.error && (m.error ==> !done)
    ensures !m.error ==> m.Active(dest0) && mid == m.View()
    ensures !m.error ==> (done <==> rounds != [] && Finished(mid)) && (!done ==> |rounds| == |gaps|)
  {
    hide Steady, Runs, Finished, TotalSum, Rounds, RoundsOk, Called, Carried;
    rounds, done, mid := [], false, m.View();
    ghost var s0 := m.View();
    NoRounds(s0, gaps, limits);
    for n := 0 to |gaps|
      invariant m.Active(dest0) && !m.error && !done && mid == m.View()
      invariant |rounds| == n && (rounds != [] ==> !Finished(mid))
      invariant RoundsOk(s0, gaps, limits, rounds) && Runs(s0, Rounds(s0, gaps, rounds), mid)
    {
      ghost var t, u, es := mid, mid, [];
      done, u, es, mid := Round(m, gaps[n], limits(n), failures, dest0);
      OneMoreRound(s0, gaps, limits, rounds, t, u, es, mid);
      rounds := rounds + [es];
      if done || m.error {
        return;
      }
    }
  }

  lemma RunIsExec(s: State, es: seq<Event>, t: State)
    requires Runs(s, es, t)
    ensures Exec(s, es) == Some(t)
  {
  }

  /** Stage 3, with the guest stopped. */
  method Finish(m: BlkMigState, l: Limit, failures: nat, bad: set<Key>, ghost dest0: Disks)
    returns (ghost src: seq<Dev>, ghost stop: seq<Event>, ghost last: seq<Event>, ghost mid: State)
    requires m.blkEnable && m.Active(dest0) && !m.error && Finished(m.View())
    modifies m
    ensures Runs(old(m.View()), stop + last, mid) && AllByHandler(last) && forall e :: e in stop ==> e.GuestPerform?
    ensures Exec(old(m.View()), stop).Some? && WorkedToEnd(After(old(m.View()), stop), l, last)
    ensures SameSizes(old(m.devs), src) && SameContents(src, mid.devs) && |stop| == |old(m.writes)|
    ensures m.error <==> mid.error || PassFails(mid.devs, bad)
    ensures !m.error ==> Saved(mid, dest0, m.wire) && mid.inFlight == []
    ensures !m.error && mid.blkList == [] && WholeChunks(src) ==> HoldsContents(Load(dest0, m.wire), src)
  {
    hide Steady, Runs, AllComplete, TotalSum, SameSizes, Saved, HoldsContents, WholeChunks, AllByHandler, PassFails;
    hide Exec, After, WorkedToEnd;
    ghost var s := m.View();
    NothingInFlight(s, dest0);
    stop := StopGuest(m, dest0);
    ghost var t := m.View();
    StartedAs(s, stop, t);
    NothingAhead(t);
    src := m.devs;
    var r;
    r, last, mid := m.BlockSaveLive(3, [], l, failures, bad, dest0);
    RunsConcat(s, stop, t, last, mid);
    RunsAfter(s, stop, t);
    RunIsExec(s, stop, t);
  }

  /** The steps of a migration but for what happens in the gaps: those of stage 1, of each call of stage 2, the
      guest's last writes, and those of stage 3. */
  datatype Session = Session(first: seq<Event>, rounds: seq<seq<Event>>, stop: seq<Event>, last: seq<Event>)

  /** What limits each call: that of stage 1, those of stage 2 in order, that of stage 3. */
  datatype Calls = Calls(first: Limit, rounds: nat -> Limit, last: Limit)

  /** All steps up to the end of stage 2. */
  ghost function Begun(start: State, gaps: seq<seq<Event>>, x: Session): seq<Event>
    requires |x.rounds| <= |gaps|
  {
    x.first + Rounds(After(start, x.first), gaps, x.rounds)
  }

  /** All steps, to `mid`: of the handler, of the gaps as far as they happen, and the guest's last writes. */
  ghost predicate Played(start: State, gaps: seq<seq<Event>>, calls: Calls, x: Session, mid: State) {
    && Called(start, calls.first, x.first) && RoundsOk(After(start, x.first), gaps, calls.rounds, x.rounds)
    && AllByHandler(x.last) && (forall e :: e in x.stop ==> e.GuestPerform?)
    && Runs(start, Begun(start, gaps, x) + (x.stop + x.last), mid)
  }

  lemma PlayedFirst(start: State, gaps: seq<seq<Event>>, calls: Calls, es: seq<Event>, mid: State)
    requires Runs(start, es, mid) && Called(start, calls.first, es)
    ensures Played(start, gaps, calls, Session(es, [], [], []), mid) && After(start, es) == mid
  {
    NoRounds(mid, gaps, calls.rounds);
    EosByHandler([]);
    assert es + [] + ([] + []) == es;
  }

  lemma PlayedRounds(start: State, gaps: seq<seq<Event>>, calls: Calls, es: seq<Event>, s: State,
                     rounds: seq<seq<Event>>, mid: State)
    requires Runs(start, es, s) && Called(start, calls.first, es)
    requires RoundsOk(s, gaps, calls.rounds, rounds) && Runs(s, Rounds(s, gaps, rounds), mid)
    ensures var x := Session(es, rounds, [], []);
            Played(start, gaps, calls, x, mid) && After(start, Begun(start, gaps, x)) == mid
  {
    RunsConcat(start, es, s, Rounds(s, gaps, rounds), mid);
    EosByHandler([]);
    var x := Session(es, rounds, [], []);
    assert Begun(start, gaps, x) + ([] + []) == Begun(start, gaps, x);
  }

  lemma PlayedAll(start: State, gaps: seq<seq<Event>>, calls: Calls, x: Session, s: State, stop: seq<Event>,
                  last: seq<Event>, mid: State)
    requires Played(start, gaps, calls, x, s) && x.stop == x.last == [] && Runs(s, stop + last, mid)
    requires AllByHandler(last) && forall e :: e in stop ==> e.GuestPerform?
    ensures Played(start, gaps, calls, x.(stop := stop, last := last), mid)
  {
    assert Begun(start, gaps, x) + ([] + []) == Begun(start, gaps, x);
    RunsConcat(start, Begun(start, gaps, x), s, stop + last, mid);
  }

  /** Block migration from beginning to end. Stage 1, stage 2 until it is done, and stage 3 with the guest
      stopped, for any drives, any race-free activity of guest and drivers between the calls, any failing read
      and any rate limit. `src` is what the source holds when the guest has stopped. */
  method Migrate(m: BlkMigState, drives: seq<Drive>, gaps: seq<seq<Event>>, calls: Calls, failures: nat, bad: set<Key>,
                 ghost dest0: Disks)
    returns (stage3: bool, ghost src: seq<Dev>, ghost x: Session, ghost mid: State)
    requires m.blkEnable && !m.error && m.devs == [] && m.inFlight == [] && m.blkList == [] && m.wire == []
    requires StartOk(StartDevs(drives, m.sharedBase), dest0) && StartDevs(drives, m.sharedBase) != []
    requires forall w :: w in m.writes ==> WriteFits(StartDevs(drives, m.sharedBase), w)
    requires m.sharedBase ==> m.writes == []
    modifies m
    // It is one run without a race; from the state it leads to, stage 3 sends the dirty chunks.
    ensures Played(StartOf(old(m.View()), StartDevs(drives, m.sharedBase)), gaps, calls, x, mid)
    // Stage 3 is entered if nothing fails before and stage 2 gets done within the gaps there are.
    ensures !stage3 ==>
              && x.stop == x.last == [] && m.error == mid.error
              && (!m.error ==> |x.rounds| == |gaps| && (x.rounds == [] || !Finished(mid)))
    ensures stage3 ==>
              var start := StartOf(old(m.View()), StartDevs(drives, m.sharedBase));
              && x.rounds != [] && Finished(After(start, Begun(start, gaps, x)))
              && WorkedToEnd(After(After(start, Begun(start, gaps, x)), x.stop), calls.last, x.last)
    ensures stage3 ==> SameSizes(StartDevs(drives, m.sharedBase), src) && SameContents(src, mid.devs)
    ensures stage3 ==> (m.error <==> mid.error || PassFails(mid.devs, bad))
    ensures stage3 && !m.error ==> Saved(mid, dest0, m.wire) && mid.inFlight == []
    // The destination is the source, unless the last flush left blocks in the queue or a chunk is partial.
    ensures stage3 && !m.error && mid.blkList == [] && WholeChunks(src) ==> HoldsContents(Load(dest0, m.wire), src)
  {
    hide Steady, Runs, AllComplete, TotalSum, SameSizes, Saved, HoldsContents, WholeChunks, StartOk, StartDevs;
    hide Rounds, RoundsOk, AllByHandler, Finished, PassFails, Played, After, Called, Worked, WorkedToEnd, Exec;
    ghost var start := StartOf(m.View(), StartDevs(drives, m.sharedBase));
    var r;
    ghost var es;
    stage3, src := false, [];
    r, es, mid := m.BlockSaveLive(1, drives, calls.first, failures, {}, dest0);
    if m.error {
      x := Session(es, [], [], []);
      CallFails(start, calls.first, es, mid);
      PlayedFirst(start, gaps, calls, es, mid);
      return;
    }
    CallRuns(start, calls.first, es, mid);
    es := es + [PutEos];
    ghost var s := m.View();
    ghost var rounds;
    stage3, rounds, mid := Iterate(m, gaps, calls.rounds, failures, dest0);
    x := Session(es, rounds, [], []);
    PlayedRounds(start, gaps, calls, es, s, rounds, mid);
    if !stage3 {
      return;
    }
    ghost var t, stop, last := mid, [], [];
    SizesSoFar(start, gaps, calls, x, t);
    src, stop, last, mid := Finish(m, calls.last, failures, bad, dest0);
    PlayedAll(start, gaps, calls, x, t, stop, last, mid);
    x := x.(stop := stop, last := last);
    SizesOn(start.devs, t.devs, src);
  }

  lemma SizesSoFar(start: State, gaps: seq<seq<Event>>, calls: Calls, x: Session, t: State)
    requires Played(start, gaps, calls, x, t)
    ensures SameSizes(start.devs, t.devs)
  {
    StartedAs(start, Begun(start, gaps, x) + (x.stop + x.last), t);
  }

  lemma SizesOn(a: seq<Dev>, b: seq<Dev>, c: seq<Dev>)
    requires SameSizes(a, b) && SameSizes(b, c)
    ensures SameSizes(a, c)
  {
  }
}
