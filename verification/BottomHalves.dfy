/** Bottom halves and the stack of contexts they belong to (async.c). */
module BottomHalves {
  import opened Sectors

  datatype Bh = Bh(scheduled: bool, idle: bool, deleted: bool, completion: bool)
  {
    predicate Pending() {
      scheduled && !deleted
    }
  }

  /** A context: its number, and the bottom halves linked into it, newest first. */
  datatype Context = Context(id: nat, list: seq<nat>)

  /** What is done to bottom half `id`; a run also records whether the half was idle. */
  datatype Event = Scheduled(id: nat) | Cancelled(id: nat) | Deleted(id: nat) | Ran(id: nat, idle: bool)

  /** What a callback may do; a nested context is entered, worked in and left. */
  datatype Action =
    | New
    | Schedule(id: nat)
    | ScheduleIdle(id: nat)
    | Cancel(id: nat)
    | Delete(id: nat)
    | Nested(body: seq<Action>)

  function Size(acts: seq<Action>): nat {
    if acts == [] then 0 else 1 + (if acts[0].Nested? then Size(acts[0].body) else 0) + Size(acts[1..])
  }

  predicate NoIdleActions(acts: seq<Action>) {
    acts == [] ||
    (!acts[0].ScheduleIdle? && (acts[0].Nested? ==> NoIdleActions(acts[0].body)) && NoIdleActions(acts[1..]))
  }

  // ---------------------------------------------------------------- what a run means

  /** The last thing done to `id` was to schedule it. */
  function Armed(trace: seq<Event>, id: nat): bool {
    if trace == [] then false
    else if trace[|trace| - 1].id == id then trace[|trace| - 1].Scheduled?
    else Armed(trace[..|trace| - 1], id)
  }

  function Gone(trace: seq<Event>, id: nat): bool {
    if trace == [] then false
    else trace[|trace| - 1] == Deleted(id) || Gone(trace[..|trace| - 1], id)
  }

  /** Whenever a bottom half runs, the last thing done to it was to schedule it, and it was never deleted. */
  predicate RunsJustified(trace: seq<Event>) {
    trace == [] ||
    var last, before := trace[|trace| - 1], trace[..|trace| - 1];
    RunsJustified(before) && (last.Ran? ==> Armed(before, last.id) && !Gone(before, last.id))
  }

  lemma Extend(trace: seq<Event>, e: Event)
    ensures forall id: nat :: Armed(trace + [e], id) == if e.id == id then e.Scheduled? else Armed(trace, id)
    ensures forall id: nat :: Gone(trace + [e], id) == (e == Deleted(id) || Gone(trace, id))
    ensures RunsJustified(trace + [e]) <==>
              RunsJustified(trace) && (e.Ran? ==> Armed(trace, e.id) && !Gone(trace, e.id))
  {
    assert (trace + [e])[..|trace|] == trace;
  }

  /** Each run has its own schedule: one lies before it with no run, cancel or delete of the half since, and
      no delete came earlier. */
  lemma {:induction false} EveryRunWasScheduled(trace: seq<Event>, q: nat) returns (r: nat)
    requires RunsJustified(trace) && q < |trace| && trace[q].Ran?
    ensures r < q && trace[r] == Scheduled(trace[q].id)
    ensures forall s :: r < s < q && trace[s].id == trace[q].id ==> trace[s].Scheduled?
    ensures forall s :: 0 <= s < q ==> trace[s] != Deleted(trace[q].id)
    decreases |trace|
  {
    if q < |trace| - 1 {
      r := EveryRunWasScheduled(trace[..|trace| - 1], q);
    } else {
      r := LastSchedule(trace[..q], trace[q].id);
      NeverDeleted(trace[..q], trace[q].id);
      assert forall s :: 0 <= s < q ==> trace[..q][s] == trace[s];
    }
  }

  lemma {:induction false} LastSchedule(trace: seq<Event>, id: nat) returns (r: nat)
    requires Armed(trace, id)
    ensures r < |trace| && trace[r] == Scheduled(id)
    ensures forall s :: r < s < |trace| && trace[s].id == id ==> trace[s].Scheduled?
  {
    if trace[|trace| - 1].id == id {
      r := |trace| - 1;
    } else {
      r := LastSchedule(trace[..|trace| - 1], id);
    }
  }

  lemma {:induction false} NeverDeleted(trace: seq<Event>, id: nat)
    requires !Gone(trace, id)
    ensures forall s :: 0 <= s < |trace| ==> trace[s] != Deleted(id)
  {
    if trace != [] {
      NeverDeleted(trace[..|trace| - 1], id);
    }
  }

  // ---------------------------------------------------------------- the state

  datatype State = State(bhs: seq<Bh>, stack: seq<Context>, trace: seq<Event>)

  /** A list holds known bottom halves, newest first. */
  ghost predicate Listed(list: seq<nat>, count: nat) {
    && (forall i :: 0 <= i < |list| ==> list[i] < count)
    && (forall i, j :: 0 <= i < j < |list| ==> list[i] > list[j])
  }

  /** The flags say what the trace says. */
  ghost predicate FlagsMatch(bhs: seq<Bh>, trace: seq<Event>) {
    forall id :: 0 <= id < |bhs| ==> bhs[id].scheduled == Armed(trace, id) && bhs[id].deleted == Gone(trace, id)
  }

  ghost predicate StackOk(stack: seq<Context>, count: nat) {
    stack != [] && forall i :: 0 <= i < |stack| ==> stack[i].id == i && Listed(stack[i].list, count)
  }

  ghost predicate NothingUnknown(trace: seq<Event>, count: nat) {
    forall e :: e in trace ==> e.id < count
  }

  ghost predicate Ok(s: State) {
    && StackOk(s.stack, |s.bhs|) && NothingUnknown(s.trace, |s.bhs|)
    && FlagsMatch(s.bhs, s.trace) && RunsJustified(s.trace)
  }

  function Top(s: State): seq<nat>
    requires s.stack != []
  {
    s.stack[|s.stack| - 1].list
  }

  /** What a callback leaves of the state it found: other contexts as they were, halves only added to the
      front of the current one, deleted halves still deleted, the trace only longer. */
  ghost predicate Extends(s: State, t: State) {
    && |s.stack| == |t.stack| > 0 && t.stack[..|t.stack| - 1] == s.stack[..|s.stack| - 1]
    && |s.bhs| <= |t.bhs| && s.trace <= t.trace
    && (forall id :: 0 <= id < |s.bhs| && s.bhs[id].deleted ==> t.bhs[id].deleted)
    && |Top(s)| <= |Top(t)| && Top(t)[|Top(t)| - |Top(s)|..] == Top(s)
    && forall i :: 0 <= i < |Top(t)| - |Top(s)| ==> Top(t)[i] >= |s.bhs|
  }

  lemma ExtendsTwice(s: State, t: State, u: State)
    requires Extends(s, t) && Extends(t, u)
    ensures Extends(s, u)
  {
    var k, l := |Top(t)| - |Top(s)|, |Top(u)| - |Top(t)|;
    assert Top(u)[l..][k..] == Top(u)[l + k..];
    forall i | 0 <= i < l + k ensures Top(u)[i] >= |s.bhs| {
      if i >= l {
        assert Top(u)[i] == Top(u)[l..][i - l] == Top(t)[i - l];
      }
    }
  }

  lemma ExtendsSame(s: State)
    requires s.stack != []
    ensures Extends(s, s)
  {
  }

  /** The state after an event, with the flags it sets. */
  function After(s: State, e: Event, idle: bool): State
    requires e.id < |s.bhs|
  {
    var b := s.bhs[e.id];
    State(s.bhs[e.id := Bh(e.Scheduled?, idle, b.deleted || e.Deleted?, b.completion)], s.stack, s.trace + [e])
  }

  lemma AfterFlags(s: State, e: Event, idle: bool)
    requires FlagsMatch(s.bhs, s.trace) && e.id < |s.bhs|
    ensures FlagsMatch(After(s, e, idle).bhs, s.trace + [e])
  {
    hide Armed, Gone;
    Extend(s.trace, e);
  }

  lemma AfterIsOk(s: State, e: Event, idle: bool)
    requires Ok(s) && e.id < |s.bhs| && (e.Ran? ==> s.bhs[e.id].Pending())
    ensures Ok(After(s, e, idle)) && Extends(s, After(s, e, idle))
  {
    hide RunsJustified, Armed, Gone, Listed;
    assert e.Ran? ==> Armed(s.trace, e.id) && !Gone(s.trace, e.id);
    AfterFlags(s, e, idle);
    Extend(s.trace, e);
    hide FlagsMatch;
  }

  function AfterRun(s: State, id: nat): State
    requires id < |s.bhs|
  {
    After(s, Ran(id, s.bhs[id].idle), false)
  }

  /** Since the trace was `from` long, only halves of `list` ran, idle ones if `onlyIdle`, and halves with numbers
      from `count` on. */
  ghost predicate RanSince(trace: seq<Event>, from: nat, list: seq<nat>, onlyIdle: bool, count: nat) {
    from <= |trace| &&
    forall k :: from <= k < |trace| && trace[k].Ran? ==>
      trace[k].id >= count || (trace[k].id in list && (onlyIdle ==> trace[k].idle))
  }

  /** A callback runs only halves made by itself: the contexts it polls are those it has entered. */
  ghost predicate NewRuns(s: State, t: State) {
    s.trace <= t.trace && |s.bhs| <= |t.bhs| && RanSince(t.trace, |s.trace|, [], false, |s.bhs|)
  }

  lemma NothingRan(s: State)
    ensures NewRuns(s, s)
  {
  }

  lemma RunsTwice(s: State, t: State, u: State)
    requires NewRuns(s, t) && NewRuns(t, u)
    ensures NewRuns(s, u)
  {
  }

  /** One event that is no run. */
  lemma AfterRunsNothing(s: State, e: Event, idle: bool)
    requires e.id < |s.bhs| && !e.Ran?
    ensures NewRuns(s, After(s, e, idle))
  {
  }

  /** What ran so far, then more of it. */
  lemma RanOn(a: seq<Event>, b: seq<Event>, from: nat, list: seq<nat>, onlyIdle: bool, count: nat,
              list': seq<nat>, onlyIdle': bool, count': nat)
    requires RanSince(a, from, list, onlyIdle, count) && a <= b && RanSince(b, |a|, list', onlyIdle', count')
    requires count <= count' && (onlyIdle ==> onlyIdle') && forall id :: id in list' ==> id in list || id >= count
    ensures RanSince(b, from, list, onlyIdle, count)
  {
  }

  function Created(s: State, completion: bool): State
    requires s.stack != []
  {
    var top := s.stack[|s.stack| - 1];
    State(s.bhs + [Bh(false, false, false, completion)],
          s.stack[|s.stack| - 1 := Context(top.id, [|s.bhs|] + top.list)], s.trace)
  }

  lemma CreatedIsOk(s: State, completion: bool)
    requires Ok(s)
    ensures Ok(Created(s, completion)) && Extends(s, Created(s, completion))
  {
    hide RunsJustified;
    UnknownIsIdle(s.trace, |s.bhs|, |s.bhs|);
  }

  lemma {:induction false} UnknownIsIdle(trace: seq<Event>, count: nat, id: nat)
    requires NothingUnknown(trace, count) && id >= count
    ensures !Armed(trace, id) && !Gone(trace, id)
  {
    if trace != [] {
      assert trace[|trace| - 1] in trace && forall e :: e in trace[..|trace| - 1] ==> e in trace;
      UnknownIsIdle(trace[..|trace| - 1], count, id);
    }
  }

  /** No bottom half of the list is about to run. */
  ghost predicate Quiet(s: State, list: seq<nat>)
  {
    forall id :: id in list && id < |s.bhs| ==> !s.bhs[id].Pending()
  }

  ghost predicate NoneIdle(bhs: seq<Bh>) {
    forall id :: 0 <= id < |bhs| ==> !bhs[id].idle
  }

  ghost predicate NoIdleScript(script: seq<seq<Action>>) {
    forall acts :: acts in script ==> NoIdleActions(acts)
  }

  predicate IsDeleted(bhs: seq<Bh>, id: nat) {
    id < |bhs| && bhs[id].deleted
  }

  /** The halves of a list that are not deleted. */
  function Live(bhs: seq<Bh>, list: seq<nat>): (r: seq<nat>)
    ensures forall id :: id in r <==> id in list && !IsDeleted(bhs, id)
  {
    if list == [] then []
    else if IsDeleted(bhs, list[0]) then Live(bhs, list[1..])
    else [list[0]] + Live(bhs, list[1..])
  }

  lemma ListedTail(list: seq<nat>, count: nat)
    requires list != [] && Listed(list, count)
    ensures list[0] < count && Listed(list[1..], count) && forall id :: id in list[1..] ==> id < list[0]
  {
  }

  lemma ListedPrepend(id: nat, list: seq<nat>, count: nat)
    requires id < count && Listed(list, count) && forall i :: i in list ==> i < id
    ensures Listed([id] + list, count)
  {
    assert forall j :: 0 <= j < |list| ==> list[j] in list;
    assert forall j :: 0 < j <= |list| ==> ([id] + list)[j] == list[j - 1];
  }

  lemma {:induction false} LiveIsListed(bhs: seq<Bh>, list: seq<nat>)
    requires Listed(list, |bhs|)
    ensures Listed(Live(bhs, list), |bhs|)
  {
    if list != [] {
      hide Listed;
      ListedTail(list, |bhs|);
      LiveIsListed(bhs, list[1..]);
      ListedPrepend(list[0], Live(bhs, list[1..]), |bhs|);
    }
  }

  lemma {:induction false} LiveAppends(bhs: seq<Bh>, list: seq<nat>, id: nat)
    ensures Live(bhs, list + [id]) == Live(bhs, list) + if IsDeleted(bhs, id) then [] else [id]
  {
    if list == [] {
      assert [] + [id] == [id] && [id][1..] == [];
    } else {
      assert (list + [id])[1..] == list[1..] + [id];
      LiveAppends(bhs, list[1..], id);
    }
  }

  lemma LiveOfNone(bhs: seq<Bh>)
    ensures Live(bhs, []) == []
  {
  }

  function Unlinked(s: State): State
    requires s.stack != []
  {
    var top := s.stack[|s.stack| - 1];
    s.(stack := s.stack[|s.stack| - 1 := Context(top.id, Live(s.bhs, top.list))])
  }

  function Pushed(s: State): State
    requires s.stack != []
  {
    s.(stack := s.stack + [Context(s.stack[|s.stack| - 1].id + 1, [])])
  }

  /** The halves of `list` that are pending were scheduled after the trace was `from` long. */
  ghost predicate Rescheduled(s: State, list: seq<nat>, from: nat)
    requires from <= |s.trace|
  {
    forall id :: id in list && id < |s.bhs| && s.bhs[id].Pending() ==> Scheduled(id) in s.trace[from..]
  }

  lemma {:induction false} ArmedLater(a: seq<Event>, b: seq<Event>, id: nat)
    ensures Armed(a + b, id) ==> Armed(a, id) || Scheduled(id) in b
  {
    if b == [] {
      assert a + b == a;
    } else {
      assert (a + b)[..|a + b| - 1] == a + b[..|b| - 1];
      assert b[|b| - 1] in b && forall e :: e in b[..|b| - 1] ==> e in b;
      ArmedLater(a, b[..|b| - 1], id);
    }
  }

  lemma RescheduledLater(s: State, t: State, list: seq<nat>, from: nat)
    requires Ok(s) && Ok(t) && Extends(s, t) && from <= |s.trace| && Rescheduled(s, list, from)
    requires forall id :: id in list ==> id < |s.bhs|
    ensures Rescheduled(t, list, from)
  {
    hide RunsJustified, Armed, Gone, Listed;
    forall id | id in list && t.bhs[id].Pending()
      ensures Scheduled(id) in t.trace[from..]
    {
      if s.bhs[id].Pending() {
        assert t.trace[from..][..|s.trace| - from] == s.trace[from..];
      } else {
        assert s.trace + t.trace[|s.trace|..] == t.trace;
        ArmedLater(s.trace, t.trace[|s.trace|..], id);
        assert t.trace[from..][|s.trace| - from..] == t.trace[|s.trace|..];
      }
    }
  }

  /** What running `id` adds to the trace when its callback does no more than it must. */
  function RunTrace(bhs: seq<Bh>, id: nat): seq<Event> {
    if id >= |bhs| || !bhs[id].Pending() then []
    else if bhs[id].completion then [Ran(id, bhs[id].idle), Deleted(id)]
    else [Ran(id, bhs[id].idle)]
  }

  /** Each pending half of the list once, in order. */
  function PassTrace(bhs: seq<Bh>, list: seq<nat>): seq<Event> {
    if list == [] then [] else
    PassTrace(bhs, list[..|list| - 1]) + RunTrace(bhs, list[|list| - 1])
  }

  /** A half that is not idle waits to run. */
  ghost predicate Busy(bhs: seq<Bh>, list: seq<nat>) {
    exists id :: id in list && id < |bhs| && bhs[id].Pending() && !bhs[id].idle
  }

  lemma PassOneMore(bhs: seq<Bh>, list: seq<nat>, n: nat)
    requires n < |list| && list[n] < |bhs|
    ensures PassTrace(bhs, list[..n + 1]) == PassTrace(bhs, list[..n]) + RunTrace(bhs, list[n])
    ensures Busy(bhs, list[..n + 1]) <==> Busy(bhs, list[..n]) || (bhs[list[n]].Pending() && !bhs[list[n]].idle)
  {
    var l := list[..n + 1];
    assert l[..|l| - 1] == list[..n] && l == list[..n] + [list[n]];
  }

  /** Running `id` changed nothing else. */
  ghost predicate NothingElse(s: State, t: State, id: nat) {
    && id < |s.bhs| && t.trace == s.trace + RunTrace(s.bhs, id)
    && t.stack == s.stack && |t.bhs| == |s.bhs| && id < |t.bhs| && !t.bhs[id].Pending()
    && forall j :: 0 <= j < |t.bhs| && j != id ==> t.bhs[j] == s.bhs[j]
  }

  /** The first `n` halves of the list have run, the others are as they were. */
  ghost predicate Untouched(s: State, t: State, list: seq<nat>, n: nat) {
    && Listed(list, |s.bhs|) && |t.bhs| == |s.bhs|
    && (forall k :: 0 <= k < n && k < |list| ==> !t.bhs[list[k]].Pending())
    && forall k :: n <= k < |list| ==> t.bhs[list[k]] == s.bhs[list[k]]
  }

  lemma StackIsThere(s: State)
    requires Ok(s)
    ensures s.stack != [] && Listed(Top(s), |s.bhs|)
  {
  }

  lemma NextInList(s: State, t: State, left: nat)
    requires Ok(s) && Extends(s, t) && 0 < left <= |Top(s)|
    ensures t.stack != [] && left <= |Top(t)|
    ensures Top(t)[|Top(t)| - left] == Top(s)[|Top(s)| - left] < |s.bhs| <= |t.bhs| && s.trace <= t.trace
  {
    var k := |Top(t)| - |Top(s)|;
    assert Top(t)[k..][|Top(s)| - left] == Top(t)[|Top(t)| - left];
  }

  lemma VisitRescheduled(t: State, v: State, id: nat, visited: seq<nat>, from: nat)
    requires Ok(t) && Ok(v) && id < |t.bhs| && t.bhs[id].Pending() && Extends(AfterRun(t, id), v)
    requires from <= |t.trace| && Rescheduled(t, visited, from) && forall i :: i in visited ==> i < |t.bhs|
    ensures Extends(t, v) && from <= |v.trace| && Rescheduled(v, visited + [id], from)
  {
    var a := AfterRun(t, id);
    AfterIsOk(t, Ran(id, t.bhs[id].idle), false);
    hide Ok, RunsJustified;
    ExtendsTwice(t, a, v);
    RescheduledLater(t, a, visited, from);
    assert Rescheduled(a, visited + [id], from);
    RescheduledLater(a, v, visited + [id], from);
  }

  lemma UntouchedStep(s: State, t: State, v: State, list: seq<nat>, n: nat)
    requires Untouched(s, t, list, n) && n < |list| && NothingElse(t, v, list[n])
    ensures Untouched(s, v, list, n + 1)
  {
  }

  lemma PollStarts(s: State)
    requires Ok(s)
    ensures s.stack != [] && Extends(s, s) && Untouched(s, s, Top(s), 0) && Quiet(s, [])
    ensures Rescheduled(s, [], |s.trace|)
  {
  }

  /** A half that is not pending is passed over. */
  lemma PassedOver(s: State, t: State, list: seq<nat>, n: nat, from: nat)
    requires n < |list| && list[n] < |t.bhs| && !t.bhs[list[n]].Pending() && from <= |t.trace|
    ensures list[..n + 1] == list[..n] + [list[n]]
    ensures Rescheduled(t, list[..n], from) ==> Rescheduled(t, list[..n + 1], from)
    ensures Untouched(s, t, list, n) ==> Untouched(s, t, list, n + 1)
    ensures Quiet(t, list[..n]) ==> Quiet(t, list[..n + 1])
  {
    assert list[..n + 1] == list[..n] + [list[n]];
  }

  lemma VisitedAreKnown(s: State, t: State, n: nat)
    requires Ok(s) && Extends(s, t) && n <= |Top(s)|
    ensures forall id :: id in Top(s)[..n] ==> id < |t.bhs|
  {
  }

  /** With nothing left to do, the half that runs was pending from the start. */
  lemma WasPending(s: State, t: State, list: seq<nat>, n: nat)
    requires Untouched(s, t, list, n) && n < |list| && list[n] < |t.bhs| && t.bhs[list[n]].Pending()
    ensures !Quiet(s, list)
  {
    assert list[n] in list;
  }

  lemma SameFlagsSameVerdict(s: State, t: State, list: seq<nat>, from: nat)
    requires s.stack != [] && t == Unlinked(s) && from <= |s.trace|
    ensures Rescheduled(s, list, from) ==> Rescheduled(t, list, from)
    ensures Quiet(s, list) ==> Quiet(t, Live(s.bhs, list))
    ensures Top(t) == Live(s.bhs, Top(s))
  {
  }

  lemma UntouchedIsQuiet(s: State, t: State, list: seq<nat>, n: nat)
    requires Untouched(s, t, list, n) && n >= |list|
    ensures Quiet(t, list)
  {
  }

  /** The first `n` halves have had their turn, each once. */
  ghost predicate PassedTo(s: State, t: State, list: seq<nat>, n: nat, ret: bool) {
    && n <= |list| && t.trace == s.trace + PassTrace(s.bhs, list[..n]) && (ret <==> Busy(s.bhs, list[..n]))
  }

  lemma PassedStep(s: State, t: State, v: State, list: seq<nat>, n: nat, ret: bool, ret': bool)
    requires PassedTo(s, t, list, n, ret) && Untouched(s, t, list, n) && n < |list|
    requires NothingElse(t, v, list[n]) && t.bhs[list[n]].Pending()
    requires ret' == (ret || !t.bhs[list[n]].idle)
    ensures PassedTo(s, v, list, n + 1, ret')
  {
    hide Busy, PassTrace;
    PassOneMore(s.bhs, list, n);
    assert t.bhs[list[n]] == s.bhs[list[n]];
    assert s.trace + PassTrace(s.bhs, list[..n]) + RunTrace(s.bhs, list[n]) ==
           s.trace + (PassTrace(s.bhs, list[..n]) + RunTrace(s.bhs, list[n]));
  }

  lemma PassedSkip(s: State, t: State, list: seq<nat>, n: nat, ret: bool)
    requires PassedTo(s, t, list, n, ret) && Untouched(s, t, list, n) && n < |list| && !t.bhs[list[n]].Pending()
    ensures PassedTo(s, t, list, n + 1, ret)
  {
    hide Busy, PassTrace;
    PassOneMore(s.bhs, list, n);
    assert t.bhs[list[n]] == s.bhs[list[n]];
    assert PassTrace(s.bhs, list[..n]) + [] == PassTrace(s.bhs, list[..n]);
  }

  lemma PassedAll(s: State, t: State, list: seq<nat>, ret: bool)
    requires PassedTo(s, t, list, |list|, ret)
    ensures t.trace == s.trace + PassTrace(s.bhs, list) && (ret <==> Busy(s.bhs, list))
  {
    assert list[..|list|] == list;
  }

  lemma PassedNone(s: State)
    requires Ok(s)
    ensures s.stack != [] && PassedTo(s, s, Top(s), 0, false)
  {
    assert Top(s)[..0] == [];
  }

  lemma SameStack(s: State, t: State, id: nat)
    requires NothingElse(s, t, id)
    ensures t.stack == s.stack
  {
  }

  lemma NotIdle(s: State, id: nat)
    requires id < |s.bhs| && s.bhs[id].idle
    ensures !NoneIdle(s.bhs)
  {
  }

  lemma QuietStays(s: State, t: State, list: seq<nat>)
    requires Listed(list, |s.bhs|) && Quiet(s, list)
    requires |s.bhs| <= |t.bhs| && t.bhs[..|s.bhs|] == s.bhs
    ensures Quiet(t, list)
  {
    forall id | id in list && id < |t.bhs| ensures !t.bhs[id].Pending() {
      assert t.bhs[id] == t.bhs[..|s.bhs|][id];
    }
  }

  /** What passes over a context leave: the others as they were, and of its own halves all but deleted ones. */
  ghost predicate Above(s: State, t: State) {
    && |s.stack| == |t.stack| > 0 && t.stack[..|t.stack| - 1] == s.stack[..|s.stack| - 1]
    && |s.bhs| <= |t.bhs| && s.trace <= t.trace
    && (forall id :: 0 <= id < |s.bhs| && s.bhs[id].deleted ==> t.bhs[id].deleted)
    && OwnHalves(t.bhs, Top(s), Top(t), |s.bhs|)
  }

  /** `list'` is what became of `list`: deleted halves may be gone, and halves from `count` on be new. */
  ghost predicate OwnHalves(bhs: seq<Bh>, list: seq<nat>, list': seq<nat>, count: nat) {
    && (forall id :: id in list ==> id in list' || IsDeleted(bhs, id))
    && forall id :: id in list' ==> id in list || id >= count
  }

  lemma AboveSame(s: State)
    requires s.stack != []
    ensures Above(s, s)
  {
  }

  lemma SameAbove(s: State, t: State)
    requires Above(s, t)
    ensures |s.stack| == |t.stack| > 0 && OwnHalves(t.bhs, Top(s), Top(t), |s.bhs|)
  {
  }

  lemma PollIsAbove(s: State, t: State, u: State)
    requires Above(s, t) && Extends(t, u)
    ensures Above(s, Unlinked(u))
  {
  }

  function Popped(s: State): State
    requires s.stack != []
  {
    s.(stack := s.stack[..|s.stack| - 1])
  }

  /** What leaving a context does to its parent: one more half, the rest as before. */
  ghost predicate Left(s: State, t: State) {
    && |s.stack| == |t.stack| + 1 && t.stack != []
    && t.stack[..|t.stack| - 1] == s.stack[..|t.stack| - 1]
    && |s.bhs| <= |t.bhs| && s.trace <= t.trace
    && (forall id :: 0 <= id < |s.bhs| && s.bhs[id].deleted ==> t.bhs[id].deleted)
    && |Top(t)| > 0 && Top(t)[0] >= |s.bhs| && Top(t)[1..] == s.stack[|t.stack| - 1].list
  }

  lemma PoppedIsOk(s: State)
    requires Ok(s) && |s.stack| >= 2
    ensures Ok(Popped(s))
  {
    hide RunsJustified, FlagsMatch, NothingUnknown;
  }

  lemma LeavesParent(s: State, t: State, u: State, v: State)
    requires |s.stack| >= 2 && Above(s, t) && u == Created(Popped(t), true)
    requires Extends(u, v) && v.stack == u.stack
    ensures Left(s, v)
  {
  }

  /** A callback that enters a context, works in it and leaves it extends the state it started from. */
  lemma NestedExtends(s: State, t: State, u: State, v: State)
    requires s.stack != [] && t == Pushed(s) && Extends(t, u) && Left(u, v)
    ensures Extends(s, v)
  {
    assert t.stack[..|t.stack| - 1] == s.stack;
    assert u.stack[..|t.stack| - 1] == s.stack;
    assert v.stack[..|v.stack| - 1] == s.stack[..|s.stack| - 1];
    assert u.stack[|v.stack| - 1] == s.stack[|s.stack| - 1];
  }

  lemma SameDepth(s: State, t: State)
    requires Extends(s, t)
    ensures |s.stack| == |t.stack| && |s.bhs| <= |t.bhs| && s.trace <= t.trace
  {
  }

  // ---------------------------------------------------------------- what callbacks do

  /** The actions lead from `s` to `t`, one after the other. */
  ghost predicate Performs(acts: seq<Action>, s: State, t: State)
    decreases Size(acts), 1
  {
    if acts == [] then t == s else exists u: State :: Does(acts[0], s, u) && Performs(acts[1..], u, t)
  }

  /** One action; what is meant for a half that does not exist does nothing. */
  ghost predicate Does(a: Action, s: State, t: State)
    decreases if a.Nested? then 1 + Size(a.body) else 1, 0
  {
    match a
    case New => s.stack != [] && t == Created(s, false)
    case Schedule(id) => t == if id < |s.bhs| then Scheduling(s, id, false) else s
    case ScheduleIdle(id) => t == if id < |s.bhs| then Scheduling(s, id, true) else s
    case Cancel(id) => t == if id < |s.bhs| then After(s, Cancelled(id), s.bhs[id].idle) else s
    case Delete(id) => t == if id < |s.bhs| then After(s, Deleted(id), s.bhs[id].idle) else s
    case Nested(body) => s.stack != [] && exists u: State :: Performs(body, Pushed(s), u) && Left(u, t)
  }

  /** A half that is already scheduled stays as it is. */
  function Scheduling(s: State, id: nat, idle: bool): State
    requires id < |s.bhs|
  {
    After(s, Scheduled(id), if s.bhs[id].scheduled then s.bhs[id].idle else idle)
  }

  /** What running a half does before its callback: it is no longer scheduled, and a completion half deletes itself. */
  function Started(s: State, id: nat): State
    requires id < |s.bhs|
  {
    var t := AfterRun(s, id);
    if s.bhs[id].completion then After(t, Deleted(id), false) else t
  }

  lemma StartedIs(s: State, id: nat)
    requires id < |s.bhs|
    ensures var b, t := s.bhs[id], Started(s, id);
            && t.bhs == s.bhs[id := Bh(false, false, b.deleted || b.completion, b.completion)] && t.stack == s.stack
            && t.trace == s.trace + [Ran(id, b.idle)] + if b.completion then [Deleted(id)] else []
  {
  }

  lemma PerformsNothing(s: State)
    ensures Performs([], s, s)
  {
  }

  lemma PerformsOn(acts: seq<Action>, s: State, u: State, t: State)
    requires acts != [] && Does(acts[0], s, u) && Performs(acts[1..], u, t)
    ensures Performs(acts, s, t)
  {
  }

  /** Actions that do not enter a context. */
  lemma DoesOne(s: State, id: nat)
    ensures s.stack != [] ==> Does(New, s, Created(s, false))
    ensures id < |s.bhs| ==>
              && Does(Schedule(id), s, After(s, Scheduled(id), s.bhs[id].scheduled && s.bhs[id].idle))
              && Does(ScheduleIdle(id), s, After(s, Scheduled(id), s.bhs[id].scheduled ==> s.bhs[id].idle))
              && Does(Cancel(id), s, After(s, Cancelled(id), s.bhs[id].idle))
              && Does(Delete(id), s, After(s, Deleted(id), s.bhs[id].idle))
    ensures id >= |s.bhs| ==>
              && Does(Schedule(id), s, s) && Does(ScheduleIdle(id), s, s)
              && Does(Cancel(id), s, s) && Does(Delete(id), s, s)
  {
    hide Performs;
  }

  lemma DoesNested(body: seq<Action>, s: State, u: State, t: State)
    requires s.stack != [] && Performs(body, Pushed(s), u) && Left(u, t)
    ensures Does(Nested(body), s, t)
  {
  }

  /** A half has its turn in a pass: if it is pending it runs, and its callback does what `acts` says. */
  ghost predicate Visit(s: State, id: nat, acts: seq<Action>, t: State) {
    id < |s.bhs| && if s.bhs[id].Pending() then Performs(acts, Started(s, id), t) else t == s
  }

  /** A half that is not idle runs when it has its turn. */
  ghost predicate BusyVisit(s: State, id: nat) {
    id < |s.bhs| && s.bhs[id].Pending() && !s.bhs[id].idle
  }

  ghost predicate WasBusy(list: seq<nat>, states: seq<State>, n: nat)
    requires n <= |list| && n <= |states|
  {
    exists k: nat :: k < n && BusyVisit(states[k], list[k])
  }

  /** The first `n` halves of the list have had their turn, in the order of the list, leading from state to state; what
      their callbacks did is in `script`, or nothing. */
  ghost predicate Visits(list: seq<nat>, n: nat, states: seq<State>, did: seq<seq<Action>>, script: seq<seq<Action>>)
    requires n <= |list|
  {
    && |states| == n + 1 && |did| == n
    && forall k :: 0 <= k < n ==>
         Visit(states[k], list[k], did[k], states[k + 1]) && (did[k] == [] || did[k] in script)
  }

  lemma VisitPending(s: State, id: nat, acts: seq<Action>, t: State)
    requires id < |s.bhs| && s.bhs[id].Pending() && Performs(acts, Started(s, id), t)
    ensures Visit(s, id, acts, t)
  {
  }

  lemma VisitSkips(s: State, id: nat)
    requires id < |s.bhs| && !s.bhs[id].Pending()
    ensures Visit(s, id, [], s)
  {
  }

  lemma BusyOn(list: seq<nat>, states: seq<State>, n: nat, t: State)
    requires n < |list| && |states| == n + 1
    ensures WasBusy(list, states + [t], n + 1) <==> WasBusy(list, states, n) || BusyVisit(states[n], list[n])
  {
    hide BusyVisit;
    var all := states + [t];
    if WasBusy(list, states, n) {
      var k: nat :| k < n && BusyVisit(states[k], list[k]);
      assert all[k] == states[k];
    } else if BusyVisit(states[n], list[n]) {
      assert all[n] == states[n];
    }
  }

  lemma VisitsOn(list: seq<nat>, n: nat, states: seq<State>, did: seq<seq<Action>>, script: seq<seq<Action>>,
                 acts: seq<Action>, t: State)
    requires n < |list| && Visits(list, n, states, did, script)
    requires Visit(states[n], list[n], acts, t) && (acts == [] || acts in script)
    ensures Visits(list, n + 1, states + [t], did + [acts], script)
  {
    hide Visit;
  }

  /** A pass from `s` has led to `t`: `n` halves have had their turn, and `ret` tells whether one that was not idle
      ran. */
  ghost predicate PassedBy(list: seq<nat>, n: nat, s: State, t: State, states: seq<State>, did: seq<seq<Action>>,
                           script: seq<seq<Action>>, ret: bool)
  {
    && n <= |list| && Visits(list, n, states, did, script) && states[0] == s && states[n] == t
    && (ret <==> WasBusy(list, states, n))
  }

  lemma NobodyVisited(list: seq<nat>, s: State, script: seq<seq<Action>>)
    ensures PassedBy(list, 0, s, s, [s], [], script, false)
  {
  }

  lemma PassedByOne(list: seq<nat>, n: nat, s: State, t: State, states: seq<State>, did: seq<seq<Action>>,
                    script: seq<seq<Action>>, ret: bool, acts: seq<Action>, u: State)
    requires PassedBy(list, n, s, t, states, did, script, ret) && n < |list| && Visit(t, list[n], acts, u)
    requires acts == [] || acts in script
    ensures PassedBy(list, n + 1, s, u, states + [u], did + [acts], script, ret || BusyVisit(t, list[n]))
  {
    hide Visit, BusyVisit, WasBusy;
    VisitsOn(list, n, states, did, script, acts, u);
    BusyOn(list, states, n, u);
  }

  lemma PassedByAll(list: seq<nat>, s: State, t: State, states: seq<State>, did: seq<seq<Action>>,
                    script: seq<seq<Action>>, ret: bool)
    requires PassedBy(list, |list|, s, t, states, did, script, ret)
    ensures Visits(list, |list|, states, did, script)
    ensures states[0] == s && states[|states| - 1] == t && (ret <==> WasBusy(list, states, |list|))
  {
    hide WasBusy;
  }

  // ---------------------------------------------------------------- which halves run

  /** A visited half runs, then whatever its callback runs. */
  lemma VisitRuns(t: State, v: State, id: nat, from: nat, list: seq<nat>, ret: bool, count: nat)
    requires id < |t.bhs| && id in list && count <= |t.bhs|
    requires RanSince(t.trace, from, list, !ret, count) && NewRuns(AfterRun(t, id), v)
    ensures RanSince(v.trace, from, list, !(ret || !t.bhs[id].idle), count)
  {
    var e := Ran(id, t.bhs[id].idle);
    assert AfterRun(t, id).trace == t.trace + [e];
    forall k | from <= k < |v.trace| && v.trace[k].Ran?
      ensures v.trace[k].id >= count || (v.trace[k].id in list && (!(ret || !t.bhs[id].idle) ==> v.trace[k].idle))
    {
      assert k < |t.trace| ==> v.trace[k] == (t.trace + [e])[k] == t.trace[k];
      assert k == |t.trace| ==> v.trace[k] == (t.trace + [e])[k] == e;
    }
  }

  lemma NoRunYet(s: State, list: seq<nat>)
    ensures RanSince(s.trace, |s.trace|, list, true, |s.bhs|)
  {
  }

  /** What a pass and the callbacks in it leave in a list was there before, or is new. */
  lemma TopGrows(s: State, t: State)
    requires Extends(s, t)
    ensures forall id :: id in Top(t) ==> id in Top(s) || id >= |s.bhs|
  {
    var k := |Top(t)| - |Top(s)|;
    forall id | id in Top(t)
      ensures id in Top(s) || id >= |s.bhs|
    {
      var i :| 0 <= i < |Top(t)| && Top(t)[i] == id;
      if i >= k {
        assert Top(t)[k..][i - k] == id;
      }
    }
  }

  /** A half made during a pass can only be pending if it was scheduled since. */
  lemma NewRescheduled(s: State, t: State)
    requires Ok(s) && Ok(t) && Extends(s, t) && Rescheduled(t, Top(s), |s.trace|)
    ensures Rescheduled(t, Top(t), |s.trace|)
  {
    TopGrows(s, t);
    hide RunsJustified, Armed, Gone, Listed;
    forall id | id in Top(t) && id < |t.bhs| && t.bhs[id].Pending()
      ensures Scheduled(id) in t.trace[|s.trace|..]
    {
      if id !in Top(s) {
        UnknownIsIdle(s.trace, |s.bhs|, id);
        assert s.trace + t.trace[|s.trace|..] == t.trace;
        ArmedLater(s.trace, t.trace[|s.trace|..], id);
      }
    }
  }

  lemma UnlinkedRescheduled(s: State, from: nat)
    requires s.stack != [] && from <= |s.trace| && Rescheduled(s, Top(s), from)
    ensures Rescheduled(Unlinked(s), Top(Unlinked(s)), from)
  {
    assert Top(Unlinked(s)) == Live(s.bhs, Top(s));
  }

  /** The halves of a context that has been left are as they were. */
  lemma LeftBehind(t: State, v: State, list: seq<nat>, from: nat)
    requires from <= |t.trace| && Rescheduled(t, list, from) && t.trace <= v.trace
    requires |t.bhs| <= |v.bhs| && v.bhs[..|t.bhs|] == t.bhs && forall id :: id in list ==> id < |t.bhs|
    ensures from <= |v.trace| && Rescheduled(v, list, from)
  {
    forall id | id in list && v.bhs[id].Pending()
      ensures Scheduled(id) in v.trace[from..]
    {
      assert v.bhs[id] == v.bhs[..|t.bhs|][id];
      assert v.trace[from..][..|t.trace| - from] == t.trace[from..];
    }
  }

  ghost predicate OnlyIdleRan(trace: seq<Event>, from: nat, count: nat) {
    forall k :: from <= k < |trace| && trace[k].Ran? ==> trace[k].idle || trace[k].id >= count
  }

  lemma AnyRuns(trace: seq<Event>, from: nat, list: seq<nat>, count: nat)
    requires RanSince(trace, from, list, true, count)
    ensures RanSince(trace, from, list, false, count) && OnlyIdleRan(trace, from, count)
  {
  }

  /** A pass over a list that holds halves of `list` and new ones. */
  lemma RanMore(a: seq<Event>, b: seq<Event>, c: seq<Event>, list: seq<nat>, count: nat, list': seq<nat>,
                onlyIdle: bool, count': nat)
    requires |a| <= |b| && b <= c && RanSince(b, |a|, list, false, count) && RanSince(c, |b|, list', onlyIdle, count')
    requires count <= count' && forall id :: id in list' ==> id in list || id >= count
    ensures RanSince(c, |a|, list, false, count) && (onlyIdle ==> OnlyIdleRan(c, |b|, count'))
  {
    RanOn(b, c, |a|, list, false, count, list', onlyIdle, count');
  }

  lemma UnlinkedTop(s: State)
    requires s.stack != []
    ensures forall id :: id in Top(Unlinked(s)) ==> id in Top(s)
  {
  }

  lemma ScheduledRunsNothing(trace: seq<Event>, id: nat, from: nat, list: seq<nat>, count: nat)
    requires RanSince(trace, from, list, false, count)
    ensures RanSince(trace + [Scheduled(id)], from, list, false, count)
    ensures forall m: nat, n: nat :: OnlyIdleRan(trace, m, n) ==> OnlyIdleRan(trace + [Scheduled(id)], m, n)
  {
  }

  lemma TopIsKnown(s: State)
    requires Ok(s)
    ensures s.stack != [] && forall id :: id in Top(s) ==> id < |s.bhs|
  {
  }

  /** A context that is entered, worked in and left runs only halves made since. */
  lemma NestedRuns(s: State, t: State, u: State, v: State)
    requires s.stack != [] && t == Pushed(s) && Extends(t, u) && NewRuns(t, u)
    requires Left(u, v) && RanSince(v.trace, |u.trace|, Top(u), false, |u.bhs|)
    ensures NewRuns(s, v)
  {
    TopGrows(t, u);
    RanOn(u.trace, v.trace, |s.trace|, [], false, |s.bhs|, Top(u), false, |u.bhs|);
  }

  // ---------------------------------------------------------------- a pass, half by half

  /** A pass that began in `s` has visited the first `n` halves of the list; `ret` tells whether one that was not
      idle ran. */
  ghost predicate Passing(s: State, t: State, n: nat, ret: bool) {
    && Extends(s, t) && n <= |Top(s)| && |s.trace| <= |t.trace| && |s.bhs| <= |t.bhs|
    && Rescheduled(t, Top(s)[..n], |s.trace|) && RanSince(t.trace, |s.trace|, Top(s), !ret, |s.bhs|)
  }

  /** The same with callbacks that do nothing more. */
  ghost predicate PassingAlone(s: State, t: State, n: nat, ret: bool) {
    s.stack != [] && t.stack == s.stack && Untouched(s, t, Top(s), n) && PassedTo(s, t, Top(s), n, ret)
  }

  lemma PassingStarts(s: State)
    requires Ok(s)
    ensures s.stack != [] && Passing(s, s, 0, false) && PassingAlone(s, s, 0, false) && Quiet(s, Top(s)[..0])
  {
    hide Ok, Extends, Rescheduled, RanSince, Untouched, PassedTo;
    PollStarts(s);
    PassedNone(s);
    NoRunYet(s, Top(s));
    assert Top(s)[..0] == [];
  }

  /** The next half of the list. */
  lemma PassingNext(s: State, t: State, left: nat, ret: bool)
    requires Ok(s) && s.stack != [] && 0 < left <= |Top(s)| && Passing(s, t, |Top(s)| - left, ret)
    ensures t.stack != [] && left <= |Top(t)|
    ensures Top(t)[|Top(t)| - left] == Top(s)[|Top(s)| - left] < |s.bhs| <= |t.bhs|
  {
    NextInList(s, t, left);
  }

  lemma PassingOn(s: State, t: State, v: State, n: nat, ret: bool, id: nat)
    requires Ok(s) && Ok(t) && Ok(v) && s.stack != [] && Passing(s, t, n, ret)
    requires n < |Top(s)| && id == Top(s)[n] && id < |t.bhs| && t.bhs[id].Pending()
    requires Extends(AfterRun(t, id), v) && NewRuns(AfterRun(t, id), v)
    ensures Passing(s, v, n + 1, ret || !t.bhs[id].idle)
  {
    hide Ok, Extends, Rescheduled, RanSince, NewRuns, AfterRun;
    var first := Top(s);
    VisitedAreKnown(s, t, n);
    VisitRescheduled(t, v, id, first[..n], |s.trace|);
    VisitRuns(t, v, id, |s.trace|, first, ret, |s.bhs|);
    SameDepth(t, v);
    ExtendsTwice(s, t, v);
    SameDepth(s, v);
    assert first[..n + 1] == first[..n] + [id];
  }

  lemma PassingOver(s: State, t: State, n: nat, ret: bool)
    requires s.stack != [] && Passing(s, t, n, ret)
    requires n < |Top(s)| && Top(s)[n] < |t.bhs| && !t.bhs[Top(s)[n]].Pending()
    ensures Passing(s, t, n + 1, ret) && (Quiet(t, Top(s)[..n]) ==> Quiet(t, Top(s)[..n + 1]))
  {
    hide Extends, Rescheduled, RanSince, Quiet, Untouched;
    PassedOver(s, t, Top(s), n, |s.trace|);
  }

  lemma AloneOn(s: State, t: State, v: State, n: nat, ret: bool, id: nat)
    requires PassingAlone(s, t, n, ret) && n < |Top(s)| && id == Top(s)[n]
    requires NothingElse(t, v, id) && t.bhs[id].Pending()
    ensures PassingAlone(s, v, n + 1, ret || !t.bhs[id].idle) && !Quiet(s, Top(s))
  {
    hide Untouched, PassedTo, Quiet;
    SameStack(t, v, id);
    WasPending(s, t, Top(s), n);
    UntouchedStep(s, t, v, Top(s), n);
    PassedStep(s, t, v, Top(s), n, ret, ret || !t.bhs[id].idle);
  }

  lemma AloneOver(s: State, t: State, n: nat, ret: bool)
    requires PassingAlone(s, t, n, ret) && n < |Top(s)| && Top(s)[n] < |t.bhs| && !t.bhs[Top(s)[n]].Pending()
    ensures PassingAlone(s, t, n + 1, ret)
  {
    hide PassedTo;
    PassedSkip(s, t, Top(s), n, ret);
  }

  lemma PassingEnds(s: State, ran: State, t: State, ret: bool)
    requires Ok(s) && Ok(ran) && s.stack != [] && Passing(s, ran, |Top(s)|, ret)
    requires ran.stack != [] && t == Unlinked(ran)
    ensures Extends(s, ran) && t.stack != [] && |s.trace| <= |t.trace| && Rescheduled(t, Top(s), |s.trace|)
    ensures Rescheduled(t, Top(t), |s.trace|) && RanSince(t.trace, |s.trace|, Top(s), !ret, |s.bhs|)
  {
    hide Ok, Extends, Rescheduled, RanSince, Live;
    assert Top(s)[..|Top(s)|] == Top(s);
    NewRescheduled(s, ran);
    UnlinkedRescheduled(ran, |s.trace|);
    SameFlagsSameVerdict(ran, t, Top(s), |s.trace|);
  }

  lemma AloneEnds(s: State, ran: State, t: State, ret: bool)
    requires s.stack != [] && PassingAlone(s, ran, |Top(s)|, ret) && t == Unlinked(ran)
    ensures t.trace == s.trace + PassTrace(s.bhs, Top(s)) && (ret <==> Busy(s.bhs, Top(s))) && Quiet(t, Top(t))
  {
    hide Untouched, PassedTo, PassTrace, Busy, Quiet, Live, Rescheduled;
    PassedAll(s, ran, Top(s), ret);
    UntouchedIsQuiet(s, ran, Top(s), |Top(s)|);
    SameFlagsSameVerdict(ran, t, Top(s), 0);
  }

  lemma QuietEnds(s: State, t: State)
    requires s.stack != [] && Quiet(s, Top(s)[..|Top(s)|]) && t == Unlinked(s)
    ensures Quiet(t, Top(t))
  {
    hide Quiet, Live, Rescheduled;
    assert Top(s)[..|Top(s)|] == Top(s);
    SameFlagsSameVerdict(s, t, Top(s), 0);
  }

  // ---------------------------------------------------------------- the code

  class AsyncContexts {
    var bhs: seq<Bh>
    var stack: seq<Context>
    var trace: seq<Event>
    /** What the callbacks to come will do, one entry for each run; later ones do nothing. */
    var script: seq<seq<Action>>

    ghost function View(): State
      reads this
    {
      State(bhs, stack, trace)
    }

    ghost predicate Valid()
      reads this
    {
      Ok(View())
    }

    /** Neither a half nor a callback to come is idle. */
    ghost predicate NoIdle()
      reads this
    {
      NoneIdle(bhs) && NoIdleScript(script)
    }

    constructor (script: seq<seq<Action>>)
      ensures Valid() && View() == State([], [Context(0, [])], []) && this.script == script
    {
      bhs, stack, trace, this.script := [], [Context(0, [])], [], script;
    }

    method GetAsyncContextId() returns (id: nat)
      requires Valid()
      ensures id == |stack| - 1
    {
      id := stack[|stack| - 1].id;
    }

    method BhNew(completion: bool) returns (id: nat)
      requires Valid()
      modifies this`bhs, this`stack
      ensures Valid() && id == |old(bhs)| && View() == Created(old(View()), completion)
      ensures bhs == old(bhs) + [Bh(false, false, false, completion)] && Top(View()) == [id] + Top(old(View()))
      ensures Extends(old(View()), View()) && NewRuns(old(View()), View()) && (old(NoIdle()) ==> NoIdle())
    {
      CreatedIsOk(View(), completion);
      var top := stack[|stack| - 1];
      id := |bhs|;
      bhs := bhs + [Bh(false, false, false, completion)];
      stack := stack[|stack| - 1 := Context(top.id, [id] + top.list)];
    }

    method BhSchedule(id: nat)
      requires Valid() && id < |bhs|
      modifies this`bhs, this`trace
      ensures Valid() && View() == After(old(View()), Scheduled(id), old(bhs[id].scheduled && bhs[id].idle))
      ensures var b := old(bhs[id]);
              bhs == old(bhs)[id := if b.scheduled then b else b.(scheduled := true, idle := false)]
      ensures trace == old(trace) + [Scheduled(id)]
      ensures Extends(old(View()), View()) && NewRuns(old(View()), View()) && (old(NoIdle()) ==> NoIdle())
    {
      hide Ok, Extends;
      hide NewRuns;
      AfterIsOk(View(), Scheduled(id), bhs[id].scheduled && bhs[id].idle);
      AfterRunsNothing(View(), Scheduled(id), bhs[id].scheduled && bhs[id].idle);
      trace := trace + [Scheduled(id)];
      if bhs[id].scheduled {
        assert bhs == bhs[id := bhs[id]];
        return;
      }
      bhs := bhs[id := bhs[id].(scheduled := true, idle := false)];
    }

    method BhScheduleIdle(id: nat)
      requires Valid() && id < |bhs|
      modifies this`bhs, this`trace
      ensures Valid() && View() == After(old(View()), Scheduled(id), old(bhs[id].scheduled ==> bhs[id].idle))
      ensures var b := old(bhs[id]);
              bhs == old(bhs)[id := if b.scheduled then b else b.(scheduled := true, idle := true)]
      ensures trace == old(trace) + [Scheduled(id)]
      ensures Extends(old(View()), View()) && NewRuns(old(View()), View())
    {
      hide Ok, Extends;
      hide NewRuns;
      AfterIsOk(View(), Scheduled(id), bhs[id].scheduled ==> bhs[id].idle);
      AfterRunsNothing(View(), Scheduled(id), bhs[id].scheduled ==> bhs[id].idle);
      trace := trace + [Scheduled(id)];
      if bhs[id].scheduled {
        assert bhs == bhs[id := bhs[id]];
        return;
      }
      bhs := bhs[id := bhs[id].(scheduled := true, idle := true)];
    }

    method BhCancel(id: nat)
      requires Valid() && id < |bhs|
      modifies this`bhs, this`trace
      ensures Valid() && View() == After(old(View()), Cancelled(id), old(bhs[id].idle))
      ensures bhs == old(bhs)[id := old(bhs[id]).(scheduled := false)] && trace == old(trace) + [Cancelled(id)]
      ensures Extends(old(View()), View()) && NewRuns(old(View()), View()) && (old(NoIdle()) ==> NoIdle())
    {
      hide Ok, Extends;
      hide NewRuns;
      AfterIsOk(View(), Cancelled(id), bhs[id].idle);
      AfterRunsNothing(View(), Cancelled(id), bhs[id].idle);
      bhs, trace := bhs[id := bhs[id].(scheduled := false)], trace + [Cancelled(id)];
    }

    method BhDelete(id: nat)
      requires Valid() && id < |bhs|
      modifies this`bhs, this`trace
      ensures Valid() && View() == After(old(View()), Deleted(id), old(bhs[id].idle))
      ensures bhs == old(bhs)[id := old(bhs[id]).(scheduled := false, deleted := true)]
      ensures trace == old(trace) + [Deleted(id)]
      ensures Extends(old(View()), View()) && NewRuns(old(View()), View()) && (old(NoIdle()) ==> NoIdle())
    {
      hide Ok, Extends;
      hide NewRuns;
      AfterIsOk(View(), Deleted(id), bhs[id].idle);
      AfterRunsNothing(View(), Deleted(id), bhs[id].idle);
      bhs, trace := bhs[id := bhs[id].(scheduled := false, deleted := true)], trace + [Deleted(id)];
    }

    method Push()
      requires Valid()
      modifies this`stack
      ensures Valid() && View() == Pushed(old(View())) && (old(NoIdle()) ==> NoIdle())
      ensures stack == old(stack) + [Context(|old(stack)|, [])]
    {
      stack := stack + [Context(stack[|stack| - 1].id + 1, [])];
    }

    /** Unlinks the deleted halves of the current context. */
    method Unlink()
      requires Valid()
      modifies this`stack
      ensures Valid() && View() == Unlinked(old(View()))
      ensures forall id :: id in Top(View()) ==> !IsDeleted(bhs, id)
    {
      hide RunsJustified, FlagsMatch, NothingUnknown, Listed, Live;
      var top := stack[|stack| - 1];
      LiveIsListed(bhs, top.list);
      var kept := [];
      LiveOfNone(bhs);
      assert top.list[..0] == [];
      for i := 0 to |top.list|
        invariant kept == Live(bhs, top.list[..i])
        modifies {}
      {
        LiveAppends(bhs, top.list[..i], top.list[i]);
        assert top.list[..i + 1] == top.list[..i] + [top.list[i]];
        if !IsDeleted(bhs, top.list[i]) {
          kept := kept + [top.list[i]];
        }
      }
      assert top.list[..|top.list|] == top.list;
      stack := stack[|stack| - 1 := Context(top.id, kept)];
    }

    /** Runs the callback of a pending half: whatever the script says, after a completion half has deleted
        itself. */
    method RunCallback(id: nat)
      requires Valid() && id < |bhs| && bhs[id].Pending()
      modifies this
      ensures Valid() && Extends(AfterRun(old(View()), id), View()) && NewRuns(AfterRun(old(View()), id), View())
      ensures if old(script) == [] then script == [] else |script| < |old(script)|
      ensures old(script) == [] ==> NothingElse(old(View()), View(), id)
      ensures Performs(if old(script) == [] then [] else old(script[0]), Started(old(View()), id), View())
      ensures forall acts :: acts in script ==> acts in old(script)
      ensures old(NoIdle()) ==> NoIdle()
      decreases |script|, 0, 0
    {
      hide Ok, Extends, Performs;
      AfterIsOk(View(), Ran(id, bhs[id].idle), false);
      bhs, trace := bhs[id := bhs[id].(scheduled := false, idle := false)], trace + [Ran(id, bhs[id].idle)];
      ghost var s := View();
      StackIsThere(s);
      ExtendsSame(s);
      NothingRan(s);
      if bhs[id].completion {
        BhDelete(id);
      }
      if script != [] {
        var acts := script[0];
        assert acts in script;
        assert forall a :: a in script[1..] ==> a in script;
        script := script[1..];
        ghost var t := View();
        Perform(acts);
        ExtendsTwice(s, t, View());
        RunsTwice(s, t, View());
      } else {
        PerformsNothing(View());
      }
    }

    /** Performs the actions of a callback. */
    method Perform(acts: seq<Action>)
      requires Valid()
      modifies this
      ensures Valid() && Extends(old(View()), View()) && NewRuns(old(View()), View()) && |script| <= |old(script)|
      ensures Performs(acts, old(View()), View()) && forall a :: a in script ==> a in old(script)
      ensures old(NoIdle()) && NoIdleActions(acts) ==> NoIdle()
      decreases |script|, 1, Size(acts)
    {
      hide Ok, Extends, NewRuns, RanSince, Left, Rescheduled, OnlyIdleRan, Performs, Does, After, Created;
      StackIsThere(View());
      ExtendsSame(View());
      NothingRan(View());
      if acts == [] {
        PerformsNothing(View());
        return;
      }
      ghost var s := View();
      DoesOne(s, if acts[0].New? || acts[0].Nested? then 0 else acts[0].id);
      match acts[0] {
        case New =>
          var id := BhNew(false);
        case Schedule(id) =>
          if id < |bhs| { BhSchedule(id); }
        case ScheduleIdle(id) =>
          if id < |bhs| { BhScheduleIdle(id); }
        case Cancel(id) =>
          if id < |bhs| { BhCancel(id); }
        case Delete(id) =>
          if id < |bhs| { BhDelete(id); }
        case Nested(body) =>
          Push();
          ghost var t := View();
          Perform(body);
          ghost var u := View();
          SameDepth(t, u);
          ghost var abandoned, from, count := Pop();
          NestedExtends(s, t, u, View());
          NestedRuns(s, t, u, View());
          DoesNested(body, s, u, View());
      }
      ghost var v := View();
      assert Does(acts[0], s, v);
      Perform(acts[1..]);
      PerformsOn(acts, s, v, View());
      ExtendsTwice(s, v, View());
      RunsTwice(s, v, View());
    }

    /** One pass over the halves of the current context, then the deleted ones are unlinked. Returns whether
        one that was not idle ran. */
    method Poll() returns (ret: bool, ghost ran: State, ghost states: seq<State>, ghost did: seq<seq<Action>>)
      requires Valid()
      modifies this
      ensures Valid() && Extends(old(View()), ran) && View() == Unlinked(ran)
      // The halves of the list have their turn, in its order; what a callback does is in the script, or nothing.
      ensures Visits(Top(old(View())), |Top(old(View()))|, states, did, old(script))
      ensures states[0] == old(View()) && states[|states| - 1] == ran
      ensures ret <==> WasBusy(Top(old(View())), states, |Top(old(View()))|)
      ensures |old(trace)| <= |trace| && Rescheduled(View(), Top(old(View())), |old(trace)|)
      ensures Rescheduled(View(), Top(View()), |old(trace)|)
      // Only halves of the list ran, if nothing is reported only idle ones, and halves made by their callbacks.
      ensures RanSince(trace, |old(trace)|, Top(old(View())), !ret, |old(bhs)|)
      ensures forall id :: id in Top(View()) ==> !IsDeleted(bhs, id)
      ensures |script| <= |old(script)| && (old(NoIdle()) ==> NoIdle())
      ensures forall acts :: acts in script ==> acts in old(script)
      ensures ret ==> |script| < |old(script)| || (!Quiet(old(View()), Top(old(View()))) && Quiet(View(), Top(View())))
      ensures !ret && old(NoIdle()) ==> Quiet(View(), Top(View()))
      // With callbacks that do nothing more, exactly the pending halves run, once each and in order.
      ensures old(script) == [] ==> trace == old(trace) + PassTrace(old(bhs), Top(old(View())))
                                    && (ret <==> Busy(old(bhs), Top(old(View()))))
      decreases |script|, 0, 1
    {
      hide Ok, Extends, Rescheduled, RanSince, NewRuns, NothingElse, Quiet, Live, Unlinked, NoneIdle, PassTrace, Busy;
      hide Passing, PassingAlone, AfterRun, Performs, Started, Visit, WasBusy, Visits, PassedBy;
      ghost var s := View();
      states, did := [s], [];
      PassingStarts(s);
      NobodyVisited(Top(s), s, old(script));
      ret := false;
      var left := |stack[|stack| - 1].list|;
      while left > 0
        invariant Valid() && 0 <= left <= |Top(s)| && Passing(s, View(), |Top(s)| - left, ret)
        invariant |script| <= |old(script)| && (old(NoIdle()) ==> NoIdle())
        invariant forall acts :: acts in script ==> acts in old(script)
        invariant PassedBy(Top(s), |Top(s)| - left, s, View(), states, did, old(script), ret)
        invariant ret ==> |script| < |old(script)| || (old(script) == [] && !Quiet(s, Top(s)))
        invariant old(script) == [] ==> script == [] && PassingAlone(s, View(), |Top(s)| - left, ret)
        invariant !ret && old(NoIdle()) ==> View() == s && Quiet(s, Top(s)[..|Top(s)| - left])
      {
        ghost var t, n, ret0 := View(), |Top(s)| - left, ret;
        PassingNext(s, t, left, ret);
        var list := stack[|stack| - 1].list;
        var id := list[|list| - left];
        if bhs[id].Pending() {
          if !bhs[id].idle {
            ret := true;
          } else {
            NotIdle(t, id);
          }
          ghost var acts := if script == [] then [] else script[0];
          RunCallback(id);
          VisitPending(t, id, acts, View());
          PassedByOne(Top(s), n, s, t, states, did, old(script), ret0, acts, View());
          did := did + [acts];
          PassingOn(s, t, View(), n, ret0, id);
          if old(script) == [] {
            AloneOn(s, t, View(), n, ret0, id);
          }
        } else {
          VisitSkips(t, id);
          PassedByOne(Top(s), n, s, t, states, did, old(script), ret0, [], t);
          did := did + [[]];
          PassingOver(s, t, n, ret);
          if old(script) == [] {
            AloneOver(s, t, n, ret);
          }
        }
        states := states + [View()];
        left := left - 1;
      }
      ran := View();
      PassedByAll(Top(s), s, ran, states, did, old(script), ret);
      StackIsThere(ran);
      Unlink();
      PassingEnds(s, ran, View(), ret);
      if old(script) == [] {
        AloneEnds(s, ran, View(), ret);
      }
      if !ret && old(NoIdle()) {
        QuietEnds(s, View());
      }
    }

    /** How long to wait: not at all if a half waits to run, a short time if only idle ones do. */
    method BhUpdateTimeout(timeout: int) returns (t: int)
      requires Valid()
      ensures var top := stack[|stack| - 1].list;
              if exists id :: id in top && bhs[id].Pending() && !bhs[id].idle then t == 0
              else if exists id :: id in top && bhs[id].Pending() then t == Min(10, timeout)
              else t == timeout
    {
      hide RunsJustified, FlagsMatch, NothingUnknown;
      t := timeout;
      var top := stack[|stack| - 1].list;
      for i := 0 to |top|
        invariant forall j :: 0 <= j < i && bhs[top[j]].Pending() ==> bhs[top[j]].idle
        invariant t == if exists j :: 0 <= j < i && bhs[top[j]].Pending() then Min(10, timeout) else timeout
      {
        if bhs[top[i]].Pending() {
          if bhs[top[i]].idle {
            t := Min(10, t);
          } else {
            assert top[i] in top;
            t := 0;
            return;
          }
        }
      }
    }

    /** Passes over the current context until one runs nothing but idle halves: the last one, which begins when
        the trace is `from` and the halves are `count` long. */
    method PollUntilIdle() returns (ghost from: nat, ghost count: nat)
      requires Valid()
      modifies this
      ensures Valid() && stack != [] && Above(old(View()), View()) && |script| <= |old(script)|
      ensures forall acts :: acts in script ==> acts in old(script)
      ensures old(NoIdle()) ==> NoIdle() && Quiet(View(), Top(View()))
      ensures |old(trace)| <= from <= |trace| && Rescheduled(View(), Top(View()), from)
      ensures |old(bhs)| <= count <= |bhs| && OnlyIdleRan(trace, from, count)
      ensures RanSince(trace, |old(trace)|, Top(old(View())), false, |old(bhs)|)
      decreases |script|, 0, 2
    {
      hide Ok, Extends, Above, RanSince, Rescheduled, Quiet, OnlyIdleRan, Live;
      ghost var s := View();
      StackIsThere(s);
      AboveSame(s);
      NoRunYet(s, Top(s));
      AnyRuns(trace, |trace|, Top(s), |bhs|);
      from, count := |trace|, |bhs|;
      var more := true;
      while more
        invariant Valid() && stack != [] && Above(s, View()) && |script| <= |old(script)|
        invariant forall acts :: acts in script ==> acts in old(script)
        invariant |s.bhs| <= |bhs| && RanSince(trace, |s.trace|, Top(s), false, |s.bhs|)
        invariant forall id :: id in Top(View()) ==> id in Top(s) || id >= |s.bhs|
        invariant |s.trace| <= from <= |trace| && |s.bhs| <= count <= |bhs|
        invariant !more ==> Rescheduled(View(), Top(View()), from) && OnlyIdleRan(trace, from, count)
        invariant old(NoIdle()) ==> NoIdle() && (!more ==> Quiet(View(), Top(View())))
        decreases |script|, more, !Quiet(View(), Top(View()))
      {
        ghost var t := View();
        StackIsThere(t);
        ghost var ran, states, did;
        more, ran, states, did := Poll();
        PollIsAbove(s, t, ran);
        StackIsThere(View());
        SameDepth(t, ran);
        TopGrows(t, ran);
        UnlinkedTop(ran);
        RanMore(s.trace, t.trace, trace, Top(s), |s.bhs|, Top(t), !more, |t.bhs|);
        from, count := |t.trace|, |t.bhs|;
      }
    }

    /** Leaves the current context once a pass runs nothing but idle halves, and schedules a half in the
        parent to run queued completions. Without idle halves nothing pending is left behind. With them, what
        is pending in the context left was scheduled during the last pass, in which only idle halves ran
        besides halves made since the call. */
    method Pop() returns (ghost abandoned: seq<nat>, ghost from: nat, ghost count: nat)
      requires Valid() && |stack| >= 2
      modifies this
      ensures Valid() && Left(old(View()), View()) && |script| <= |old(script)|
      ensures forall acts :: acts in script ==> acts in old(script)
      ensures old(NoIdle()) ==> NoIdle() && Quiet(View(), abandoned)
      ensures Top(View())[0] < |bhs| && bhs[Top(View())[0]] == Bh(true, false, false, true)
      ensures OwnHalves(bhs, Top(old(View())), abandoned, |old(bhs)|)
      ensures |old(trace)| <= from <= |trace| && Rescheduled(View(), abandoned, from)
      ensures |old(bhs)| <= count <= |bhs| && OnlyIdleRan(trace, from, count)
      ensures RanSince(trace, |old(trace)|, Top(old(View())), false, |old(bhs)|)
      decreases |script|, 0, 3
    {
      hide Ok, Extends, Above, RanSince, Rescheduled, Quiet, OnlyIdleRan, NewRuns;
      ghost var s := View();
      from, count := PollUntilIdle();
      ghost var t := View();
      SameAbove(s, t);
      abandoned := Top(t);
      TopIsKnown(t);
      StackIsThere(t);
      PoppedIsOk(t);
      stack := stack[..|stack| - 1];
      var id := BhNew(true);
      ghost var u := View();
      BhSchedule(id);
      assert bhs[..|t.bhs|] == t.bhs;
      if Quiet(t, abandoned) {
        QuietStays(t, View(), abandoned);
      }
      LeftBehind(t, View(), abandoned, from);
      ScheduledRunsNothing(t.trace, id, |s.trace|, Top(s), |s.bhs|);
      LeavesParent(s, t, u, View());
    }
  }
}
