/** The buffered stream answer by answer: what each answer of the backend does, and the rate limit. */
module BufferedRate {
  import opened Errno
  import opened Sectors
  import opened BufferedFile

  function Sum(ns: seq<nat>): nat {
    if ns == [] then 0 else Sum(ns[..|ns| - 1]) + ns[|ns| - 1]
  }

  lemma {:induction false} SumFront(n: nat, ns: seq<nat>)
    ensures Sum([n] + ns) == n + Sum(ns)
  {
    if ns == [] {
      assert [n] + ns == [n] && [n][..0] == [];
    } else {
      assert ([n] + ns)[..|ns|] == [n] + ns[..|ns| - 1];
      SumFront(n, ns[..|ns| - 1]);
    }
  }

  // ---------------------------------------------------------------- offers and their answers

  /** The answer is positive and takes as many bytes as it says, or all that are left. */
  ghost predicate Takes(answer: int, left: int, n: nat) {
    answer > 0 && left > 0 && n == if answer <= left then answer else left
  }

  /** `size` bytes are offered again and again, each time what is left of them, and taken by the first answers. */
  ghost predicate Taken(answers: seq<int>, size: nat, ns: seq<nat>) {
    |ns| <= |answers| && Sum(ns) <= size &&
    forall k :: 0 <= k < |ns| ==> Takes(answers[k], size - Sum(ns[..k]), ns[k])
  }

  lemma NoneTaken(answers: seq<int>, size: nat)
    ensures Taken(answers, size, []) && Sum([]) == 0
  {
  }

  lemma TakenSize(answers: seq<int>, size: nat, ns: seq<nat>)
    requires Taken(answers, size, ns)
    ensures |ns| <= |answers| && Sum(ns) <= size
  {
  }

  /** One offer, and then the others. */
  lemma TakenFirst(answers: seq<int>, size: nat, n: nat, ns: seq<nat>)
    requires answers != [] && Takes(answers[0], size, n) && Taken(answers[1..], size - n, ns)
    ensures Taken(answers, size, [n] + ns) && Sum([n] + ns) == n + Sum(ns)
  {
    hide Sum, Takes;
    var all := [n] + ns;
    SumFront(n, ns);
    assert Sum(ns) <= size - n;
    assert Sum(all[..0]) == 0 by { NoneTaken([], 0); assert all[..0] == []; }
    forall k | 0 < k < |all|
      ensures Takes(answers[k], size - Sum(all[..k]), all[k])
    {
      TakenLater(answers, size, n, ns, k);
    }
  }

  lemma TakenLater(answers: seq<int>, size: nat, n: nat, ns: seq<nat>, k: nat)
    requires answers != [] && n <= size && Taken(answers[1..], size - n, ns) && 0 < k <= |ns|
    ensures Takes(answers[k], size - Sum(([n] + ns)[..k]), ([n] + ns)[k])
  {
    hide Sum, Takes;
    SumFront(n, ns[..k - 1]);
    assert ([n] + ns)[..k] == [n] + ns[..k - 1];
    assert Takes(answers[1..][k - 1], size - n - Sum(ns[..k - 1]), ns[k - 1]);
  }

  lemma Cut(data: seq<Byte>, n: nat, m: nat)
    requires n + m <= |data|
    ensures data[n..][m..] == data[n + m..] && data[..n] + data[n..][..m] == data[..n + m]
  {
  }

  /** The flush of `f` ends in `g`: the answers `ns` took the pending bytes from the front, until none was left,
      one said busy, or one failed or was missing. */
  ghost predicate FlushedBy(f: File, g: File, ns: seq<nat>) {
    var m := Sum(ns);
    && Taken(f.answers, |f.pending|, ns)
    && g.accepted == f.accepted + f.pending[..m] && g.pending == f.pending[m..]
    && g.xfer == f.xfer && g.limit == f.limit
    && if m == |f.pending| then !g.hasError && g.freeze == f.freeze && g.answers == f.answers[|ns|..]
       else if |ns| == |f.answers| then g.hasError && g.freeze == f.freeze && g.answers == []
       else
         && f.answers[|ns|] <= 0 && g.answers == f.answers[|ns| + 1..]
         && g.hasError == (f.answers[|ns|] != -EAGAIN)
         && g.freeze == (f.freeze || f.answers[|ns|] == -EAGAIN)
  }

  /** What a flush does, for every state without an error. */
  lemma {:induction false} FlushByAnswers(f: File) returns (ns: seq<nat>)
    requires !f.hasError
    ensures FlushedBy(f, Flush(f), ns)
    decreases |f.pending|
  {
    hide Flush, FlushedBy;
    ns := [];
    if f.pending == [] {
      FlushEnds(f);
      FlushedNone(f, f);
    } else {
      FlushStep(f);
      if f.answers != [] && f.answers[0] > 0 {
        var n := Min(f.answers[0], |f.pending|);
        var g := f.(accepted := f.accepted + f.pending[..n], pending := f.pending[n..], answers := f.answers[1..]);
        var rest := FlushByAnswers(g);
        FlushedFirst(f, n, Flush(f), rest);
        ns := [n] + rest;
      } else {
        FlushedNone(f, Flush(f));
      }
    }
  }

  lemma FlushedNone(f: File, g: File)
    requires f.pending == [] ==> g == f && !f.hasError
    requires f.pending != [] && f.answers == [] ==> g == f.(hasError := true, answers := [])
    requires f.pending != [] && f.answers != [] ==>
               && f.answers[0] <= 0
               && g == if f.answers[0] == -EAGAIN then f.(freeze := true, answers := f.answers[1..])
                       else f.(hasError := true, answers := f.answers[1..])
    requires !f.hasError
    ensures FlushedBy(f, g, [])
  {
    hide Taken;
    NoneTaken(f.answers, |f.pending|);
    assert f.accepted + f.pending[..0] == f.accepted;
  }

  lemma FlushedFirst(f: File, n: nat, g: File, ns: seq<nat>)
    requires f.answers != [] && Takes(f.answers[0], |f.pending|, n)
    requires var h := f.(accepted := f.accepted + f.pending[..n], pending := f.pending[n..], answers := f.answers[1..]);
             FlushedBy(h, g, ns)
    ensures FlushedBy(f, g, [n] + ns)
  {
    hide Taken, Sum;
    TakenFirst(f.answers, |f.pending|, n, ns);
    TakenSize(f.answers[1..], |f.pending| - n, ns);
    Cut(f.pending, n, Sum(ns));
    var all := [n] + ns;
    assert g.accepted == f.accepted + f.pending[..Sum(all)];
    assert |all| <= |f.answers| && f.answers[1..][|ns|..] == f.answers[|all|..];
    if |all| < |f.answers| {
      assert f.answers[1..][|ns|] == f.answers[|all|];
      assert f.answers[1..][|ns| + 1..] == f.answers[|all| + 1..];
    }
  }

  /** No offer is made once more than the limit has been handed over. */
  ghost predicate Within(xfer: nat, limit: nat, ns: seq<nat>) {
    forall k :: 0 <= k < |ns| ==> xfer + Sum(ns[..k]) <= limit
  }

  lemma WithinFirst(xfer: nat, limit: nat, n: nat, ns: seq<nat>)
    requires xfer <= limit && Within(xfer + n, limit, ns)
    ensures Within(xfer, limit, [n] + ns)
  {
    hide Sum;
    var all := [n] + ns;
    forall k | 0 <= k < |all|
      ensures xfer + Sum(all[..k]) <= limit
    {
      if k == 0 {
        NoneTaken([], 0);
        assert all[..0] == [];
      } else {
        assert all[..k] == [n] + ns[..k - 1];
        SumFront(n, ns[..k - 1]);
      }
    }
  }

  /** Offering `data` directly in `f` ends in `g`: the answers take it as in a flush, but nothing is offered while
      the stream is frozen or once more than the limit has been handed over; what is left is appended to the
      pending bytes, unless the backend fails. */
  ghost predicate OfferedBy(f: File, data: seq<Byte>, g: File, fails: bool, ns: seq<nat>) {
    var m := Sum(ns);
    && Taken(f.answers, |data|, ns) && (f.freeze ==> ns == [])
    && Within(f.xfer, f.limit, ns)
    && g.accepted == f.accepted + data[..m] && g.xfer == f.xfer + m && g.limit == f.limit
    && if f.freeze || m == |data| || f.xfer + m > f.limit then
         && g.pending == f.pending + data[m..] && g.answers == f.answers[|ns|..]
         && g.hasError == f.hasError && g.freeze == f.freeze && !fails
       else if |ns| == |f.answers| then
         g.pending == f.pending && g.answers == [] && g.hasError && g.freeze == f.freeze && fails
       else
         && f.answers[|ns|] <= 0 && g.answers == f.answers[|ns| + 1..]
         && if f.answers[|ns|] == -EAGAIN then
              g.pending == f.pending + data[m..] && g.hasError == f.hasError && g.freeze && !fails
            else g.pending == f.pending && g.hasError && g.freeze == f.freeze && fails
  }

  /** What direct offers do, for every state and all data. */
  lemma {:induction false} DirectByAnswers(f: File, data: seq<Byte>) returns (ns: seq<nat>)
    ensures OfferedBy(f, data, Direct(f, data), DirectFails(f, data), ns)
    decreases |data|
  {
    hide Direct, DirectFails, OfferedBy;
    ns := [];
    if f.freeze || data == [] || f.xfer > f.limit {
      DirectEnds(f, data);
      OfferedNone(f, data, Direct(f, data), DirectFails(f, data));
    } else {
      DirectStep(f, data);
      if f.answers != [] && f.answers[0] > 0 {
        var n := Min(f.answers[0], |data|);
        var g := f.(accepted := f.accepted + data[..n], xfer := f.xfer + n, answers := f.answers[1..]);
        var rest := DirectByAnswers(g, data[n..]);
        OfferedFirst(f, data, n, Direct(f, data), DirectFails(f, data), rest);
        ns := [n] + rest;
      } else {
        OfferedNone(f, data, Direct(f, data), DirectFails(f, data));
      }
    }
  }

  lemma OfferedNone(f: File, data: seq<Byte>, g: File, fails: bool)
    requires f.freeze || data == [] || f.xfer > f.limit ==> g == f.(pending := f.pending + data) && !fails
    requires !(f.freeze || data == [] || f.xfer > f.limit) ==>
               if f.answers == [] then g == f.(hasError := true, answers := []) && fails
               else
                 && f.answers[0] <= 0
                 && if f.answers[0] == -EAGAIN then
                      g == f.(freeze := true, answers := f.answers[1..], pending := f.pending + data) && !fails
                    else g == f.(hasError := true, answers := f.answers[1..]) && fails
    ensures OfferedBy(f, data, g, fails, [])
  {
    hide Taken;
    NoneTaken(f.answers, |data|);
    assert f.accepted + data[..0] == f.accepted && data[0..] == data;
  }

  lemma OfferedFirst(f: File, data: seq<Byte>, n: nat, g: File, fails: bool, ns: seq<nat>)
    requires f.answers != [] && Takes(f.answers[0], |data|, n) && !f.freeze && f.xfer <= f.limit
    requires var h := f.(accepted := f.accepted + data[..n], xfer := f.xfer + n, answers := f.answers[1..]);
             OfferedBy(h, data[n..], g, fails, ns)
    ensures OfferedBy(f, data, g, fails, [n] + ns)
  {
    hide Taken, Sum, Within;
    WithinFirst(f.xfer, f.limit, n, ns);
    TakenFirst(f.answers, |data|, n, ns);
    TakenSize(f.answers[1..], |data| - n, ns);
    Cut(data, n, Sum(ns));
    var all := [n] + ns;
    assert g.accepted == f.accepted + data[..Sum(all)];
    assert |all| <= |f.answers| && f.answers[1..][|ns|..] == f.answers[|all|..];
    if |all| < |f.answers| {
      assert f.answers[1..][|ns|] == f.answers[|all|];
      assert f.answers[1..][|ns| + 1..] == f.answers[|all| + 1..];
    }
  }

  /** A put: the stream is unfrozen and flushed, then the data is offered. After an error nothing is done. */
  lemma PutIs(f: File, data: seq<Byte>)
    ensures f.hasError ==> Put(f, data) == f && PutResult(f, data) == -EINVAL
    ensures !f.hasError ==>
              var g := Flush(f.(freeze := false));
              Put(f, data) == Direct(g, data) && PutResult(f, data) == if DirectFails(g, data) then -EINVAL else |data|
  {
  }

  /** Closing fails only when the backend does: its last answer was a failure, or it had no more. */
  lemma {:induction false} CloseFailsWithBackend(f: File)
    requires !f.hasError && Close(f).hasError
    ensures |Close(f).answers| <= |f.answers| && f.answers[|f.answers| - |Close(f).answers|..] == Close(f).answers
    ensures Close(f).answers == [] ||
            (var last := |f.answers| - |Close(f).answers| - 1;
             0 <= last && f.answers[last] <= 0 && f.answers[last] != -EAGAIN)
    decreases |f.answers|
  {
    hide Flush, Taken;
    var ns := FlushByAnswers(f);
    TakenSize(f.answers, |f.pending|, ns);
    var g := Flush(f);
    CloseStep(f);
    if !g.hasError && g.pending != [] {
      FlushUsesAnswer(f);
      CloseFailsWithBackend(g);
      assert f.answers[|f.answers| - |g.answers|..] == g.answers;
    }
  }

  lemma CloseStep(f: File)
    requires !f.hasError
    ensures f.pending == [] ==> Close(f) == f
    ensures f.pending != [] ==> Close(f) == Close(Flush(f))
    ensures Flush(f).hasError || Flush(f).pending == [] ==> Close(Flush(f)) == Flush(f)
  {
  }

  // ---------------------------------------------------------------- the rate limit

  /** What a put hands to the backend directly, by what the backend has accepted more than the flush gave it. */
  function DirectBytes(f: File, data: seq<Byte>): int {
    var g := Put(f, data);
    if f.hasError then 0 else
    |g.accepted| - |f.accepted| - (|f.pending| - |Flush(f.(freeze := false)).pending|)
  }

  /** Bytes handed over directly since the last tick that was neither frozen nor in error. */
  function Since(f: File, ops: seq<Op>): int {
    if ops == [] then f.xfer else
    var before, op := ops[..|ops| - 1], ops[|ops| - 1];
    var g := Run(f, before);
    match op
    case TimerTick => if g.hasError || g.freeze then Since(f, before) else 0
    case PutData(data) => Since(f, before) + DirectBytes(g, data)
    case NewRate(_) => Since(f, before)
  }

  lemma PutCounts(f: File, data: seq<Byte>) returns (last: nat)
    ensures Put(f, data).xfer == f.xfer + DirectBytes(f, data) && DirectBytes(f, data) >= 0
    ensures last <= DirectBytes(f, data)
    ensures DirectBytes(f, data) > 0 ==> f.xfer + DirectBytes(f, data) - last <= f.limit
    ensures Put(f, data).limit == f.limit
    // Without an error it stops for a reason: all is handed over, the backend is busy, or the limit is exceeded.
    ensures !Put(f, data).hasError ==>
              var g := Put(f, data); g.pending == [] || g.freeze || g.xfer > g.limit
  {
    hide Flush, Direct, DirectFails, Taken;
    last := 0;
    PutIs(f, data);
    if !f.hasError {
      var g := Flush(f.(freeze := false));
      var ms := FlushByAnswers(f.(freeze := false));
      TakenSize(f.answers, |f.pending|, ms);
      var ns := DirectByAnswers(g, data);
      TakenSize(g.answers, |data|, ns);
      if ns != [] {
        last := ns[|ns| - 1];
      }
      FlushKeepsStream(f.(freeze := false));
      if g.hasError {
        DirectKeepsError(g, data);
      }
    }
  }

  /** The count of the rate limit is, in every run, what was handed over directly since the last effective
      tick. */
  lemma {:induction false} XferIsSince(f: File, ops: seq<Op>)
    ensures Run(f, ops).xfer == Since(f, ops)
  {
    hide Flush, Put;
    if ops != [] {
      var before, op := ops[..|ops| - 1], ops[|ops| - 1];
      XferIsSince(f, before);
      var g := Run(f, before);
      match op
      case PutData(data) => var last := PutCounts(g, data);
      case TimerTick => TickIs(g);
      case NewRate(_) =>
    }
  }

  /** A tick that is neither frozen nor in error begins a period: nothing counts as sent, the pending bytes are
      flushed, and the stream is limited only if the flush froze it. Any other tick does nothing. */
  lemma TickIs(f: File)
    ensures f.hasError || f.freeze ==> Tick(f) == f
    ensures !f.hasError && !f.freeze ==>
              var g := Tick(f);
              && g.xfer == 0 && g == Flush(f).(xfer := 0)
              && ((!g.hasError && (g.freeze || g.xfer > g.limit)) <==> g.freeze && !g.hasError)
  {
    hide Flush, Taken;
    if !f.hasError && !f.freeze {
      var ns := FlushByAnswers(f.(xfer := 0));
      FlushIgnoresCount(f);
    }
  }

  lemma {:induction false} FlushIgnoresCount(f: File)
    ensures Flush(f.(xfer := 0)) == Flush(f).(xfer := 0)
    decreases |f.pending|
  {
    if !f.hasError && f.pending != [] {
      match Offer(f.answers, |f.pending|)
      case Busy =>
      case Failed =>
      case Took(n) =>
        FlushIgnoresCount(f.(accepted := f.accepted + f.pending[..n], pending := f.pending[n..],
                             answers := Rest(f.answers)));
    }
  }

  /** In every run at one rate, begun within the limit, all that was handed over since the last effective tick
      but for the last offer is within the limit. */
  lemma {:induction false} RunWithinLimit(f: File, ops: seq<Op>) returns (last: nat)
    requires f.xfer <= f.limit && forall op :: op in ops ==> !op.NewRate?
    ensures var g := Run(f, ops); g.limit == f.limit && last <= g.xfer && g.xfer - last <= f.limit
  {
    hide Flush, Put;
    last := 0;
    if ops != [] {
      var before, op := ops[..|ops| - 1], ops[|ops| - 1];
      assert op in ops;
      last := RunWithinLimit(f, before);
      var g := Run(f, before);
      match op
      case PutData(data) =>
        var n := PutCounts(g, data);
        if DirectBytes(g, data) > 0 {
          last := n;
        }
      case TimerTick =>
        TickIs(g);
        TickKeepsLimit(g);
        if !g.hasError && !g.freeze {
          last := 0;
        }
    }
  }

  lemma TickKeepsLimit(f: File)
    ensures Tick(f).limit == f.limit
  {
    if !f.hasError && !f.freeze {
      var ns := FlushByAnswers(f.(xfer := 0));
    }
  }

  /** Ten periods make a second: the limit of a period is a tenth of the rate, rounded down. */
  lemma RateIsTenPeriods(f: File, rate: nat)
    ensures f.hasError ==> SetRateLimit(f, rate) == f
    ensures !f.hasError ==>
              var g := SetRateLimit(f, rate);
              g == f.(limit := g.limit) && 10 * g.limit <= rate < 10 * (g.limit + 1)
  {
  }
}
