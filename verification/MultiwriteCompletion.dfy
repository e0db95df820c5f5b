/** Completion of a multiwrite (multiwrite_cb, bdrv_aio_multiwrite): one control block counts the merged
    requests and runs the original callbacks. */
module MultiwriteCompletion {
  import opened Errno

  /** One run of callback number `index`. */
  datatype Call = Call(index: nat, status: int)

  /** What happens to a control block: a request is counted, or one completes. */
  datatype Event = Counted | Completed(ret: int)

  /** The control block, the callbacks run so far, and how often it was freed. */
  datatype Mcb = Mcb(error: int, numRequests: int, calls: seq<Call>, frees: nat)

  /** Every callback once, in order. */
  function Calls(n: nat, status: int): (c: seq<Call>)
    ensures |c| == n && forall i :: 0 <= i < n ==> c[i] == Call(i, status)
  {
    seq(n, i requires 0 <= i => Call(i, status))
  }

  function Complete(m: Mcb, n: nat, ret: int): Mcb {
    var failed := ret < 0 && m.error == 0;
    var error := if failed then ret else m.error;
    var calls := if failed then m.calls + Calls(n, ret) else m.calls;
    if m.numRequests - 1 == 0 then
      Mcb(error, 0, if error == 0 then calls + Calls(n, 0) else calls, m.frees + 1)
    else
      Mcb(error, m.numRequests - 1, calls, m.frees)
  }

  function React(m: Mcb, n: nat, e: Event): Mcb {
    match e
    case Counted => m.(numRequests := m.numRequests + 1)
    case Completed(ret) => Complete(m, n, ret)
  }

  /** The control block of `n` callbacks after a history. */
  function After(n: nat, h: seq<Event>): Mcb {
    if h == [] then Mcb(0, 0, [], 0) else React(After(n, h[..|h| - 1]), n, h[|h| - 1])
  }

  /** Requests counted minus requests completed. */
  function Balance(h: seq<Event>): int {
    if h == [] then 0
    else Balance(h[..|h| - 1]) + if h[|h| - 1].Counted? then 1 else -1
  }

  predicate Fails(e: Event) {
    e.Completed? && e.ret < 0
  }

  function FirstError(h: seq<Event>): int {
    if h == [] then 0
    else if Fails(h[0]) then h[0].ret
    else FirstError(h[1..])
  }

  /** `FirstError` is the result of the first failed completion, 0 when there is none. */
  lemma {:induction false} FirstErrorIsFirst(h: seq<Event>)
    ensures FirstError(h) == 0 <==> forall i :: 0 <= i < |h| ==> !Fails(h[i])
    ensures FirstError(h) != 0 ==>
            exists i :: 0 <= i < |h| && h[i] == Completed(FirstError(h)) && forall j :: 0 <= j < i ==> !Fails(h[j])
  {
    if h != [] {
      FirstErrorIsFirst(h[1..]);
      if Fails(h[0]) {
        assert h[0] == Completed(FirstError(h));
      } else {
        assert forall i :: 0 < i < |h| ==> h[i] == h[1..][i - 1];
        if FirstError(h) != 0 {
          var i :|
            && 0 <= i < |h[1..]| && h[1..][i] == Completed(FirstError(h))
            && forall j :: 0 <= j < i ==> !Fails(h[1..][j]);
          assert h[i + 1] == Completed(FirstError(h)) && forall j :: 0 <= j < i + 1 ==> !Fails(h[j]);
        }
      }
    }
  }

  lemma {:induction false} FirstErrorGrows(h: seq<Event>, e: Event)
    ensures FirstError(h + [e]) == if FirstError(h) != 0 then FirstError(h) else if Fails(e) then e.ret else 0
  {
    if h == [] {
      assert h + [e] == [e] && [e][1..] == [];
    } else {
      assert (h + [e])[1..] == h[1..] + [e];
      FirstErrorGrows(h[1..], e);
    }
  }

  function Unfreed(n: nat, error: int, count: int): Mcb {
    Mcb(error, count, if error == 0 then [] else Calls(n, error), 0)
  }

  lemma ReactUnfreed(n: nat, error: int, count: int, e: Event)
    requires React(Unfreed(n, error, count), n, e).frees == 0
    ensures React(Unfreed(n, error, count), n, e) ==
            Unfreed(n, if error == 0 && Fails(e) then e.ret else error, if e.Counted? then count + 1 else count - 1)
  {
    hide Calls;
    if error == 0 && Fails(e) {
      assert [] + Calls(n, e.ret) == Calls(n, e.ret);
    }
  }

  lemma FreesGrow(m: Mcb, n: nat, e: Event)
    ensures m.frees <= React(m, n, e).frees
  {
  }

  /** Until it is freed, the block counts the balance, holds the first error, and has run the callbacks
      exactly when there is one: each once, in order, with that error. */
  lemma BeforeFreed(n: nat, h: seq<Event>)
    requires After(n, h).frees == 0
    ensures var m := After(n, h);
            && m.error == FirstError(h) && m.numRequests == Balance(h)
            && (FirstError(h) == 0 ==> m.calls == [])
            && (FirstError(h) != 0 ==>
                  |m.calls| == n && forall i :: 0 <= i < n ==> m.calls[i] == Call(i, FirstError(h)))
  {
    IsUnfreed(n, h);
  }

  lemma {:induction false} IsUnfreed(n: nat, h: seq<Event>)
    requires After(n, h).frees == 0
    ensures After(n, h) == Unfreed(n, FirstError(h), Balance(h))
  {
    if h != [] {
      hide FirstError, Complete, Unfreed;
      var k := |h| - 1;
      assert h == h[..k] + [h[k]];
      FirstErrorGrows(h[..k], h[k]);
      FreesGrow(After(n, h[..k]), n, h[k]);
      IsUnfreed(n, h[..k]);
      ReactUnfreed(n, FirstError(h[..k]), Balance(h[..k]), h[k]);
    }
  }

  // ---------------------------------------------------------------- proper histories

  /** The block is freed once, by the last event, and every callback has run exactly once, all with the
      first error or with 0 when there was none. */
  ghost predicate Proper(n: nat, h: seq<Event>) {
    && (forall k :: 0 <= k < |h| ==> After(n, h[..k]).frees == 0)
    && After(n, h).frees == 1
    && After(n, h).calls == Calls(n, FirstError(h))
  }

  /** A completion brings the count to zero exactly when it is the last event. */
  ghost predicate CountHolds(h: seq<Event>) {
    && h != [] && h[|h| - 1].Completed?
    && forall k :: 0 < k < |h| && h[k - 1].Completed? ==> Balance(h[..k]) != 0
  }

  lemma {:induction false} NotFreedWhileCountHolds(n: nat, h: seq<Event>, k: nat)
    requires k < |h| && forall i :: 0 < i < |h| && h[i - 1].Completed? ==> Balance(h[..i]) != 0
    ensures After(n, h[..k]).frees == 0
  {
    if k > 0 {
      NotFreedWhileCountHolds(n, h, k - 1);
      assert h[..k][..k - 1] == h[..k - 1];
      IsUnfreed(n, h[..k - 1]);
    }
  }

  /** The completion that brings the count to zero runs what callbacks have not run and frees the block. */
  lemma LastCompletion(n: nat, error: int, ret: int)
    ensures var final := if error == 0 && ret < 0 then ret else error;
            React(Unfreed(n, error, 1), n, Completed(ret)) == Mcb(final, 0, Calls(n, final), 1)
  {
    hide Calls;
    assert forall e :: [] + Calls(n, e) == Calls(n, e);
  }

  lemma ProperWhenCountHolds(n: nat, h: seq<Event>)
    requires Balance(h) == 0 && CountHolds(h)
    ensures Proper(n, h)
  {
    hide FirstError, Complete, Unfreed;
    var last := |h| - 1;
    assert h == h[..last] + [h[last]];
    forall k | 0 <= k < |h| ensures After(n, h[..k]).frees == 0 {
      NotFreedWhileCountHolds(n, h, k);
    }
    IsUnfreed(n, h[..last]);
    FirstErrorGrows(h[..last], h[last]);
    LastCompletion(n, FirstError(h[..last]), h[last].ret);
  }

  lemma CountHoldsWhenProper(n: nat, h: seq<Event>)
    requires Balance(h) == 0 && Proper(n, h)
    ensures CountHolds(h)
  {
    hide FirstError, Complete;
    var last := |h| - 1;
    assert h != [] by {
      assert After(n, []).frees == 0;
    }
    assert After(n, h[..last]).frees == 0 && After(n, h) == React(After(n, h[..last]), n, h[last]);
    forall k | 0 < k < |h| && h[k - 1].Completed? ensures Balance(h[..k]) != 0 {
      IsUnfreed(n, h[..k - 1]);
      assert h[..k][..k - 1] == h[..k - 1];
      assert After(n, h[..k]).frees == 0;
      FreesAtZero(After(n, h[..k - 1]), n, h[k - 1].ret);
    }
  }

  lemma FreesAtZero(m: Mcb, n: nat, ret: int)
    ensures Complete(m, n, ret).frees == if m.numRequests == 1 then m.frees + 1 else m.frees
  {
  }

  /** In any order of counting and completing, when every counted request has completed, the protocol ran
      properly exactly when the count did not reach zero before the end. */
  lemma ProperIff(n: nat, h: seq<Event>)
    requires Balance(h) == 0
    ensures Proper(n, h) <==> CountHolds(h)
  {
    hide *;
    if CountHolds(h) {
      ProperWhenCountHolds(n, h);
    }
    if Proper(n, h) {
      CountHoldsWhenProper(n, h);
    }
  }

  /** All requests are counted before the first one completes. */
  ghost predicate CountedFirst(h: seq<Event>) {
    forall i, j :: 0 <= i < j < |h| && h[j].Counted? ==> h[i].Counted?
  }

  lemma {:induction false} BalanceOfSuffix(h: seq<Event>, k: nat)
    requires k <= |h| && forall i :: k <= i < |h| ==> h[i].Completed?
    ensures Balance(h[..k]) == Balance(h) + (|h| - k)
    decreases |h| - k
  {
    if k < |h| {
      assert h[..k + 1][..k] == h[..k];
      BalanceOfSuffix(h, k + 1);
    } else {
      assert h[..k] == h;
    }
  }

  /** When the submission loop ends before any completion, every order of completions is proper. */
  lemma EveryOrderIsProper(n: nat, h: seq<Event>)
    requires h != [] && Balance(h) == 0 && CountedFirst(h)
    ensures Proper(n, h)
  {
    var last := |h| - 1;
    if h[last].Counted? {
      AllCounted(h);
    }
    forall k | 0 < k < |h| && h[k - 1].Completed? ensures Balance(h[..k]) != 0 {
      BalanceOfSuffix(h, k);
    }
    ProperIff(n, h);
  }

  lemma {:induction false} AllCounted(h: seq<Event>)
    requires h != [] ==> h[|h| - 1].Counted? && CountedFirst(h)
    ensures Balance(h) == |h|
  {
    if h != [] {
      AllCounted(h[..|h| - 1]);
    }
  }

  /** A completion between two submissions frees the block while it is still in use. */
  lemma CompletionDuringSubmission(n: nat)
    ensures var h := [Counted, Completed(0), Counted, Completed(0)];
            Balance(h) == 0 && !Proper(n, h) && After(n, h[..2]).frees == 1 && After(n, h).frees == 2
  {
    var h := [Counted, Completed(0), Counted, Completed(0)];
    assert h[..3] == [Counted, Completed(0), Counted] && h[..3][..2] == [Counted, Completed(0)] == h[..2];
    assert h[..2][..1] == [Counted] && [Counted][..0] == [];
    assert After(n, [Counted]) == Mcb(0, 1, [], 0);
    assert After(n, h[..2]).frees == 1;
    assert After(n, h[..3]) == React(After(n, h[..2]), n, Counted);
    assert Balance([Counted]) == 1 && Balance(h[..2]) == 0 && Balance(h[..3]) == 1;
  }

  // ---------------------------------------------------------------- the code

  /** What the submission loop does to the block, given which requests the driver accepts. */
  function Submitted(accepted: seq<bool>): seq<Event> {
    if accepted == [] then []
    else if accepted[0] then [Counted] + Submitted(accepted[1..])
    else [Counted, Completed(-EIO)]
  }

  /** The history of a submission: the requests before the first that is refused are counted; that one is counted too
      and completes at once with -EIO, and none is submitted after it. */
  lemma {:induction false} SubmittedIs(accepted: seq<bool>) returns (k: nat)
    ensures k <= |accepted| && (forall i :: 0 <= i < k ==> accepted[i]) && (k < |accepted| ==> !accepted[k])
    ensures Submitted(accepted) ==
            seq(k, _ => Counted) + if k < |accepted| then [Counted, Completed(-5)] else []
  {
    if accepted == [] || !accepted[0] {
      k := 0;
      assert seq(0, _ => Counted) + [Counted, Completed(-5)] == [Counted, Completed(-5)];
    } else {
      var j := SubmittedIs(accepted[1..]);
      k := j + 1;
      assert [Counted] + seq(j, _ => Counted) == seq(k, _ => Counted);
      assert forall i :: 0 < i < k ==> accepted[i] == accepted[1..][i - 1];
      assert k < |accepted| ==> accepted[k] == accepted[1..][j];
      var end := if k < |accepted| then [Counted, Completed(-5)] else [];
      assert [Counted] + (seq(j, _ => Counted) + end) == seq(k, _ => Counted) + end;
    }
  }

  lemma SubmittedStep(accepted: seq<bool>, i: nat)
    requires i < |accepted|
    ensures Submitted(accepted[i..]) ==
            if accepted[i] then [Counted] + Submitted(accepted[i + 1..]) else [Counted, Completed(-EIO)]
  {
    assert accepted[i..][0] == accepted[i] && accepted[i..][1..] == accepted[i + 1..];
  }

  lemma SubmittedNone(accepted: seq<bool>)
    ensures Submitted(accepted[|accepted|..]) == []
  {
  }

  lemma NothingYet(n: nat, accepted: seq<bool>)
    ensures After(n, []) == Mcb(0, 0, [], 0) && Submitted(accepted) == [] + Submitted(accepted[0..])
  {
    assert accepted[0..] == accepted;
  }

  class MultiwriteCB {
    var error: int
    var numRequests: int
    const numCallbacks: nat
    var calls: seq<Call>
    var frees: nat

    function View(): Mcb
      reads this
    {
      Mcb(error, numRequests, calls, frees)
    }

    constructor (n: nat)
      ensures numCallbacks == n && View() == After(n, [])
    {
      error, numRequests, numCallbacks, calls, frees := 0, 0, n, [], 0;
    }

    /** Runs the original callbacks. */
    method UserCb()
      modifies this`calls
      ensures calls == old(calls) + Calls(numCallbacks, error)
    {
      for i := 0 to numCallbacks
        invariant calls == old(calls) + Calls(numCallbacks, error)[..i]
      {
        calls := calls + [Call(i, error)];
      }
    }

    /** One of the requests has completed; the block must not have been freed. */
    method Cb(ret: int)
      requires frees == 0
      modifies this
      ensures View() == Complete(old(View()), numCallbacks, ret)
      // The first error is kept and reported at once; otherwise the last completion reports success.
      ensures error == if old(error) == 0 && ret < 0 then ret else old(error)
      ensures numRequests == old(numRequests) - 1 && frees == old(frees) + if numRequests == 0 then 1 else 0
      ensures calls == old(calls) + if (old(error) == 0 && ret < 0) || (error == 0 && numRequests == 0)
                                    then Calls(numCallbacks, error) else []
    {
      if ret < 0 && error == 0 {
        error := ret;
        UserCb();
      }
      numRequests := numRequests - 1;
      if numRequests == 0 {
        if error == 0 {
          UserCb();
        }
        frees := frees + 1;
      }
    }

    /** Submits the merged requests; `accepted` says which ones the driver takes. */
    method Submit(accepted: seq<bool>) returns (result: int, reqError: int)
      requires View() == After(numCallbacks, [])
      modifies this
      ensures result == if accepted != [] && !accepted[0] then -1 else 0
      ensures result == -1 ==> View() == Mcb(0, 0, [], 1) && reqError == -EIO
      ensures result == 0 ==> View() == After(numCallbacks, Submitted(accepted)) && reqError == 0
      // The count is that of the requests the driver took; if it refused one, every callback has run with -EIO.
      ensures result == 0 ==>
                frees == 0 && 0 <= numRequests <= |accepted| && forall i :: 0 <= i < numRequests ==> accepted[i]
      ensures result == 0 && numRequests == |accepted| ==> error == 0 && calls == []
      ensures result == 0 && numRequests < |accepted| ==>
                && !accepted[numRequests] && error == -5 && |calls| == numCallbacks
                && forall i :: 0 <= i < numCallbacks ==> calls[i] == Call(i, -5)
    {
      hide After, Submitted;
      reqError := 0;
      ghost var h: seq<Event> := [];
      NothingYet(numCallbacks, accepted);
      for i := 0 to |accepted|
        invariant numRequests == i && error == 0 && calls == [] && frees == 0
        invariant View() == After(numCallbacks, h) && Submitted(accepted) == h + Submitted(accepted[i..])
        invariant forall j :: 0 <= j < i ==> accepted[j]
      {
        SubmittedStep(accepted, i);
        if !accepted[i] {
          if numRequests == 0 {
            reqError := -EIO;
            frees := frees + 1;
            return -1, reqError;
          }
          Extended(numCallbacks, h, Counted);
          Extended(numCallbacks, h + [Counted], Completed(-EIO));
          assert Submitted(accepted) == h + [Counted] + [Completed(-EIO)];
          numRequests := numRequests + 1;
          Cb(-EIO);
          return 0, reqError;
        }
        Extended(numCallbacks, h, Counted);
        assert Submitted(accepted) == h + [Counted] + Submitted(accepted[i + 1..]);
        h := h + [Counted];
        numRequests := numRequests + 1;
      }
      SubmittedNone(accepted);
      assert h + [] == h;
      result := 0;
    }
  }

  lemma Extended(n: nat, h: seq<Event>, e: Event)
    ensures After(n, h + [e]) == React(After(n, h), n, e)
  {
    assert (h + [e])[..|h|] == h;
  }

  /** After a submission that returned 0, any order of the outstanding completions, with any results, runs
      every callback exactly once with the first error and frees the block exactly once, at the end. */
  lemma SubmissionIsProper(n: nat, accepted: seq<bool>, completions: seq<Event>)
    requires accepted != [] && accepted[0]
    requires forall e :: e in completions ==> e.Completed?
    requires |completions| == Balance(Submitted(accepted))
    ensures Proper(n, Submitted(accepted) + completions)
    ensures (exists i :: 0 <= i < |accepted| && !accepted[i]) ==> FirstError(Submitted(accepted) + completions) == -EIO
  {
    var h := Submitted(accepted) + completions;
    SubmittedCountsFirst(accepted);
    assert forall k :: |Submitted(accepted)| <= k < |h| ==> h[k] in completions;
    BalanceOfSum(Submitted(accepted), completions);
    EveryOrderIsProper(n, h);
    if exists i :: 0 <= i < |accepted| && !accepted[i] {
      RefusalIsFirst(accepted, completions);
    }
  }

  lemma {:induction false} SubmittedCountsFirst(accepted: seq<bool>)
    ensures CountedFirst(Submitted(accepted))
  {
    if accepted != [] && accepted[0] {
      SubmittedCountsFirst(accepted[1..]);
      var h, t := Submitted(accepted), Submitted(accepted[1..]);
      forall i, j | 0 <= i < j < |h| && h[j].Counted? ensures h[i].Counted? {
        if i > 0 {
          assert h[i] == t[i - 1] && h[j] == t[j - 1];
        }
      }
    }
  }

  lemma {:induction false} BalanceOfSum(h: seq<Event>, completions: seq<Event>)
    requires forall e :: e in completions ==> e.Completed?
    ensures Balance(h + completions) == Balance(h) - |completions|
  {
    if completions == [] {
      assert h + completions == h;
    } else {
      var k := |completions| - 1;
      assert (h + completions)[..|h| + k] == h + completions[..k];
      assert completions[k] in completions && forall e :: e in completions[..k] ==> e in completions;
      BalanceOfSum(h, completions[..k]);
    }
  }

  lemma {:induction false} RefusalIsFirst(accepted: seq<bool>, completions: seq<Event>)
    requires exists i :: 0 <= i < |accepted| && !accepted[i]
    ensures FirstError(Submitted(accepted) + completions) == -EIO
  {
    var h := Submitted(accepted) + completions;
    if accepted[0] {
      assert h[1..] == Submitted(accepted[1..]) + completions;
      var i :| 0 <= i < |accepted| && !accepted[i];
      assert !accepted[1..][i - 1];
      RefusalIsFirst(accepted[1..], completions);
    } else {
      assert h[0] == Counted && h[1..][0] == Completed(-EIO);
    }
  }
}
