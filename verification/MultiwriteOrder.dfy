/** The order of concurrent write requests, and multiwrite_merge as a whole: sorting, then merging. */
module MultiwriteOrder {
  import opened Sectors
  import opened IoVector
  import opened MultiwriteMerge

  // ---------------------------------------------------------------- when the order does not matter

  /** Where two of the requests write the same byte, they write the same there. */
  ghost predicate Agree(rs: seq<Request>) {
    forall r, q, p: nat :: r in rs && q in rs && r.Covers(p) && q.Covers(p) ==> Last([r], p) == Last([q], p)
  }

  /** The last writer of a byte is one of the requests that cover it. */
  lemma {:induction false} LastIsOne(rs: seq<Request>, p: nat)
    ensures Last(rs, p).Some? ==> exists r :: r in rs && r.Covers(p) && Last([r], p) == Last(rs, p)
    ensures Last(rs, p).None? ==> forall r :: r in rs ==> !r.Covers(p)
  {
    if rs != [] {
      var r := rs[|rs| - 1];
      LastOne(r, p);
      LastIsOne(rs[..|rs| - 1], p);
      assert rs == rs[..|rs| - 1] + [r];
    }
  }

  lemma SameMembers(a: seq<Request>, b: seq<Request>)
    requires multiset(a) == multiset(b)
    ensures forall r :: r in a <==> r in b
  {
    forall r
      ensures r in a <==> r in b
    {
      assert r in a <==> r in multiset(a);
      assert r in b <==> r in multiset(b);
    }
  }

  /** Requests that agree may be done in any order. */
  lemma AnyOrder(disk: Disk, a: seq<Request>, b: seq<Request>)
    requires multiset(a) == multiset(b) && Fits(a, |disk|) && Agree(a)
    ensures Fits(b, |disk|) && ApplyAll(disk, a) == ApplyAll(disk, b)
  {
    hide Last, ApplyAll, Request.Covers;
    SameMembers(a, b);
    forall p | 0 <= p < |disk|
      ensures ApplyAll(disk, a)[p] == ApplyAll(disk, b)[p]
    {
      LastIsOne(a, p);
      LastIsOne(b, p);
      ApplyAllIsLast(disk, a, p);
      ApplyAllIsLast(disk, b, p);
    }
  }

  ghost predicate OrderIsFree(rs: seq<Request>, n: nat)
    requires Fits(rs, n)
  {
    forall perm: seq<Request>, disk: Disk :: multiset(perm) == multiset(rs) && |disk| == n ==>
      Fits(perm, n) && ApplyAll(disk, perm) == ApplyAll(disk, rs)
  }

  /** The same requests with `r` last, which then determines what it covers. */
  lemma DoneLast(rs: seq<Request>, r: Request, p: nat, n: nat) returns (perm: seq<Request>)
    requires r in rs && Fits(rs, n) && r.Covers(p)
    ensures multiset(perm) == multiset(rs) && Last(perm, p) == Last([r], p) && p < n
  {
    var i :| 0 <= i < |rs| && rs[i] == r;
    perm := rs[..i] + rs[i + 1..] + [r];
    assert rs == rs[..i] + [r] + rs[i + 1..];
    LastConcat(rs[..i] + rs[i + 1..], [r], p);
    LastOne(r, p);
  }

  /** All orders of the requests have the same effect on every disk if and only if the requests agree. */
  lemma OrderIsFreeIff(rs: seq<Request>, n: nat)
    requires Fits(rs, n)
    ensures OrderIsFree(rs, n) <==> Agree(rs)
  {
    hide Last, ApplyAll, Request.Covers, Fits;
    if Agree(rs) {
      forall perm: seq<Request>, disk: Disk | multiset(perm) == multiset(rs) && |disk| == n
        ensures Fits(perm, n) && ApplyAll(disk, perm) == ApplyAll(disk, rs)
      {
        AnyOrder(disk, rs, perm);
      }
    }
    if OrderIsFree(rs, n) {
      forall r, q, p: nat | r in rs && q in rs && r.Covers(p) && q.Covers(p)
        ensures Last([r], p) == Last([q], p)
      {
        var disk := Zeros(n);
        var a := DoneLast(rs, r, p, n);
        var b := DoneLast(rs, q, p, n);
        assert ApplyAll(disk, a) == ApplyAll(disk, rs) == ApplyAll(disk, b);
        ApplyAllIsLast(disk, a, p);
        ApplyAllIsLast(disk, b, p);
        CoveredHasLast(r, p);
        CoveredHasLast(q, p);
      }
    }
  }

  lemma CoveredHasLast(r: Request, p: nat)
    requires r.Covers(p)
    ensures Last([r], p).Some?
  {
    LastOne(r, p);
  }

  // ---------------------------------------------------------------- requests that do not overlap

  /** No two different requests share a sector, and none is empty. */
  ghost predicate Apart(rs: seq<Request>) {
    && (forall r :: r in rs ==> r.nbSectors > 0)
    && forall r, q :: r in rs && q in rs ==> r == q || r.End() <= q.sector || q.End() <= r.sector
  }

  lemma ApartAgree(rs: seq<Request>)
    requires AllValid(rs) && Apart(rs)
    ensures Agree(rs)
  {
    hide Last, Flatten;
    forall r, q, p: nat | r in rs && q in rs && r.Covers(p) && q.Covers(p)
      ensures Last([r], p) == Last([q], p)
    {
      assert r.Valid() && q.Valid();
    }
  }

  lemma {:induction false} ApartEndsAscend(a: Request, rest: seq<Request>)
    requires Sorted(a, rest) && Apart([a] + rest)
    ensures EndsAscend(a, rest)
    decreases |rest|
  {
    if rest != [] {
      assert forall r :: r in [rest[0]] + rest[1..] ==> r in [a] + rest;
      assert a in [a] + rest && rest[0] in [a] + rest;
      ApartEndsAscend(rest[0], rest[1..]);
    }
  }

  /** Requests that share no sector: sorted in any way and merged, they leave the disk that they leave in the
      order they came in, unless the driver fills a gap that does not read as zeros. */
  lemma SortAndMergeKeepDisk(disk: Disk, rs: seq<Request>, a: Request, rest: seq<Request>, driver: Driver)
    requires multiset(rs) == multiset([a] + rest) && Sorted(a, rest)
    requires AllValid(rs) && Apart(rs) && Fits(rs, |disk|) && GapsReadZero(disk, [], a, rest, driver)
    ensures Fits(MergeAll([], a, rest, driver), |disk|)
    ensures ApplyAll(disk, MergeAll([], a, rest, driver)) == ApplyAll(disk, rs)
  {
    hide MergeAll, GapsReadZero, ApplyAll, Sorted, Agree, Request.Valid;
    SameMembers(rs, [a] + rest);
    assert a in [a] + rest && forall r :: r in rest ==> r in [a] + rest;
    ApartAgree(rs);
    AnyOrder(disk, rs, [a] + rest);
    ApartEndsAscend(a, rest);
    AscendingEndsDropNothing([], a, rest, driver);
    MergePreservesDisk(disk, a, rest, driver);
  }

  // ---------------------------------------------------------------- in place

  lemma {:induction false} AscendsIsSorted(rs: seq<Request>)
    requires rs != [] && Ascends(rs)
    ensures Sorted(rs[0], rs[1..])
    decreases |rs|
  {
    if |rs| > 1 {
      AscendsIsSorted(rs[1..]);
    }
  }

  /** The first `i` requests are sorted, and none of the others starts before them. */
  ghost predicate AscendsTo(rs: seq<Request>, i: nat) {
    i <= |rs| && forall j, k :: 0 <= j < k < |rs| && j < i ==> rs[j].sector <= rs[k].sector
  }

  /** Request `k` starts first of those from `i` on. */
  predicate IsFirst(rs: seq<Request>, i: nat, k: nat) {
    i <= k < |rs| && forall j :: i <= j < |rs| ==> rs[k].sector <= rs[j].sector
  }

  lemma {:induction false} FirstExists(rs: seq<Request>, i: nat) returns (k: nat)
    requires i < |rs|
    ensures IsFirst(rs, i, k)
    decreases |rs| - i
  {
    if i + 1 == |rs| {
      k := i;
    } else {
      k := FirstExists(rs, i + 1);
      k := if rs[i].sector <= rs[k].sector then i else k;
    }
  }

  function Swap(rs: seq<Request>, i: nat, k: nat): seq<Request>
    requires i < |rs| && k < |rs|
  {
    rs[i := rs[k]][k := rs[i]]
  }

  lemma SwapAscends(rs: seq<Request>, i: nat, k: nat)
    requires AscendsTo(rs, i) && i < |rs| && IsFirst(rs, i, k)
    ensures AscendsTo(Swap(rs, i, k), i + 1) && multiset(Swap(rs, i, k)) == multiset(rs)
  {
  }

  /** Swaps a request that starts first of those from `i` on into place `i`. */
  method PlaceFirst(reqs: array<Request>, num: nat, i: nat)
    requires i < num <= reqs.Length && AscendsTo(reqs[..num], i)
    modifies reqs
    ensures AscendsTo(reqs[..num], i + 1) && multiset(reqs[..num]) == multiset(old(reqs[..num]))
    ensures reqs[num..] == old(reqs[num..])
  {
    hide AscendsTo, IsFirst, Swap;
    ghost var rs := reqs[..num];
    ghost var least := FirstExists(rs, i);
    var k: nat :| k < num && IsFirst(reqs[..num], i, k);
    SwapAscends(rs, i, k);
    reqs[i], reqs[k] := reqs[k], reqs[i];
    SwapIs(rs, reqs[..num], i, k);
  }

  /** Sorts the requests by start sector. Requests with equal starts may come in any order. */
  method SortByStart(reqs: array<Request>, num: nat)
    requires num <= reqs.Length
    modifies reqs
    ensures Ascends(reqs[..num]) && multiset(reqs[..num]) == multiset(old(reqs[..num]))
    ensures reqs[num..] == old(reqs[num..])
  {
    hide AscendsTo;
    StartsUnsorted(reqs[..num]);
    for i := 0 to num
      invariant AscendsTo(reqs[..num], i) && multiset(reqs[..num]) == multiset(old(reqs[..num]))
      invariant reqs[num..] == old(reqs[num..])
    {
      PlaceFirst(reqs, num, i);
    }
    AllSorted(reqs[..num]);
  }

  lemma StartsUnsorted(rs: seq<Request>)
    ensures AscendsTo(rs, 0)
  {
  }

  lemma AllSorted(rs: seq<Request>)
    requires AscendsTo(rs, |rs|)
    ensures Ascends(rs)
  {
  }

  lemma SwapIs(rs: seq<Request>, rs': seq<Request>, i: nat, k: nat)
    requires i < |rs| == |rs'| && k < |rs| && rs'[i] == rs[k] && rs'[k] == rs[i]
    requires forall j :: 0 <= j < |rs| && j != i && j != k ==> rs'[j] == rs[j]
    ensures rs' == Swap(rs, i, k)
  {
  }

  /** On requests `rs` that share no sector, `merged` leaves the disk that they leave in the order they came in. */
  ghost predicate KeepsDisk(rs: seq<Request>, merged: seq<Request>, sorted: seq<Request>, driver: Driver)
    requires sorted != [] && Sorted(sorted[0], sorted[1..])
  {
    forall disk: Disk ::
      Apart(rs) && Fits(rs, |disk|) && GapsReadZero(disk, [], sorted[0], sorted[1..], driver) ==>
      Fits(merged, |disk|) && ApplyAll(disk, merged) == ApplyAll(disk, rs)
  }

  lemma MergedKeepsDisk(rs: seq<Request>, sorted: seq<Request>, driver: Driver)
    requires multiset(sorted) == multiset(rs) && sorted != [] && Sorted(sorted[0], sorted[1..]) && AllValid(rs)
    ensures KeepsDisk(rs, MergeAll([], sorted[0], sorted[1..], driver), sorted, driver)
  {
    hide MergeAll, GapsReadZero, ApplyAll, Sorted, Apart, Fits;
    assert [sorted[0]] + sorted[1..] == sorted;
    forall disk: Disk | Apart(rs) && Fits(rs, |disk|) && GapsReadZero(disk, [], sorted[0], sorted[1..], driver)
      ensures var merged := MergeAll([], sorted[0], sorted[1..], driver);
              Fits(merged, |disk|) && ApplyAll(disk, merged) == ApplyAll(disk, rs)
    {
      SortAndMergeKeepDisk(disk, rs, sorted[0], sorted[1..], driver);
    }
  }

  /** Sorts and merges the requests in place and returns how many remain. */
  method Merge(reqs: array<Request>, num: nat, driver: Driver)
    returns (n: nat, ghost sorted: seq<Request>, ghost cuts: seq<nat>)
    requires 0 < num <= reqs.Length && AllValid(reqs[..num])
    modifies reqs
    ensures 0 < n <= num == |sorted| && multiset(sorted) == multiset(old(reqs[..num])) && Sorted(sorted[0], sorted[1..])
    ensures reqs[..n] == MergeAll([], sorted[0], sorted[1..], driver)
    ensures Ascends(sorted) && Grouped(sorted, reqs[..n], cuts, driver) && cuts[n] == num
    ensures KeepsDisk(old(reqs[..num]), reqs[..n], sorted, driver)
    ensures reqs[num..] == old(reqs[num..])
  {
    hide MergeAll, Sorted, KeepsDisk, Request.Valid, Group;
    ghost var rs := reqs[..num];
    SortByStart(reqs, num);
    sorted := reqs[..num];
    AscendsIsSorted(sorted);
    SameMembers(rs, sorted);
    assert reqs[1..num] == sorted[1..];
    n, cuts := MergeSorted(reqs, num, driver);
    MergedKeepsDisk(rs, sorted, driver);
  }
}
