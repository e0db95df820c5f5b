/** Merging of concurrent write requests (multiwrite_merge): what it does to the disk. */
module MultiwriteMerge {
  import opened Sectors
  import opened IoVector

  const IOV_MAX: nat := 1024

  datatype Request = Request(sector: nat, nbSectors: nat, iov: Iov)
  {
    function Off(): nat {
      sector * SECTOR_SIZE
    }

    function Data(): seq<Byte> {
      Flatten(iov)
    }

    /** The vector holds exactly the sectors the request is for. */
    ghost predicate Valid() {
      |Data()| == nbSectors * SECTOR_SIZE
    }

    /** The request writes the byte at `p`. */
    ghost predicate Covers(p: nat) {
      Off() <= p < Off() + |Data()|
    }

    function End(): nat {
      sector + nbSectors
    }
  }

  /** The block driver's opinion on merging two requests with a gap between them. */
  type Driver = (Request, Request) -> bool

  // ---------------------------------------------------------------- what requests do to a disk

  function Apply(disk: Disk, r: Request): (d: Disk)
    requires r.Off() + |r.Data()| <= |disk|
    ensures |d| == |disk|
  {
    Splice(disk, r.Off(), r.Data())
  }

  ghost predicate Fits(rs: seq<Request>, n: nat) {
    forall r :: r in rs ==> r.Off() + |r.Data()| <= n
  }

  function ApplyAll(disk: Disk, rs: seq<Request>): (d: Disk)
    requires Fits(rs, |disk|)
    ensures |d| == |disk|
  {
    if rs == [] then disk else
    assert rs[|rs| - 1] in rs && forall r :: r in rs[..|rs| - 1] ==> r in rs;
    Apply(ApplyAll(disk, rs[..|rs| - 1]), rs[|rs| - 1])
  }

  /** The byte the last of `rs` that covers `p` writes there. */
  ghost function Last(rs: seq<Request>, p: nat): Option<Byte> {
    if rs == [] then None else
    var r := rs[|rs| - 1];
    if r.Covers(p) then Some(r.Data()[p - r.Off()]) else Last(rs[..|rs| - 1], p)
  }

  lemma LastOne(r: Request, p: nat)
    ensures Last([r], p) == if r.Covers(p) then Some(r.Data()[p - r.Off()]) else None
  {
    assert [r][..0] == [];
  }

  lemma {:induction false} LastConcat(a: seq<Request>, b: seq<Request>, p: nat)
    ensures Last(a + b, p) == if Last(b, p).Some? then Last(b, p) else Last(a, p)
  {
    if b == [] {
      assert a + b == a;
    } else {
      assert (a + b)[..|a + b| - 1] == a + b[..|b| - 1];
      LastConcat(a, b[..|b| - 1], p);
    }
  }

  /** What a disk reads after the requests is, byte by byte, what the last writer left. */
  lemma {:induction false} ApplyAllIsLast(disk: Disk, rs: seq<Request>, p: nat)
    requires Fits(rs, |disk|) && p < |disk|
    ensures ApplyAll(disk, rs)[p] == match Last(rs, p) case Some(b) => b case None => disk[p]
  {
    if rs != [] {
      assert rs[|rs| - 1] in rs && forall r :: r in rs[..|rs| - 1] ==> r in rs;
      ApplyAllIsLast(disk, rs[..|rs| - 1], p);
    }
  }

  // ---------------------------------------------------------------- merging

  function Zeros(n: nat): (z: seq<Byte>)
    ensures |z| == n && forall k :: 0 <= k < n ==> z[k] == 0
  {
    seq(n, _ => 0)
  }

  predicate ShouldMerge(a: Request, b: Request, driver: Driver) {
    (b.sector <= a.End() || driver(a, b)) && |a.iov| + |b.iov| + 1 <= IOV_MAX
  }

  function MergedIov(a: Request, b: Request): Iov
    requires a.sector <= b.sector
  {
    Take(a.iov, (b.sector - a.sector) * SECTOR_SIZE)
    + (if b.sector > a.End() then [Zeros((b.sector - a.End()) * SECTOR_SIZE)] else [])
    + Take(b.iov, |b.Data()|)
  }

  /** `a` cut where `b` starts, zeros up to there if `a` ends before, then `b`. */
  function Merged(a: Request, b: Request): Request
    requires a.sector <= b.sector
  {
    Request(a.sector, |Flatten(MergedIov(a, b))| / SECTOR_SIZE, MergedIov(a, b))
  }

  ghost predicate AllValid(rs: seq<Request>) {
    forall r :: r in rs ==> r.Valid()
  }

  /** `a` followed by `rest` ascends in start sector. */
  ghost predicate Sorted(a: Request, rest: seq<Request>)
    decreases |rest|
  {
    rest == [] || (a.sector <= rest[0].sector && Sorted(rest[0], rest[1..]))
  }

  lemma SortedMerged(a: Request, rest: seq<Request>)
    requires rest != [] && Sorted(a, rest)
    ensures Sorted(Merged(a, rest[0]), rest[1..])
  {
    if rest[1..] != [] {
      assert Sorted(rest[0], rest[1..]);
    }
  }

  /** The requests after merging, when `pre` are finished, `a` is still open and `rest` are to come. */
  function MergeAll(pre: seq<Request>, a: Request, rest: seq<Request>, driver: Driver): seq<Request>
    requires Sorted(a, rest)
    decreases |rest|
  {
    if rest == [] then pre + [a]
    else if ShouldMerge(a, rest[0], driver) then
      SortedMerged(a, rest);
      MergeAll(pre, Merged(a, rest[0]), rest[1..], driver)
    else MergeAll(pre + [a], rest[0], rest[1..], driver)
  }

  function Gap(a: Request, b: Request): seq<Byte> {
    if b.sector > a.End() then Zeros((b.sector - a.End()) * SECTOR_SIZE) else []
  }

  lemma MergedBytes(a: Request, b: Request)
    requires a.sector <= b.sector
    ensures Merged(a, b).Data() == a.Data()[..Min(b.Off() - a.Off(), |a.Data()|)] + Gap(a, b) + b.Data()
    ensures |Merged(a, b).iov| <= |a.iov| + |b.iov| + (if b.sector > a.End() then 1 else 0)
  {
    hide Flatten, Take;
    var k := (b.sector - a.sector) * SECTOR_SIZE;
    var gap: Iov := if b.sector > a.End() then [Zeros((b.sector - a.End()) * SECTOR_SIZE)] else [];
    TakeIsPrefix(a.iov, k);
    TakeIsPrefix(b.iov, |b.Data()|);
    FlattenConcat(Take(a.iov, k) + gap, Take(b.iov, |b.Data()|));
    FlattenConcat(Take(a.iov, k), gap);
    if b.sector > a.End() {
      FlattenOne(gap[0]);
    } else {
      FlattenNone();
    }
  }

  /** The bytes of a merged request: of `a` before `b` starts, zeros in the gap, and `b`. */
  lemma MergedData(a: Request, b: Request)
    requires a.sector <= b.sector && a.Valid() && b.Valid()
    ensures var m := Merged(a, b);
            && m.Valid() && m.sector == a.sector && m.End() == b.End()
            && m.Data() == a.Data()[..Min(b.Off() - a.Off(), |a.Data()|)] + Gap(a, b) + b.Data()
            && |m.iov| <= |a.iov| + |b.iov| + (if b.sector > a.End() then 1 else 0)
  {
    MergedBytes(a, b);
    assert |Merged(a, b).Data()| == (b.sector + b.nbSectors - a.sector) * SECTOR_SIZE;
  }

  /** Byte `p` is in the part of `a` that merging with `b` drops. */
  ghost predicate Dropped(a: Request, b: Request, p: nat) {
    a.Covers(p) && p >= b.Off() && !b.Covers(p)
  }

  ghost predicate InGap(a: Request, b: Request, p: nat) {
    a.Off() + |a.Data()| <= p < b.Off()
  }

  lemma MergedByte(a: Request, b: Request, p: nat)
    requires a.sector <= b.sector && a.Valid() && b.Valid()
    ensures Last([Merged(a, b)], p) ==
            if Dropped(a, b, p) then None
            else if InGap(a, b, p) then Some(0)
            else Last([a, b], p)
  {
    MergedData(a, b);
    LastOne(Merged(a, b), p);
    LastConcat([a], [b], p);
    LastOne(a, p);
    LastOne(b, p);
    assert [a] + [b] == [a, b];
  }

  // ---------------------------------------------------------------- when the disk is the same

  /** Byte `p` of `a` may be dropped: a later request writes it, or the finished ones left the same
      byte there. */
  ghost predicate Spare(pre: seq<Request>, a: Request, later: seq<Request>, p: nat) {
    Last(later, p).Some? || Last(pre, p) == Last([a], p)
  }

  /** Whatever a merge drops of the open request can be spared. */
  ghost predicate TailsCovered(pre: seq<Request>, a: Request, rest: seq<Request>, driver: Driver)
    requires Sorted(a, rest)
    decreases |rest|
  {
    rest == [] ||
    if ShouldMerge(a, rest[0], driver) then
      SortedMerged(a, rest);
      && (forall p :: Dropped(a, rest[0], p) ==> Spare(pre, a, rest[1..], p))
      && TailsCovered(pre, Merged(a, rest[0]), rest[1..], driver)
    else TailsCovered(pre + [a], rest[0], rest[1..], driver)
  }

  /** What byte `p` of `disk` becomes. */
  ghost function Reads(disk: Disk, rs: seq<Request>, p: nat): Byte
    requires p < |disk|
  {
    match Last(rs, p) case Some(b) => b case None => disk[p]
  }

  /** At every merge across a gap, the gap reads as zeros at that point. */
  ghost predicate GapsReadZero(disk: Disk, pre: seq<Request>, a: Request, rest: seq<Request>, driver: Driver)
    requires Sorted(a, rest)
    decreases |rest|
  {
    rest == [] ||
    if ShouldMerge(a, rest[0], driver) then
      SortedMerged(a, rest);
      && (forall p: nat :: InGap(a, rest[0], p) && p < |disk| ==> Reads(disk, pre, p) == 0)
      && GapsReadZero(disk, pre, Merged(a, rest[0]), rest[1..], driver)
    else GapsReadZero(disk, pre + [a], rest[0], rest[1..], driver)
  }

  /** One merge changes the last writer of a byte only in the gap it fills. */
  lemma LastMerged(pre: seq<Request>, a: Request, b: Request, rest: seq<Request>, p: nat)
    requires a.sector <= b.sector && a.Valid() && b.Valid()
    requires Dropped(a, b, p) ==> Spare(pre, a, rest, p)
    ensures var merged, plain := Last(pre + [Merged(a, b)] + rest, p), Last(pre + [a] + [b] + rest, p);
            if InGap(a, b, p) && Last(rest, p).None? then merged == Some(0) && plain == Last(pre, p)
            else merged == plain
  {
    hide Merged, Last, Flatten;
    MergedByte(a, b, p);
    LastConcat(pre + [Merged(a, b)], rest, p);
    LastConcat(pre, [Merged(a, b)], p);
    LastConcat(pre + [a] + [b], rest, p);
    LastConcat(pre + [a], [b], p);
    LastConcat(pre, [a], p);
    LastConcat([a], [b], p);
    assert [a] + [b] == [a, b];
    LastOne(a, p);
    LastOne(b, p);
  }

  /** Merging leaves every byte of the disk as the sorted originals would. */
  lemma {:induction false} MergeReadsSame(disk: Disk, pre: seq<Request>, a: Request, rest: seq<Request>, driver: Driver,
                                          p: nat)
    requires Sorted(a, rest) && a.Valid() && AllValid(rest) && p < |disk|
    requires TailsCovered(pre, a, rest, driver) && GapsReadZero(disk, pre, a, rest, driver)
    ensures Reads(disk, MergeAll(pre, a, rest, driver), p) == Reads(disk, pre + [a] + rest, p)
    decreases |rest|
  {
    hide Merged, Last, Flatten;
    if rest == [] {
      assert pre + [a] + rest == pre + [a];
    } else {
      var b := rest[0];
      assert b in rest && forall r :: r in rest[1..] ==> r in rest;
      assert pre + [a] + [b] + rest[1..] == pre + [a] + rest;
      if ShouldMerge(a, b, driver) {
        MergedData(a, b);
        MergeReadsSame(disk, pre, Merged(a, b), rest[1..], driver, p);
        LastMerged(pre, a, b, rest[1..], p);
      } else {
        MergeReadsSame(disk, pre + [a], b, rest[1..], driver, p);
      }
    }
  }

  lemma {:induction false} MergeFits(pre: seq<Request>, a: Request, rest: seq<Request>, driver: Driver, n: nat)
    requires Sorted(a, rest) && AllValid(pre) && a.Valid() && AllValid(rest)
    requires Fits(pre, n) && Fits([a], n) && Fits(rest, n)
    ensures Fits(MergeAll(pre, a, rest, driver), n) && AllValid(MergeAll(pre, a, rest, driver))
    decreases |rest|
  {
    if rest != [] {
      var b := rest[0];
      assert b in rest && a in [a] && forall r :: r in rest[1..] ==> r in rest;
      if ShouldMerge(a, b, driver) {
        MergedData(a, b);
        MergeFits(pre, Merged(a, b), rest[1..], driver, n);
      } else {
        MergeFits(pre + [a], b, rest[1..], driver, n);
      }
    }
  }

  /** Merging preserves what the sorted requests do to the disk. */
  lemma MergePreservesDisk(disk: Disk, a: Request, rest: seq<Request>, driver: Driver)
    requires Sorted(a, rest) && a.Valid() && AllValid(rest) && Fits([a] + rest, |disk|)
    requires TailsCovered([], a, rest, driver) && GapsReadZero(disk, [], a, rest, driver)
    ensures Fits(MergeAll([], a, rest, driver), |disk|)
    ensures ApplyAll(disk, MergeAll([], a, rest, driver)) == ApplyAll(disk, [a] + rest)
  {
    hide MergeAll, TailsCovered, GapsReadZero, Last, ApplyAll, Sorted;
    assert forall r :: r in rest ==> r in [a] + rest;
    assert a in [a] + rest;
    MergeFits([], a, rest, driver, |disk|);
    var m := MergeAll([], a, rest, driver);
    forall p | 0 <= p < |disk|
      ensures ApplyAll(disk, m)[p] == ApplyAll(disk, [a] + rest)[p]
    {
      ApplyAllIsLast(disk, m, p);
      ApplyAllIsLast(disk, [a] + rest, p);
      MergeReadsSame(disk, [], a, rest, driver, p);
      assert [] + [a] + rest == [a] + rest;
    }
  }

  // ---------------------------------------------------------------- exactly when

  /** A driver without an opinion never asks for gaps to be filled. */
  function NoDriver(): Driver {
    (a: Request, b: Request) => false
  }

  /** Without gaps, a byte the open and the later requests leave alone is what the finished ones made it. */
  lemma {:induction false} MergeSkips(pre: seq<Request>, a: Request, rest: seq<Request>, p: nat)
    requires Sorted(a, rest) && a.Valid() && AllValid(rest)
    requires Last([a], p).None? && Last(rest, p).None?
    ensures Last(MergeAll(pre, a, rest, NoDriver()), p) == Last(pre, p)
    decreases |rest|
  {
    hide Merged, Flatten;
    LastConcat(pre, [a], p);
    if rest != [] {
      var b := rest[0];
      assert b in rest && forall r :: r in rest[1..] ==> r in rest;
      assert [b] + rest[1..] == rest;
      LastConcat([b], rest[1..], p);
      if ShouldMerge(a, b, NoDriver()) {
        MergedData(a, b);
        MergedByte(a, b, p);
        LastConcat([a], [b], p);
        assert [a] + [b] == [a, b];
        LastOne(a, p);
        MergeSkips(pre, Merged(a, b), rest[1..], p);
      } else {
        MergeSkips(pre + [a], b, rest[1..], p);
      }
    }
  }

  /** If a merge drops what cannot be spared, some byte has another last writer than before merging. */
  lemma {:induction false} LostByte(pre: seq<Request>, a: Request, rest: seq<Request>) returns (p: nat)
    requires Sorted(a, rest) && a.Valid() && AllValid(rest)
    requires !TailsCovered(pre, a, rest, NoDriver())
    ensures Last(pre + [a] + rest, p).Some?
    ensures Last(MergeAll(pre, a, rest, NoDriver()), p) != Last(pre + [a] + rest, p)
    decreases |rest|
  {
    hide Merged, Flatten, Last;
    var b, tail := rest[0], rest[1..];
    assert b in rest && forall r :: r in tail ==> r in rest;
    assert pre + [a] + rest == pre + [a] + [b] + tail;
    if ShouldMerge(a, b, NoDriver()) {
      var m := Merged(a, b);
      MergedData(a, b);
      if p0: nat :| Dropped(a, b, p0) && !Spare(pre, a, tail, p0) {
        p := p0;
        DroppedIsLost(pre, a, b, tail, p);
        MergeSkips(pre, m, tail, p);
      } else {
        p := LostByte(pre, m, tail);
        LastMerged(pre, a, b, tail, p);
      }
    } else {
      p := LostByte(pre + [a], b, tail);
    }
  }

  lemma DroppedIsLost(pre: seq<Request>, a: Request, b: Request, tail: seq<Request>, p: nat)
    requires a.sector <= b.sector && a.Valid() && b.Valid()
    requires Dropped(a, b, p) && Last(tail, p).None?
    ensures Last([Merged(a, b)], p).None?
    ensures Last([a], p).Some? && Last(pre + [a] + [b] + tail, p) == Last([a], p)
  {
    hide Merged, Flatten;
    MergedByte(a, b, p);
    LastConcat(pre + [a] + [b], tail, p);
    LastConcat(pre + [a], [b], p);
    LastConcat(pre, [a], p);
    LastOne(a, p);
    LastOne(b, p);
  }

  /** On every disk of `n` bytes the merged requests do what the sorted ones do. */
  ghost predicate SameOnEveryDisk(a: Request, rest: seq<Request>, driver: Driver, n: nat)
    requires Sorted(a, rest) && Fits([a] + rest, n) && Fits(MergeAll([], a, rest, driver), n)
  {
    forall disk: Disk :: |disk| == n ==> ApplyAll(disk, MergeAll([], a, rest, driver)) == ApplyAll(disk, [a] + rest)
  }

  /** When no gaps are filled, merging preserves the effect on every disk exactly when every dropped tail
      can be spared. */
  lemma PreservesEveryDiskIff(a: Request, rest: seq<Request>, n: nat)
    requires Sorted(a, rest) && a.Valid() && AllValid(rest) && Fits([a] + rest, n)
    ensures Fits(MergeAll([], a, rest, NoDriver()), n)
    ensures SameOnEveryDisk(a, rest, NoDriver(), n) <==> TailsCovered([], a, rest, NoDriver())
  {
    hide MergeAll, TailsCovered, ApplyAll, Sorted;
    assert a in [a] + rest && forall r :: r in rest ==> r in [a] + rest;
    MergeFits([], a, rest, NoDriver(), n);
    if TailsCovered([], a, rest, NoDriver()) {
      forall disk: Disk | |disk| == n
        ensures ApplyAll(disk, MergeAll([], a, rest, NoDriver())) == ApplyAll(disk, [a] + rest)
      {
        NoGaps(disk, [], a, rest);
        MergePreservesDisk(disk, a, rest, NoDriver());
      }
    } else {
      var disk := DiskThatDiffers(a, rest, n);
      assert |disk| == n;
    }
  }

  lemma DiskThatDiffers(a: Request, rest: seq<Request>, n: nat) returns (disk: Disk)
    requires Sorted(a, rest) && a.Valid() && AllValid(rest) && Fits([a] + rest, n)
    requires Fits(MergeAll([], a, rest, NoDriver()), n)
    requires !TailsCovered([], a, rest, NoDriver())
    ensures |disk| == n && ApplyAll(disk, MergeAll([], a, rest, NoDriver())) != ApplyAll(disk, [a] + rest)
  {
    hide MergeAll, TailsCovered, ApplyAll, Sorted, Last;
    var p := LostByte([], a, rest);
    assert [] + [a] + rest == [a] + rest;
    var b := Last([a] + rest, p).value;
    CoveredFits([a] + rest, n, p);
    disk := seq(n, _ => if b == 0 then 1 else 0);
    ApplyAllIsLast(disk, MergeAll([], a, rest, NoDriver()), p);
    ApplyAllIsLast(disk, [a] + rest, p);
  }

  lemma {:induction false} CoveredFits(rs: seq<Request>, n: nat, p: nat)
    requires Fits(rs, n) && Last(rs, p).Some?
    ensures p < n
  {
    assert rs[|rs| - 1] in rs && forall r :: r in rs[..|rs| - 1] ==> r in rs;
    if !rs[|rs| - 1].Covers(p) {
      CoveredFits(rs[..|rs| - 1], n, p);
    }
  }

  lemma {:induction false} NoGaps(disk: Disk, pre: seq<Request>, a: Request, rest: seq<Request>)
    requires Sorted(a, rest) && a.Valid() && AllValid(rest)
    ensures GapsReadZero(disk, pre, a, rest, NoDriver())
    decreases |rest|
  {
    if rest != [] {
      assert rest[0] in rest && forall r :: r in rest[1..] ==> r in rest;
      if ShouldMerge(a, rest[0], NoDriver()) {
        MergedData(a, rest[0]);
        NoGaps(disk, pre, Merged(a, rest[0]), rest[1..]);
      } else {
        NoGaps(disk, pre + [a], rest[0], rest[1..]);
      }
    }
  }

  // ---------------------------------------------------------------- exactly when, for one disk and any driver

  /** Merging `a` with `b` gives byte `p` another last writer, and no later request writes it. */
  ghost predicate Disturbs(a: Request, b: Request, later: seq<Request>, p: nat) {
    (Dropped(a, b, p) || InGap(a, b, p)) && Last(later, p).None?
  }

  /** What the last merge that disturbs byte `p` leaves there: zero if it fills a gap, what the finished
      requests made of the disk if it drops the byte. */
  ghost function Left(disk: Disk, pre: seq<Request>, a: Request, rest: seq<Request>, driver: Driver,
                      p: nat): Option<Byte>
    requires Sorted(a, rest) && p < |disk|
    decreases |rest|
  {
    if rest == [] then None
    else if ShouldMerge(a, rest[0], driver) then
      SortedMerged(a, rest);
      match Left(disk, pre, Merged(a, rest[0]), rest[1..], driver, p)
      case Some(v) => Some(v)
      case None =>
        if !Disturbs(a, rest[0], rest[1..], p) then None
        else if InGap(a, rest[0], p) then Some(0)
        else Some(Reads(disk, pre, p))
    else Left(disk, pre + [a], rest[0], rest[1..], driver, p)
  }

  lemma DisturbedByte(disk: Disk, pre: seq<Request>, a: Request, b: Request, later: seq<Request>, p: nat)
    requires a.sector <= b.sector && a.Valid() && b.Valid() && p < |disk|
    ensures Reads(disk, pre + [Merged(a, b)] + later, p) ==
            if !Disturbs(a, b, later, p) then Reads(disk, pre + [a] + [b] + later, p)
            else if InGap(a, b, p) then 0
            else Reads(disk, pre, p)
  {
    hide Merged, Last, Flatten;
    MergedByte(a, b, p);
    LastConcat(pre + [Merged(a, b)], later, p);
    LastConcat(pre, [Merged(a, b)], p);
    LastConcat(pre + [a] + [b], later, p);
    LastConcat(pre + [a], [b], p);
    LastConcat(pre, [a], p);
    LastConcat([a], [b], p);
    assert [a] + [b] == [a, b];
  }

  lemma {:induction false} MergeLeaves(disk: Disk, pre: seq<Request>, a: Request, rest: seq<Request>, driver: Driver,
                                       p: nat)
    requires Sorted(a, rest) && a.Valid() && AllValid(rest) && p < |disk|
    ensures Reads(disk, MergeAll(pre, a, rest, driver), p) ==
            match Left(disk, pre, a, rest, driver, p)
            case Some(v) => v
            case None => Reads(disk, pre + [a] + rest, p)
    decreases |rest|
  {
    hide Merged, Last, Flatten, Reads, Disturbs;
    if rest == [] {
      assert pre + [a] + rest == pre + [a];
    } else {
      var b := rest[0];
      assert b in rest && forall r :: r in rest[1..] ==> r in rest;
      assert pre + [a] + [b] + rest[1..] == pre + [a] + rest;
      if ShouldMerge(a, b, driver) {
        MergedData(a, b);
        MergeLeaves(disk, pre, Merged(a, b), rest[1..], driver, p);
        DisturbedByte(disk, pre, a, b, rest[1..], p);
      } else {
        MergeLeaves(disk, pre + [a], b, rest[1..], driver, p);
      }
    }
  }

  /** The last merge that disturbs byte `p`, if any, leaves what the sorted requests make of it. */
  ghost predicate LeftRight(disk: Disk, a: Request, rest: seq<Request>, driver: Driver, p: nat)
    requires Sorted(a, rest) && p < |disk|
  {
    match Left(disk, [], a, rest, driver, p)
    case Some(v) => v == Reads(disk, [a] + rest, p)
    case None => true
  }

  lemma MergeByteIff(disk: Disk, a: Request, rest: seq<Request>, driver: Driver, p: nat)
    requires Sorted(a, rest) && a.Valid() && AllValid(rest) && p < |disk|
    requires Fits([a] + rest, |disk|) && Fits(MergeAll([], a, rest, driver), |disk|)
    ensures ApplyAll(disk, MergeAll([], a, rest, driver))[p] == ApplyAll(disk, [a] + rest)[p] <==>
              LeftRight(disk, a, rest, driver, p)
  {
    hide MergeAll, Last, ApplyAll, Sorted, Left, Fits, AllValid;
    ApplyAllIsLast(disk, MergeAll([], a, rest, driver), p);
    ApplyAllIsLast(disk, [a] + rest, p);
    MergeLeaves(disk, [], a, rest, driver, p);
    assert [] + [a] + rest == [a] + rest;
  }

  /** With any driver and on any disk the merged requests do what the sorted ones do if and only if at each
      byte the last merge that disturbs it leaves what the sorted requests make of it. */
  lemma MergeSameIff(disk: Disk, a: Request, rest: seq<Request>, driver: Driver)
    requires Sorted(a, rest) && a.Valid() && AllValid(rest) && Fits([a] + rest, |disk|)
    ensures Fits(MergeAll([], a, rest, driver), |disk|)
    ensures ApplyAll(disk, MergeAll([], a, rest, driver)) == ApplyAll(disk, [a] + rest) <==>
            forall p: nat :: p < |disk| ==> LeftRight(disk, a, rest, driver, p)
  {
    hide MergeAll, ApplyAll, Sorted, LeftRight, Request.Valid;
    assert a in [a] + rest && forall r :: r in rest ==> r in [a] + rest;
    MergeFits([], a, rest, driver, |disk|);
    hide Fits, AllValid;
    var x, y := ApplyAll(disk, MergeAll([], a, rest, driver)), ApplyAll(disk, [a] + rest);
    forall p: nat | p < |disk|
      ensures x[p] == y[p] <==> LeftRight(disk, a, rest, driver, p)
    {
      MergeByteIff(disk, a, rest, driver, p);
    }
  }

  // ---------------------------------------------------------------- when nothing is dropped

  ghost predicate EndsAscend(a: Request, rest: seq<Request>)
    decreases |rest|
  {
    rest == [] || (a.End() <= rest[0].End() && EndsAscend(rest[0], rest[1..]))
  }

  /** Requests whose ends do not decrease drop nothing. */
  lemma {:induction false} AscendingEndsDropNothing(pre: seq<Request>, a: Request, rest: seq<Request>, driver: Driver)
    requires Sorted(a, rest) && a.Valid() && AllValid(rest) && EndsAscend(a, rest)
    ensures TailsCovered(pre, a, rest, driver)
    decreases |rest|
  {
    hide Merged, Flatten, Last;
    if rest != [] {
      var b := rest[0];
      assert b in rest && forall r :: r in rest[1..] ==> r in rest;
      MergedData(a, b);
      if ShouldMerge(a, b, driver) {
        AscendingEndsDropNothing(pre, Merged(a, b), rest[1..], driver);
      } else {
        AscendingEndsDropNothing(pre + [a], b, rest[1..], driver);
      }
    }
  }

  /** Two requests are merged without loss exactly when the second does not end inside the first: a
      request contained in the one before it costs the latter its tail. */
  lemma TwoRequestsIff(a: Request, b: Request, n: nat)
    requires a.Valid() && b.Valid() && a.sector <= b.sector && Fits([a] + [b], n)
    requires |a.iov| + |b.iov| + 1 <= IOV_MAX
    ensures Fits(MergeAll([], a, [b], NoDriver()), n)
    ensures SameOnEveryDisk(a, [b], NoDriver(), n) <==> a.End() <= b.End()
  {
    hide ApplyAll, Flatten;
    PreservesEveryDiskIff(a, [b], n);
    if a.End() <= b.End() {
      AscendingEndsDropNothing([], a, [b], NoDriver());
    } else {
      assert ShouldMerge(a, b, NoDriver());
      var p: nat := b.End() * SECTOR_SIZE;
      LastOne(a, p);
      assert Dropped(a, b, p) && !Spare([], a, [b][1..], p);
    }
  }

  // ---------------------------------------------------------------- which requests are merged

  ghost predicate Ascends(rs: seq<Request>) {
    forall j, k :: 0 <= j < k < |rs| ==> rs[j].sector <= rs[k].sector
  }

  lemma {:induction false} SortedAscends(rs: seq<Request>)
    requires rs != [] && Sorted(rs[0], rs[1..])
    ensures Ascends(rs)
    decreases |rs|
  {
    if |rs| > 1 {
      SortedAscends(rs[1..]);
      forall k | 0 < k < |rs|
        ensures rs[0].sector <= rs[k].sector
      {
        assert rs[1..][k - 1] == rs[k];
      }
    }
  }

  /** The requests of `g` merged into one, from the first on. */
  ghost function Together(g: seq<Request>): (r: Request)
    requires g != [] && Ascends(g)
    ensures r.sector == g[0].sector
  {
    var last := |g| - 1;
    if last == 0 then g[0] else Merged(Together(g[..last]), g[last])
  }

  /** It ends where the last of them does and is valid, and its vector has their buffers, at most one more for each
      merge. */
  lemma {:induction false} TogetherIs(g: seq<Request>)
    requires g != [] && Ascends(g) && AllValid(g)
    ensures Together(g).Valid() && Together(g).End() == g[|g| - 1].End()
    ensures |Together(g).iov| <= Buffers(g) + |g| - 1
  {
    hide Merged, Flatten;
    var last := |g| - 1;
    if last > 0 {
      assert forall r :: r in g[..last] ==> r in g;
      assert g[last] in g;
      TogetherIs(g[..last]);
      MergedData(Together(g[..last]), g[last]);
    }
  }

  /** The number of buffers in all the vectors. */
  ghost function Buffers(g: seq<Request>): nat {
    if g == [] then 0 else Buffers(g[..|g| - 1]) + |g[|g| - 1].iov|
  }

  /** Request `i` joins the run of those from `c` on: it starts no later than the one before ends, or the driver asks
      for it, and the vectors fit. */
  ghost predicate Joins(all: seq<Request>, c: nat, i: nat, driver: Driver)
    requires c < i < |all| && Ascends(all)
  {
    && (all[i].sector <= all[i - 1].End() || driver(Together(all[c..i]), all[i]))
    && |Together(all[c..i]).iov| + |all[i].iov| + 1 <= 1024
  }

  /** Request `r` is the requests from `c` to `e` in one. */
  ghost predicate RunIs(all: seq<Request>, c: nat, e: nat, r: Request, driver: Driver)
    requires Ascends(all)
  {
    c < e <= |all| && r == Together(all[c..e]) && forall i :: c < i < e ==> Joins(all, c, i, driver)
  }

  /** That is not so for request `c` and the run `x` before it. */
  ghost predicate Parted(all: seq<Request>, x: Request, c: nat, driver: Driver) {
    && 0 < c < |all|
    && (|x.iov| + |all[c].iov| + 1 > 1024 || (all[c].sector > all[c - 1].End() && !driver(x, all[c])))
  }

  /** Request `k` of the result is the run from `cuts[k]` to `cuts[k + 1]`, and none that could have joined the run
      before it. */
  ghost predicate Group(all: seq<Request>, rs: seq<Request>, cuts: seq<nat>, driver: Driver, k: nat)
    requires k < |rs| && |cuts| == |rs| + 1 && Ascends(all)
  {
    RunIs(all, cuts[k], cuts[k + 1], rs[k], driver) && (k > 0 ==> Parted(all, rs[k - 1], cuts[k], driver))
  }

  /** The requests are divided into runs, up to the last of `cuts`. */
  ghost predicate Grouped(all: seq<Request>, rs: seq<Request>, cuts: seq<nat>, driver: Driver)
    requires Ascends(all)
  {
    && |cuts| == |rs| + 1 >= 2 && cuts[0] == 0 && cuts[|rs|] <= |all|
    && forall k :: 0 <= k < |rs| ==> Group(all, rs, cuts, driver, k)
  }

  lemma FirstGroup(all: seq<Request>, driver: Driver)
    requires all != [] && Ascends(all)
    ensures Grouped(all, [all[0]], [0, 1], driver)
  {
    assert all[0..1] == [all[0]];
    hide Ascends;
  }

  lemma GroupedSlice(all: seq<Request>, c: nat, i: nat)
    requires Ascends(all) && AllValid(all) && c < i < |all|
    ensures Together(all[c..i]).Valid() && Together(all[c..i]).End() == all[i - 1].End()
    ensures Together(all[c..i + 1]) == Merged(Together(all[c..i]), all[i])
  {
    hide Request.Valid, Merged;
    assert all[c..i + 1][..i - c] == all[c..i];
    assert forall r :: r in all[c..i] ==> r in all;
    TogetherIs(all[c..i]);
  }

  lemma RunGrows(all: seq<Request>, c: nat, i: nat, r: Request, driver: Driver)
    requires Ascends(all) && AllValid(all) && i < |all| && RunIs(all, c, i, r, driver) && ShouldMerge(r, all[i], driver)
    ensures r.sector <= all[i].sector && r.Valid() && RunIs(all, c, i + 1, Merged(r, all[i]), driver)
  {
    hide Request.Valid, Merged, Together;
    GroupedSlice(all, c, i);
    assert all[c].sector <= all[i].sector;
  }

  lemma RunEnds(all: seq<Request>, c: nat, i: nat, r: Request, driver: Driver)
    requires Ascends(all) && AllValid(all) && i < |all| && RunIs(all, c, i, r, driver)
    requires !ShouldMerge(r, all[i], driver)
    ensures Parted(all, r, i, driver) && RunIs(all, i, i + 1, all[i], driver)
  {
    hide Request.Valid, Merged;
    GroupedSlice(all, c, i);
    assert all[i..i + 1] == [all[i]];
  }

  /** The next request joins the last group. */
  lemma GroupGrows(all: seq<Request>, rs: seq<Request>, cuts: seq<nat>, driver: Driver)
    requires Ascends(all) && AllValid(all) && Grouped(all, rs, cuts, driver) && cuts[|rs|] < |all|
    requires ShouldMerge(rs[|rs| - 1], all[cuts[|rs|]], driver)
    ensures var last, i := |rs| - 1, cuts[|rs|];
            && rs[last].sector <= all[i].sector && rs[last].Valid()
            && Grouped(all, rs[..last] + [Merged(rs[last], all[i])], cuts[..|rs|] + [i + 1], driver)
  {
    hide Request.Valid, Merged, RunIs, Parted, Ascends, AllValid;
    var last, i := |rs| - 1, cuts[|rs|];
    assert Group(all, rs, cuts, driver, last);
    RunGrows(all, cuts[last], i, rs[last], driver);
    var rs', cuts' := rs[..last] + [Merged(rs[last], all[i])], cuts[..|rs|] + [i + 1];
    forall k | 0 <= k < |rs'|
      ensures Group(all, rs', cuts', driver, k)
    {
      assert Group(all, rs, cuts, driver, k);
    }
  }

  /** The next request begins another group. */
  lemma GroupBegins(all: seq<Request>, rs: seq<Request>, cuts: seq<nat>, driver: Driver)
    requires Ascends(all) && AllValid(all) && Grouped(all, rs, cuts, driver) && cuts[|rs|] < |all|
    requires !ShouldMerge(rs[|rs| - 1], all[cuts[|rs|]], driver)
    ensures Grouped(all, rs + [all[cuts[|rs|]]], cuts + [cuts[|rs|] + 1], driver)
  {
    hide Request.Valid, Merged, RunIs, Parted, Ascends, AllValid;
    var last, i := |rs| - 1, cuts[|rs|];
    assert Group(all, rs, cuts, driver, last);
    RunEnds(all, cuts[last], i, rs[last], driver);
    var rs', cuts' := rs + [all[i]], cuts + [i + 1];
    forall k | 0 <= k < |rs'|
      ensures Group(all, rs', cuts', driver, k)
    {
      if k < |rs| {
        assert Group(all, rs, cuts, driver, k);
      }
    }
  }

  /** Merging goes on from groups that reach up to some request to groups of all requests. */
  lemma {:induction false} GroupsGoOn(all: seq<Request>, rs: seq<Request>, cuts: seq<nat>, driver: Driver)
    returns (out: seq<nat>)
    requires Ascends(all) && AllValid(all) && Grouped(all, rs, cuts, driver)
    requires Sorted(rs[|rs| - 1], all[cuts[|rs|]..])
    ensures var res := MergeAll(rs[..|rs| - 1], rs[|rs| - 1], all[cuts[|rs|]..], driver);
            Grouped(all, res, out, driver) && out[|res|] == |all|
    decreases |all| - cuts[|rs|]
  {
    hide Request.Valid, Merged, Group, MergeAll, Sorted, Ascends, AllValid;
    var last, i := |rs| - 1, cuts[|rs|];
    var pre, a := rs[..last], rs[last];
    assert pre + [a] == rs;
    if i == |all| {
      assert all[i..] == [];
      MergeNone(pre, a, driver);
      out := cuts;
    } else {
      assert all[i..][0] == all[i] && all[i..][1..] == all[i + 1..];
      MergeStep(pre, a, all[i..], driver);
      if ShouldMerge(a, all[i], driver) {
        GroupGrows(all, rs, cuts, driver);
        var rs' := pre + [Merged(a, all[i])];
        assert rs'[..last] == pre;
        out := GroupsGoOn(all, rs', cuts[..|rs|] + [i + 1], driver);
      } else {
        GroupBegins(all, rs, cuts, driver);
        assert (rs + [all[i]])[..|rs|] == rs;
        out := GroupsGoOn(all, rs + [all[i]], cuts + [i + 1], driver);
      }
    }
  }

  /** Which requests are merged, for any requests and any driver: the result divides the sorted requests into runs. A
      request joins the run before it exactly when it starts no later than the last request there ends, or the
      driver asks for it, and the vectors fit. */
  lemma MergeGroups(all: seq<Request>, driver: Driver) returns (cuts: seq<nat>)
    requires all != [] && Sorted(all[0], all[1..]) && AllValid(all)
    ensures Ascends(all)
    ensures var res := MergeAll([], all[0], all[1..], driver);
            Grouped(all, res, cuts, driver) && cuts[|res|] == |all|
  {
    hide Sorted, MergeAll, Group;
    SortedAscends(all);
    FirstGroup(all, driver);
    assert [all[0]][..0] == [];
    cuts := GroupsGoOn(all, [all[0]], [0, 1], driver);
  }

  lemma {:induction false} BuffersSplit(g: seq<Request>, i: nat)
    requires i <= |g|
    ensures Buffers(g) == Buffers(g[..i]) + Buffers(g[i..])
    decreases |g|
  {
    if i == |g| {
      assert g[..i] == g && g[i..] == [];
    } else {
      var n := |g| - 1;
      BuffersSplit(g[..n], i);
      assert g[..n][..i] == g[..i] && g[..n][i..] == g[i..][..n - i];
    }
  }

  /** Where the vectors of all requests fit together, with one more buffer for each merge, all that touch or
      overlap are merged: each request of the result ends before the next one begins. */
  lemma AllMerged(all: seq<Request>, driver: Driver, k: nat)
    requires all != [] && Sorted(all[0], all[1..]) && AllValid(all) && Buffers(all) + |all| - 1 <= 1024
    requires k + 1 < |MergeAll([], all[0], all[1..], driver)|
    ensures var res := MergeAll([], all[0], all[1..], driver); res[k].End() < res[k + 1].sector
  {
    hide Sorted, MergeAll, Request.Valid, RunIs, Parted, Ascends, AllValid, Buffers;
    var cuts := MergeGroups(all, driver);
    var res := MergeAll([], all[0], all[1..], driver);
    assert Group(all, res, cuts, driver, k) && Group(all, res, cuts, driver, k + 1);
    RunsApart(all, cuts[k], cuts[k + 1], cuts[k + 2], res[k], res[k + 1], driver);
  }

  /** A run reaches from the start of its first request to the end of its last. */
  lemma RunShape(all: seq<Request>, c: nat, e: nat, r: Request, driver: Driver)
    requires Ascends(all) && AllValid(all) && RunIs(all, c, e, r, driver)
    ensures c < e <= |all| && r.sector == all[c].sector && r.End() == all[e - 1].End()
    ensures r.Valid() && |r.iov| <= Buffers(all[c..e]) + (e - c) - 1
  {
    hide Request.Valid, Merged, Together, Buffers, Joins;
    assert forall r :: r in all[c..e] ==> r in all;
    TogetherIs(all[c..e]);
  }

  lemma RunsApart(all: seq<Request>, c: nat, e: nat, f: nat, x: Request, y: Request, driver: Driver)
    requires Ascends(all) && AllValid(all) && Buffers(all) + |all| - 1 <= 1024
    requires RunIs(all, c, e, x, driver) && RunIs(all, e, f, y, driver) && Parted(all, x, e, driver)
    ensures x.End() < y.sector
  {
    hide Request.Valid, Merged, Together, Buffers, Joins;
    BuffersOfRun(all, c, e);
    RunShape(all, c, e, x, driver);
    RunShape(all, e, f, y, driver);
  }

  lemma BuffersOfRun(all: seq<Request>, c: nat, e: nat)
    requires c <= e < |all|
    ensures Buffers(all[c..e]) + |all[e].iov| <= Buffers(all)
  {
    BuffersSplit(all, e + 1);
    BuffersSplit(all[..e + 1], c);
    assert all[..e + 1][c..][..e - c] == all[c..e];
  }

  /** A driver without an opinion has no gap filled: the result writes only where a request does. */
  lemma NothingElseWritten(all: seq<Request>, p: nat)
    requires all != [] && Sorted(all[0], all[1..]) && AllValid(all) && Last(all, p).None?
    ensures Last(MergeAll([], all[0], all[1..], NoDriver()), p).None?
  {
    hide Sorted, MergeAll;
    assert all == [all[0]] + all[1..];
    LastConcat([all[0]], all[1..], p);
    assert all[0] in all && forall r :: r in all[1..] ==> r in all;
    MergeSkips([], all[0], all[1..], p);
  }

  /** Two requests, the second of which starts no later than the first ends, become one, from the start of the first to
      the end of the second; a gap keeps them apart, unless the driver wants it filled. */
  lemma TwoRequests(a: Request, b: Request, driver: Driver)
    requires a.Valid() && b.Valid() && a.sector <= b.sector
    ensures var res := MergeAll([], a, [b], driver);
            if (b.sector <= a.sector + a.nbSectors || driver(a, b)) && |a.iov| + |b.iov| + 1 <= 1024 then
              |res| == 1 && res[0].sector == a.sector && res[0].End() == b.End()
            else res == [a, b]
  {
    hide Flatten;
    MergedData(a, b);
    assert [] + [a] + [b] == [a, b];
  }

  // ---------------------------------------------------------------- in place

  lemma {:induction false} MergeKeepsLimit(pre: seq<Request>, a: Request, rest: seq<Request>, driver: Driver)
    requires Sorted(a, rest) && a.Valid() && AllValid(rest)
    requires forall r :: r in pre || r == a || r in rest ==> |r.iov| <= IOV_MAX
    ensures forall r :: r in MergeAll(pre, a, rest, driver) ==> |r.iov| <= IOV_MAX
    ensures |pre| < |MergeAll(pre, a, rest, driver)| <= |pre| + 1 + |rest|
    decreases |rest|
  {
    if rest != [] {
      var b := rest[0];
      assert b in rest && forall r :: r in rest[1..] ==> r in rest;
      if ShouldMerge(a, b, driver) {
        MergedData(a, b);
        MergeKeepsLimit(pre, Merged(a, b), rest[1..], driver);
      } else {
        MergeKeepsLimit(pre + [a], b, rest[1..], driver);
      }
    }
  }

  /** One step of merging. */
  lemma MergeStep(pre: seq<Request>, a: Request, rest: seq<Request>, driver: Driver)
    requires Sorted(a, rest) && rest != []
    ensures Sorted(rest[0], rest[1..]) && a.sector <= rest[0].sector && Sorted(Merged(a, rest[0]), rest[1..])
    ensures MergeAll(pre, a, rest, driver) ==
            if ShouldMerge(a, rest[0], driver) then MergeAll(pre, Merged(a, rest[0]), rest[1..], driver)
            else MergeAll(pre + [a], rest[0], rest[1..], driver)
  {
    SortedMerged(a, rest);
  }

  lemma MergeNone(pre: seq<Request>, a: Request, driver: Driver)
    ensures Sorted(a, []) && MergeAll(pre, a, [], driver) == pre + [a]
  {
  }

  lemma GroupedSize(all: seq<Request>, rs: seq<Request>, cuts: seq<nat>, driver: Driver)
    requires Ascends(all) && Grouped(all, rs, cuts, driver)
    ensures |cuts| == |rs| + 1
  {
  }

  /** Merges the sorted requests in place and returns how many remain. */
  method MergeSorted(reqs: array<Request>, num: nat, driver: Driver) returns (n: nat, ghost cuts: seq<nat>)
    requires 0 < num <= reqs.Length && Sorted(reqs[0], reqs[1..num]) && AllValid(reqs[..num])
    modifies reqs
    ensures 0 < n <= num
    ensures reqs[..n] == MergeAll([], old(reqs[0]), old(reqs[1..num]), driver)
    ensures var all := old(reqs[..num]); Ascends(all) && Grouped(all, reqs[..n], cuts, driver) && cuts[n] == num
    ensures forall k :: num <= k < reqs.Length ==> reqs[k] == old(reqs[k])
  {
    hide Request.Valid, Request.Data, Merged, Flatten, MergeAll, Sorted, Grouped, Ascends, Together, ShouldMerge;
    ghost var all := reqs[..num];
    ghost var goal := MergeAll([], all[0], reqs[1..num], driver);
    assert reqs[1..num] == all[1..];
    var outidx := 0;
    assert reqs[..0] == [];
    for i := 1 to num
      invariant 0 <= outidx < i
      invariant forall k :: i <= k < reqs.Length ==> reqs[k] == old(reqs[k])
      invariant reqs[outidx].Valid() && Sorted(reqs[outidx], all[i..])
      invariant MergeAll(reqs[..outidx], reqs[outidx], all[i..], driver) == goal
    {
      assert all[i..][0] == all[i] == reqs[i] && all[i..][1..] == all[i + 1..];
      assert all[i] in all;
      MergeStep(reqs[..outidx], reqs[outidx], all[i..], driver);
      var merge := Decide(reqs[outidx], reqs[i], driver);
      ghost var done := reqs[..outidx];
      if merge {
        MergedData(reqs[outidx], reqs[i]);
        var merged := MergeTwo(reqs[outidx], reqs[i]);
        reqs[outidx] := merged;
        assert reqs[..outidx] == done;
      } else {
        done := done + [reqs[outidx]];
        outidx := outidx + 1;
        reqs[outidx] := reqs[i];
        assert reqs[..outidx] == done;
      }
    }
    assert all[num..] == [];
    MergeNone(reqs[..outidx], reqs[outidx], driver);
    assert reqs[..outidx + 1] == reqs[..outidx] + [reqs[outidx]];
    n := outidx + 1;
    cuts := MergeGroups(all, driver);
    GroupedSize(all, goal, cuts, driver);
  }

  /** Whether two neighbours are merged. */
  method Decide(a: Request, b: Request, driver: Driver) returns (merge: bool)
    ensures merge <==> ShouldMerge(a, b, driver)
  {
    var oldreqLast := a.sector + a.nbSectors;
    merge := b.sector <= oldreqLast;
    if !merge {
      merge := driver(a, b);
    }
    if |a.iov| + |b.iov| + 1 > IOV_MAX {
      merge := false;
    }
  }

  /** One merge, through the vector operations. */
  method MergeTwo(a: Request, b: Request) returns (m: Request)
    requires a.sector <= b.sector && a.Valid() && b.Valid()
    ensures m == Merged(a, b)
  {
    hide Flatten, Take;
    var qiov := new QemuIoVector();
    qiov.Concat(a.iov, (b.sector - a.sector) * SECTOR_SIZE);
    ghost var first := Take(a.iov, (b.sector - a.sector) * SECTOR_SIZE);
    assert qiov.iov == first;
    if b.sector > a.End() {
      qiov.Add(Zeros((b.sector - a.End()) * SECTOR_SIZE));
    } else {
      assert first + [] == first;
    }
    qiov.Concat(b.iov, |b.Data()|);
    m := Request(a.sector, qiov.size / SECTOR_SIZE, qiov.iov);
  }
}
