/** Committing a copy-on-write image into its backing file (bdrv_commit). */
module BlockCommit {
  import opened Errno
  import opened Sectors
  import opened DirtyBitmap
  import opened BlockIo

  const MAX_EXTENT: nat := 65536

  function ZeroSector(): (z: Disk)
    ensures |z| == SECTOR_SIZE && forall k :: 0 <= k < |z| ==> z[k] == 0
  {
    seq(SECTOR_SIZE, _ => 0)
  }

  predicate HasSector(d: Disk, s: nat) {
    (s + 1) * SECTOR_SIZE <= |d|
  }

  lemma SectorOfSplice(d: Disk, s: nat, buf: Disk, t: nat)
    requires |buf| == SECTOR_SIZE && HasSector(d, s) && HasSector(d, t)
    ensures Sector(Splice(d, s * SECTOR_SIZE, buf), t) == if t == s then buf else Sector(d, t)
  {
  }

  /** What an image shows at sector `s`: its own sector, else that of the backing file, else zeros. */
  function Shown(own: seq<bool>, data: Disk, backing: Disk, s: nat): Disk
    requires s < |own| && |data| == |own| * SECTOR_SIZE
  {
    if own[s] then Sector(data, s)
    else if HasSector(backing, s) then Sector(backing, s)
    else ZeroSector()
  }

  /** The first `n` sectors of the image have been copied to the backing file, and nothing else changed. */
  ghost predicate Copied(own: seq<bool>, data: Disk, before: Disk, backing: Disk, n: nat)
    requires |data| == |own| * SECTOR_SIZE
  {
    && |backing| == |before|
    && (forall s: nat :: s < n && s < |own| && own[s] ==> HasSector(backing, s))
    && (forall s: nat :: HasSector(backing, s) ==>
                         Sector(backing, s) ==
                         if s < n && s < |own| && own[s] then Sector(data, s) else Sector(before, s))
  }

  lemma CopyOne(own: seq<bool>, data: Disk, before: Disk, backing: Disk, n: nat)
    requires |data| == |own| * SECTOR_SIZE && n < |own| && own[n]
    requires Copied(own, data, before, backing, n) && HasSector(backing, n)
    ensures Copied(own, data, before, Splice(backing, n * SECTOR_SIZE, Sector(data, n)), n + 1)
  {
    var after := Splice(backing, n * SECTOR_SIZE, Sector(data, n));
    forall s: nat | HasSector(after, s)
      ensures Sector(after, s) == if s < n + 1 && s < |own| && own[s] then Sector(data, s) else Sector(before, s)
    {
      SectorOfSplice(backing, n, Sector(data, n), s);
    }
  }

  lemma SkipUnallocated(own: seq<bool>, data: Disk, before: Disk, backing: Disk, n: nat, m: nat)
    requires |data| == |own| * SECTOR_SIZE && n <= m
    requires Copied(own, data, before, backing, n) && forall s :: n <= s < m && s < |own| ==> !own[s]
    ensures Copied(own, data, before, backing, m)
  {
  }

  /** However far the copying got, the image shows what it showed before; when it is complete the backing
      file shows it too, so that it still does when the image is emptied. */
  lemma CopyingKeepsShown(own: seq<bool>, data: Disk, before: Disk, backing: Disk, n: nat, s: nat)
    requires |data| == |own| * SECTOR_SIZE && s < |own| && Copied(own, data, before, backing, n)
    ensures Shown(own, data, backing, s) == Shown(own, data, before, s)
    ensures n >= |own| ==> Shown(seq(|own|, _ => false), data, backing, s) == Shown(own, data, before, s)
    ensures n >= |own| && HasSector(backing, s) ==> Sector(backing, s) == Shown(own, data, before, s)
  {
  }

  lemma AllKept(own: seq<bool>, data: Disk, before: Disk, backing: Disk, n: nat)
    requires |data| == |own| * SECTOR_SIZE && Copied(own, data, before, backing, n)
    ensures forall s: nat :: s < |own| ==> Shown(own, data, backing, s) == Shown(own, data, before, s)
    ensures n >= |own| ==> forall s: nat :: s < |own| ==>
              Shown(seq(|own|, _ => false), data, backing, s) == Shown(own, data, before, s)
    ensures n >= |own| ==> forall s: nat :: s < |own| && HasSector(backing, s) ==>
              Sector(backing, s) == Shown(own, data, before, s)
  {
    forall s: nat | s < |own|
      ensures Shown(own, data, backing, s) == Shown(own, data, before, s)
      ensures n >= |own| ==> Shown(seq(|own|, _ => false), data, backing, s) == Shown(own, data, before, s)
      ensures n >= |own| && HasSector(backing, s) ==> Sector(backing, s) == Shown(own, data, before, s)
    {
      CopyingKeepsShown(own, data, before, backing, n, s);
    }
  }

  class CowImage {
    const inserted: bool
    var readOnly: bool
    const backing: BlockDevice?
    var own: seq<bool>
    var data: Disk
    /** Whether the format can drop all its sectors. */
    const canEmpty: bool
    var failures: nat

    ghost predicate Valid()
      reads this, backing
    {
      && |data| == |own| * SECTOR_SIZE
      && (backing != null ==> backing.Valid())
    }

    function BackingContent(): Disk
      reads backing
    {
      if backing == null then [] else backing.content
    }

    function BackingBitmap(): array?<Word>
      reads backing
    {
      if backing == null then null else backing.bitmap
    }

    function Visible(s: nat): Disk
      requires |data| == |own| * SECTOR_SIZE && s < |own|
      reads this, backing
    {
      Shown(own, data, BackingContent(), s)
    }

    /** Whether the sectors from `i` on are the image's own, and for how many of them this holds. */
    method IsAllocated(i: nat) returns (present: bool, n: nat)
      requires i < |own|
      ensures 1 <= n <= MAX_EXTENT && i + n <= |own|
      ensures forall s :: i <= s < i + n ==> own[s] == present
    {
      present := own[i];
      n :| 1 <= n <= MAX_EXTENT && i + n <= |own| && forall s :: i <= s < i + n ==> own[s] == present;
    }

    method ReadSector(s: nat) returns (ret: int, buf: Disk)
      requires Valid() && s < |own|
      modifies this`failures
      ensures ret <= 0 && old(failures) <= failures && (ret < 0 <==> failures > old(failures))
      ensures ret == 0 ==> buf == Visible(s)
    {
      if * {
        failures := failures + 1;
        return -EIO, [];
      }
      return 0, Visible(s);
    }

    /** Copies the allocated sectors `i` to `i + n` to the backing file. */
    method CommitExtent(i: nat, n: nat, ghost before: Disk) returns (ret: int, ghost done: nat)
      requires Valid() && backing != null && i + n <= |own| && forall s :: i <= s < i + n ==> own[s]
      requires Copied(own, data, before, backing.content, i)
      modifies this`failures, backing`failures, backing`content, backing.bitmap
      ensures Valid() && ret <= 0 && done <= |own| && Copied(own, data, before, backing.content, done)
      ensures ret == 0 ==> done == i + n
    {
      done := i;
      for j := 0 to n
        invariant Valid() && done == i + j && Copied(own, data, before, backing.content, done)
      {
        hide Copied;
        var s := i + j;
        var r, sector := ReadSector(s);
        if r != 0 {
          return -EIO, done;
        }
        assert sector == Sector(data, s);
        ghost var prev := backing.content;
        var w := backing.Write(s, sector, 1);
        if w != 0 {
          return -EIO, done;
        }
        CopyOne(own, data, before, prev, s);
        done := done + 1;
      }
      ret := 0;
    }

    /** Copies every sector of its own to the backing file, then drops them from the image. Whatever fails,
        the image shows what it showed before. */
    method Commit() returns (ret: int)
      requires Valid()
      modifies this`failures, this`own, backing, BackingBitmap()
      ensures Valid() && ret <= 0 && |own| == old(|own|)
      ensures forall s: nat :: s < |own| ==> Visible(s) == old(Visible(s))
      ensures ret == 0 ==> backing != null && forall s: nat :: s < |own| && HasSector(backing.content, s)
                                                ==> Sector(backing.content, s) == old(Visible(s))
      ensures ret == 0 ==> forall s: nat :: s < |own| && old(own[s]) ==> HasSector(backing.content, s)
      ensures ret == 0 && canEmpty ==> forall s :: 0 <= s < |own| ==> !own[s]
      ensures ret < 0 || !canEmpty ==> own == old(own)
      ensures ret < 0 ==>
                ret == if !inserted then -ENOMEDIUM else if readOnly then -EACCES
                       else if backing == null then -ENOTSUP else -EIO
    {
      if !inserted {
        return -ENOMEDIUM;
      }
      if readOnly {
        return -EACCES;
      }
      if backing == null {
        return -ENOTSUP;
      }
      ghost var before := backing.content;
      var total := |own|;
      var i := 0;
      while i < total
        invariant Valid() && i <= total == |own| && own == old(own)
        invariant backing.bitmap == old(backing.bitmap)
        invariant Copied(own, data, before, backing.content, i)
      {
        var present, n := IsAllocated(i);
        if present {
          var r, done := CommitExtent(i, n, before);
          if r != 0 {
            AllKept(own, data, before, backing.content, done);
            return -EIO;
          }
        } else {
          SkipUnallocated(own, data, before, backing.content, i, i + n);
        }
        i := i + n;
      }
      AllKept(own, data, before, backing.content, total);
      if canEmpty {
        if * {
          failures := failures + 1;
          return -EIO;
        }
        own := seq(total, _ => false);
      }
      ret := 0;
    }
  }
}
