/** Scatter-gather vectors (qemu_iovec_*): a list of buffers and their total size. */
module IoVector {
  import opened Sectors

  type Iov = seq<seq<Byte>>

  /** The bytes of a vector, one buffer after the other. */
  function Flatten(iov: Iov): seq<Byte> {
    if iov == [] then [] else iov[0] + Flatten(iov[1..])
  }

  lemma {:induction false} FlattenConcat(a: Iov, b: Iov)
    ensures Flatten(a + b) == Flatten(a) + Flatten(b)
  {
    if a == [] {
      assert a + b == b;
    } else {
      assert (a + b)[1..] == a[1..] + b;
      FlattenConcat(a[1..], b);
    }
  }

  lemma FlattenNone()
    ensures Flatten([]) == []
  {
  }

  lemma FlattenOne(s: seq<Byte>)
    ensures Flatten([s]) == s
  {
    assert Flatten([s]) == s + Flatten([]);
  }

  /** The buffers that hold the first `n` bytes of `iov`, the last one cut to fit. */
  function Take(iov: Iov, n: nat): Iov {
    if iov == [] || n == 0 then []
    else if |iov[0]| > n then [iov[0][..n]]
    else [iov[0]] + Take(iov[1..], n - |iov[0]|)
  }

  lemma {:induction false} TakeIsPrefix(iov: Iov, n: nat)
    ensures Flatten(Take(iov, n)) == Flatten(iov)[..Min(n, |Flatten(iov)|)]
    ensures |Take(iov, n)| <= |iov|
  {
    if iov != [] && n != 0 {
      if |iov[0]| > n {
        FlattenOne(iov[0][..n]);
      } else {
        TakeIsPrefix(iov[1..], n - |iov[0]|);
        assert ([iov[0]] + Take(iov[1..], n - |iov[0]|))[1..] == Take(iov[1..], n - |iov[0]|);
      }
    }
  }

  /** They are the first buffers as they are, but for the last, which may be cut; all of them when they hold no more. */
  lemma {:induction false} TakeBuffers(iov: Iov, n: nat)
    ensures |Take(iov, n)| <= |iov| && forall k :: 0 <= k < |Take(iov, n)| ==> Take(iov, n)[k] <= iov[k]
    ensures forall k :: 0 <= k < |Take(iov, n)| - 1 ==> Take(iov, n)[k] == iov[k]
    ensures n > |Flatten(iov)| ==> Take(iov, n) == iov
  {
    if iov != [] && n != 0 && |iov[0]| <= n {
      TakeBuffers(iov[1..], n - |iov[0]|);
    }
  }

  class QemuIoVector {
    var iov: Iov
    var size: nat

    ghost predicate Valid()
      reads this
    {
      size == |Flatten(iov)|
    }

    constructor ()
      ensures Valid() && iov == []
    {
      iov := [];
      size := 0;
    }

    method Add(buf: seq<Byte>)
      requires Valid()
      modifies this
      ensures Valid() && iov == old(iov) + [buf]
    {
      FlattenConcat(iov, [buf]);
      FlattenOne(buf);
      iov := iov + [buf];
      size := size + |buf|;
    }

    /** Appends the buffers of `src` until it is used up or `limit` bytes are appended, cutting the
        last buffer where needed. */
    method Concat(src: Iov, limit: nat)
      requires Valid()
      modifies this
      ensures Valid() && iov == old(iov) + Take(src, limit)
    {
      var done: nat := 0;
      var i := 0;
      ghost var start := iov;
      while i < |src| && done != limit
        invariant 0 <= i <= |src| && done <= limit && Valid()
        invariant start + Take(src, limit) == iov + Take(src[i..], limit - done)
      {
        assert src[i..][0] == src[i] && src[i..][1..] == src[i + 1..];
        if done + |src[i]| > limit {
          Add(src[i][..limit - done]);
          return;
        }
        ghost var before := iov;
        Add(src[i]);
        assert before + ([src[i]] + Take(src[i + 1..], limit - done - |src[i]|)) ==
               iov + Take(src[i + 1..], limit - done - |src[i]|);
        done := done + |src[i]|;
        i := i + 1;
      }
      assert Take(src[i..], limit - done) == [];
    }

    /** The bytes of the vector in one buffer. */
    method ToBuffer() returns (buf: seq<Byte>)
      ensures buf == Flatten(iov)
    {
      buf := [];
      for i := 0 to |iov|
        invariant buf == Flatten(iov[..i])
      {
        assert iov[..i + 1] == iov[..i] + [iov[i]];
        FlattenConcat(iov[..i], [iov[i]]);
        FlattenOne(iov[i]);
        buf := buf + iov[i];
      }
      assert iov[..|iov|] == iov;
    }

    /** Fills the buffers of the vector, in order, with the first `count` bytes of `buf`; what they
        held beyond stays. */
    method FromBuffer(buf: seq<Byte>, count: nat)
      requires Valid() && count <= |buf|
      modifies this`iov
      ensures Valid() && |iov| == |old(iov)| && forall i :: 0 <= i < |iov| ==> |iov[i]| == |old(iov)[i]|
      ensures var n := Min(count, size);
              Flatten(iov) == buf[..n] + Flatten(old(iov))[n..]
    {
      hide Flatten;
      FlattenNone();
      ghost var iov0 := iov;
      assert iov[..0] == [] == iov0[..0];
      var p, left := 0, count;
      var i := 0;
      while i < |iov| && left != 0
        invariant 0 <= i <= |iov| == |iov0| && p + left == count
        invariant p == Min(count, |Flatten(iov0[..i])|)
        invariant left != 0 ==> p == |Flatten(iov0[..i])|
        invariant forall j :: 0 <= j < |iov| ==> |iov[j]| == |iov0[j]|
        invariant iov[i..] == iov0[i..]
        invariant Flatten(iov[..i]) == buf[..p] + Flatten(iov0[..i])[p..]
      {
        var copy := left;
        if copy > |iov[i]| {
          copy := |iov[i]|;
        }
        ghost var before := iov;
        iov := iov[i := buf[p..p + copy] + iov[i][copy..]];
        FillOne(iov0, before, iov, buf, p, copy, i);
        p := p + copy;
        left := left - copy;
        i := i + 1;
      }
      FillEnd(iov0, iov, buf, p, i);
    }
  }

  /** Buffer `i` gets the next `copy` bytes. */
  lemma FillOne(iov0: Iov, before: Iov, after: Iov, buf: seq<Byte>, p: nat, copy: nat, i: nat)
    requires i < |iov0| == |before| && before[i..] == iov0[i..] && p + copy <= |buf| && copy <= |before[i]|
    requires after == before[i := buf[p..p + copy] + before[i][copy..]]
    requires p == |Flatten(iov0[..i])| && Flatten(before[..i]) == buf[..p] + Flatten(iov0[..i])[p..]
    ensures after[i + 1..] == iov0[i + 1..] && |after[i]| == |iov0[i]|
    ensures |Flatten(iov0[..i + 1])| == p + |iov0[i]|
    ensures Flatten(after[..i + 1]) == buf[..p + copy] + Flatten(iov0[..i + 1])[p + copy..]
  {
    hide Flatten;
    SplitAt(iov0, i);
    SplitAt(after, i);
    assert after[..i] == before[..i];
    assert before[i..][0] == iov0[i..][0] && before[i..][1..] == iov0[i..][1..];
    FillStep(buf, p, copy, Flatten(iov0[..i]), iov0[i]);
  }

  lemma FillEnd(iov0: Iov, iov: Iov, buf: seq<Byte>, p: nat, i: nat)
    requires i <= |iov0| == |iov| && iov0[i..] == iov[i..] && p <= |buf| && p <= |Flatten(iov0[..i])|
    requires Flatten(iov[..i]) == buf[..p] + Flatten(iov0[..i])[p..]
    ensures |Flatten(iov)| == |Flatten(iov0)| >= p && Flatten(iov) == buf[..p] + Flatten(iov0)[p..]
    ensures i == |iov0| ==> Flatten(iov0[..i]) == Flatten(iov0)
  {
    hide Flatten;
    RestSame(iov0, iov, i);
    FillRest(buf, p, Flatten(iov0[..i]), Flatten(iov0[i..]));
    assert i == |iov0| ==> iov0[..i] == iov0;
  }

  lemma FillRest(buf: seq<Byte>, p: nat, done: seq<Byte>, rest: seq<Byte>)
    requires p <= |buf| && p <= |done|
    ensures buf[..p] + done[p..] + rest == buf[..p] + (done + rest)[p..]
  {
  }

  lemma FillStep(buf: seq<Byte>, p: nat, copy: nat, done: seq<Byte>, next: seq<Byte>)
    requires p + copy <= |buf| && p == |done| && copy <= |next|
    ensures buf[..p] + done[p..] + (buf[p..p + copy] + next[copy..]) == buf[..p + copy] + (done + next)[p + copy..]
  {
  }

  lemma SplitAt(iov: Iov, i: nat)
    requires i < |iov|
    ensures Flatten(iov[..i + 1]) == Flatten(iov[..i]) + iov[i]
  {
    hide Flatten;
    assert iov[..i + 1] == iov[..i] + [iov[i]];
    FlattenConcat(iov[..i], [iov[i]]);
    FlattenOne(iov[i]);
  }

  lemma RestSame(a: Iov, b: Iov, i: nat)
    requires i <= |a| == |b| && a[i..] == b[i..]
    ensures Flatten(a) == Flatten(a[..i]) + Flatten(a[i..]) && Flatten(b) == Flatten(b[..i]) + Flatten(a[i..])
  {
    hide Flatten;
    FlattenConcat(a[..i], a[i..]);
    FlattenConcat(b[..i], b[i..]);
    assert a == a[..i] + a[i..] && b == b[..i] + b[i..];
  }
}
