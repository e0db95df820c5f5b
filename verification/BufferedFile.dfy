/** The buffered, rate-limited output stream of a migration (buffered_file.c). */
module BufferedFile {
  import opened Errno
  import opened Sectors

  /** The stream and its backend: what is pending, what the backend has accepted, and its answers to come. */
  datatype File = File(hasError: bool, freeze: bool, xfer: nat, limit: nat, pending: seq<Byte>,
                       accepted: seq<Byte>, answers: seq<int>)
  {
    /** All bytes the stream is responsible for, in order. */
    function Stream(): seq<Byte> {
      accepted + pending
    }
  }

  /** What a backend says when offered data: how much it takes, that it is busy, or that it failed. */
  datatype Answer = Took(n: nat) | Busy | Failed

  /** The next answer to an offer of `size` bytes; a backend that has no more to say fails. */
  function Offer(answers: seq<int>, size: nat): (a: Answer)
    requires size > 0
    ensures a.Took? ==> 0 < a.n <= size
  {
    if answers == [] then Failed
    else if answers[0] == -EAGAIN then Busy
    else if answers[0] <= 0 then Failed
    else Took(Min(answers[0], size))
  }

  function Rest(answers: seq<int>): seq<int> {
    if answers == [] then [] else answers[1..]
  }

  // ---------------------------------------------------------------- what the operations do

  function Flush(f: File): File
    decreases |f.pending|
  {
    if f.hasError || f.pending == [] then f
    else match Offer(f.answers, |f.pending|)
      case Busy => f.(freeze := true, answers := Rest(f.answers))
      case Failed => f.(hasError := true, answers := Rest(f.answers))
      case Took(n) =>
        Flush(f.(accepted := f.accepted + f.pending[..n], pending := f.pending[n..], answers := Rest(f.answers)))
  }

  /** Offers `data` to the backend directly, until it is busy or the rate limit is exceeded; what is left
      is appended to the pending bytes. */
  function Direct(f: File, data: seq<Byte>): File
    decreases |data|
  {
    if f.freeze || data == [] || f.xfer > f.limit then f.(pending := f.pending + data)
    else match Offer(f.answers, |data|)
      case Busy => f.(freeze := true, answers := Rest(f.answers), pending := f.pending + data)
      case Failed => f.(hasError := true, answers := Rest(f.answers))
      case Took(n) =>
        Direct(f.(accepted := f.accepted + data[..n], xfer := f.xfer + n, answers := Rest(f.answers)), data[n..])
  }

  function Put(f: File, data: seq<Byte>): File {
    if f.hasError then f else Direct(Flush(f.(freeze := false)), data)
  }

  /** Whether offering `data` directly ends in a failure of the backend. */
  predicate DirectFails(f: File, data: seq<Byte>)
    decreases |data|
  {
    if f.freeze || data == [] || f.xfer > f.limit then false
    else match Offer(f.answers, |data|)
      case Busy => false
      case Failed => true
      case Took(n) =>
        DirectFails(f.(accepted := f.accepted + data[..n], xfer := f.xfer + n, answers := Rest(f.answers)), data[n..])
  }

  function PutResult(f: File, data: seq<Byte>): int {
    if f.hasError || DirectFails(Flush(f.(freeze := false)), data) then -EINVAL else |data|
  }

  function Tick(f: File): File {
    if f.hasError || f.freeze then f else Flush(f.(xfer := 0))
  }

  function SetRateLimit(f: File, rate: nat): File {
    if f.hasError then f else f.(limit := rate / 10)
  }

  /** Flushes until nothing is pending or the backend has failed. */
  function Close(f: File): File
    decreases |f.answers|, !f.hasError
  {
    if f.hasError || f.pending == [] then f
    else
      FlushUsesAnswer(f);
      Close(Flush(f))
  }

  lemma FlushStep(f: File)
    requires !f.hasError && f.pending != []
    ensures Flush(f) == match Offer(f.answers, |f.pending|)
                        case Busy => f.(freeze := true, answers := Rest(f.answers))
                        case Failed => f.(hasError := true, answers := Rest(f.answers))
                        case Took(n) =>
                          Flush(f.(accepted := f.accepted + f.pending[..n], pending := f.pending[n..],
                                  answers := Rest(f.answers)))
  {
  }

  lemma DirectStep(f: File, data: seq<Byte>)
    requires !f.freeze && data != [] && f.xfer <= f.limit
    ensures match Offer(f.answers, |data|)
            case Busy =>
              && Direct(f, data) == f.(freeze := true, answers := Rest(f.answers), pending := f.pending + data)
              && !DirectFails(f, data)
            case Failed => Direct(f, data) == f.(hasError := true, answers := Rest(f.answers)) && DirectFails(f, data)
            case Took(n) =>
              var g := f.(accepted := f.accepted + data[..n], xfer := f.xfer + n, answers := Rest(f.answers));
              Direct(f, data) == Direct(g, data[n..]) && DirectFails(f, data) == DirectFails(g, data[n..])
  {
  }

  lemma DirectEnds(f: File, data: seq<Byte>)
    requires f.freeze || data == [] || f.xfer > f.limit
    ensures Direct(f, data) == f.(pending := f.pending + data) && !DirectFails(f, data)
  {
  }

  lemma FlushEnds(f: File)
    requires f.hasError || f.pending == []
    ensures Flush(f) == f
  {
  }

  /** Flushing does not count. */
  lemma {:induction false} FlushCount(f: File)
    ensures Flush(f).xfer == f.xfer
    decreases |f.pending|
  {
    if !f.hasError && f.pending != [] {
      match Offer(f.answers, |f.pending|)
      case Busy =>
      case Failed =>
      case Took(n) =>
        FlushCount(f.(accepted := f.accepted + f.pending[..n], pending := f.pending[n..], answers := Rest(f.answers)));
    }
  }

  lemma TickCount(f: File)
    ensures !f.hasError && !f.freeze ==> Tick(f).xfer == 0
  {
    FlushCount(f.(xfer := 0));
  }

  // ---------------------------------------------------------------- nothing lost, nothing reordered

  lemma {:induction false} FlushUsesAnswer(f: File)
    requires !f.hasError && f.pending != []
    ensures |Flush(f).answers| < |f.answers| || Flush(f).hasError
    ensures |Flush(f).answers| <= |f.answers|
    decreases |f.pending|
  {
    match Offer(f.answers, |f.pending|)
    case Busy =>
    case Failed =>
    case Took(n) =>
      var g := f.(accepted := f.accepted + f.pending[..n], pending := f.pending[n..], answers := Rest(f.answers));
      if g.pending != [] {
        FlushUsesAnswer(g);
      }
  }

  /** Flushing moves bytes from the pending ones to the backend, in order, even when it fails; it stops
      when nothing is pending, the backend is busy, or it fails. */
  lemma {:induction false} FlushKeepsStream(f: File)
    ensures Flush(f).Stream() == f.Stream() && f.accepted <= Flush(f).accepted
    ensures f.hasError ==> Flush(f).hasError
    ensures Flush(f).pending == [] || Flush(f).hasError || Flush(f).freeze
    ensures f.freeze ==> Flush(f).freeze
    decreases |f.pending|
  {
    if !f.hasError && f.pending != [] {
      match Offer(f.answers, |f.pending|)
      case Busy =>
      case Failed =>
      case Took(n) =>
        var g := f.(accepted := f.accepted + f.pending[..n], pending := f.pending[n..], answers := Rest(f.answers));
        FlushKeepsStream(g);
        assert g.Stream() == f.Stream();
    }
  }

  lemma {:induction false} DirectKeepsStream(f: File, data: seq<Byte>)
    requires f.pending == [] || f.freeze
    ensures Direct(f, data).hasError == (f.hasError || DirectFails(f, data))
    ensures !DirectFails(f, data) ==> Direct(f, data).Stream() == f.Stream() + data
    decreases |data|
  {
    hide Direct, DirectFails;
    if f.freeze || data == [] || f.xfer > f.limit {
      DirectEnds(f, data);
      assert f.accepted + (f.pending + data) == f.Stream() + data;
    } else {
      DirectStep(f, data);
      assert f.Stream() == f.accepted;
      match Offer(f.answers, |data|)
      case Busy => assert f.pending + data == data;
      case Failed =>
      case Took(n) =>
        var g := f.(accepted := f.accepted + data[..n], xfer := f.xfer + n, answers := Rest(f.answers));
        DirectKeepsStream(g, data[n..]);
        assert g.Stream() + data[n..] == f.Stream() + data;
    }
  }

  lemma {:induction false} DirectTakesPrefix(f: File, data: seq<Byte>)
    requires f.pending == [] || f.freeze
    ensures Direct(f, data).accepted <= f.accepted + f.pending + data
    decreases |data|
  {
    if !(f.freeze || data == [] || f.xfer > f.limit) {
      match Offer(f.answers, |data|)
      case Busy =>
      case Failed =>
      case Took(n) =>
        var g := f.(accepted := f.accepted + data[..n], xfer := f.xfer + n, answers := Rest(f.answers));
        DirectTakesPrefix(g, data[n..]);
        assert g.accepted + g.pending + data[n..] == f.accepted + f.pending + data;
    }
  }

  /** A put that leaves no error has added exactly its data to the stream, and says so. */
  lemma PutAppends(f: File, data: seq<Byte>)
    requires !Put(f, data).hasError
    ensures Put(f, data).Stream() == f.Stream() + data && PutResult(f, data) == |data|
  {
    var g := Flush(f.(freeze := false));
    FlushKeepsStream(f.(freeze := false));
    if g.hasError {
      DirectKeepsError(g, data);
    } else {
      DirectKeepsStream(g, data);
    }
  }

  lemma {:induction false} DirectKeepsError(f: File, data: seq<Byte>)
    requires f.hasError
    ensures Direct(f, data).hasError
    decreases |data|
  {
    if !(f.freeze || data == [] || f.xfer > f.limit) {
      match Offer(f.answers, |data|)
      case Busy =>
      case Failed =>
      case Took(n) =>
        DirectKeepsError(f.(accepted := f.accepted + data[..n], xfer := f.xfer + n, answers := Rest(f.answers)),
            data[n..]);
    }
  }

  /** The operations of the stream's users. */
  datatype Op = PutData(data: seq<Byte>) | TimerTick | NewRate(rate: nat)

  function Do(f: File, op: Op): File {
    match op
    case PutData(data) => Put(f, data)
    case TimerTick => Tick(f)
    case NewRate(rate) => SetRateLimit(f, rate)
  }

  function Run(f: File, ops: seq<Op>): File {
    if ops == [] then f else Do(Run(f, ops[..|ops| - 1]), ops[|ops| - 1])
  }

  function DataOf(op: Op): seq<Byte> {
    if op.PutData? then op.data else []
  }

  function AllData(ops: seq<Op>): seq<Byte> {
    if ops == [] then [] else AllData(ops[..|ops| - 1]) + DataOf(ops[|ops| - 1])
  }

  lemma DoConserves(f: File, op: Op)
    requires !Do(f, op).hasError
    ensures !f.hasError && Do(f, op).Stream() == f.Stream() + DataOf(op)
  {
    match op
    case PutData(data) => PutAppends(f, data);
    case TimerTick => FlushKeepsStream(f.(xfer := 0));
    case NewRate(rate) =>
  }

  /** While no error has occurred, what the backend accepted followed by what is pending is everything that
      was put, for every sequence of operations and every behaviour of the backend. */
  lemma {:induction false} RunConserves(f: File, ops: seq<Op>)
    requires !Run(f, ops).hasError
    ensures !f.hasError && Run(f, ops).Stream() == f.Stream() + AllData(ops)
  {
    hide Do, DataOf;
    if ops == [] {
      assert f.Stream() + [] == f.Stream();
    } else {
      var op, before := ops[|ops| - 1], ops[..|ops| - 1];
      DoConserves(Run(f, before), op);
      RunConserves(f, before);
      assert f.Stream() + AllData(before) + DataOf(op) == f.Stream() + AllData(ops);
    }
  }

  /** Closing ends with an error or with nothing pending. */
  lemma {:induction false} CloseDrains(f: File)
    ensures Close(f).hasError || Close(f).pending == []
    ensures Close(f).Stream() == f.Stream()
    decreases |f.answers|, !f.hasError
  {
    if !f.hasError && f.pending != [] {
      FlushUsesAnswer(f);
      FlushKeepsStream(f);
      CloseDrains(Flush(f));
    }
  }

  /** After any run, a close without error has delivered everything that was put, in order. */
  lemma CloseDelivers(f: File, ops: seq<Op>)
    requires f.accepted == f.pending == [] && !Close(Run(f, ops)).hasError
    ensures Close(Run(f, ops)).accepted == AllData(ops)
  {
    var g := Run(f, ops);
    RunConserves(f, ops);
    CloseDrains(g);
    assert Close(g).Stream() == Close(g).accepted;
    assert f.Stream() + AllData(ops) == AllData(ops);
  }

  // ---------------------------------------------------------------- holes

  /** Bytes that the backend has accepted are a prefix of the stream. */
  predicate NoHole(f: File, data: seq<Byte>) {
    Put(f, data).accepted <= f.Stream() + data
  }

  /** The backend would take data offered directly. */
  predicate WouldTake(f: File) {
    !f.freeze && f.xfer <= f.limit && f.answers != [] && f.answers[0] > 0
  }

  lemma {:induction false} FailedFlushKeepsPending(f: File)
    requires !f.hasError && Flush(f).hasError
    ensures Flush(f).pending != []
    decreases |f.pending|
  {
    match Offer(f.answers, |f.pending|)
    case Busy =>
    case Failed =>
    case Took(n) =>
      FailedFlushKeepsPending(f.(accepted := f.accepted + f.pending[..n], pending := f.pending[n..],
          answers := Rest(f.answers)));
  }

  /** After a failed flush a backend that takes more gets a byte out of order, and the put reports that it
      was written. */
  lemma HoleIsReportedWritten(f: File) returns (b: Byte)
    requires !f.hasError && Flush(f.(freeze := false)).hasError && WouldTake(Flush(f.(freeze := false)))
    ensures !NoHole(f, [b]) && PutResult(f, [b]) == 1 && Put(f, [b]).hasError
  {
    var g := Flush(f.(freeze := false));
    FlushKeepsStream(f.(freeze := false));
    FailedFlushKeepsPending(f.(freeze := false));
    b := if g.pending[0] == 0 then 1 else 0;
    OneByteDirect(g, b);
    assert (f.Stream() + [b])[|g.accepted|] == g.pending[0];
  }

  /** A put offers its data even when the flush it begins with has failed. If the backend then takes it,
      there is a hole where the pending bytes are missing; otherwise there never is one. */
  lemma NoHoleIff(f: File)
    requires !f.hasError
    ensures (forall data :: NoHole(f, data)) <==>
            !(Flush(f.(freeze := false)).hasError && WouldTake(Flush(f.(freeze := false))))
  {
    var g := Flush(f.(freeze := false));
    FlushKeepsStream(f.(freeze := false));
    assert g.Stream() == f.Stream();
    if g.hasError && WouldTake(g) {
      var b := HoleIsReportedWritten(f);
    } else {
      forall data: seq<Byte>
        ensures NoHole(f, data)
      {
        if g.hasError {
          NothingTaken(g, data);
          assert g.accepted <= f.Stream() + data;
        } else {
          DirectTakesPrefix(g, data);
        }
      }
    }
  }

  lemma OneByteDirect(g: File, b: Byte)
    requires WouldTake(g)
    ensures Direct(g, [b]).accepted == g.accepted + [b] && !DirectFails(g, [b]) && Direct(g, [b]).hasError == g.hasError
  {
    var h := g.(accepted := g.accepted + [b], xfer := g.xfer + 1, answers := Rest(g.answers));
    assert [b][..1] == [b] && [b][1..] == [];
    assert Direct(g, [b]) == Direct(h, []);
    assert DirectFails(g, [b]) == DirectFails(h, []);
  }

  lemma NothingTaken(g: File, data: seq<Byte>)
    requires !WouldTake(g)
    ensures Direct(g, data).accepted == g.accepted
  {
  }

  // ---------------------------------------------------------------- the code

  class BufferedOutput {
    var hasError: bool
    var freezeOutput: bool
    var bytesXfer: nat
    var xferLimit: nat
    var buffer: array<Byte>
    var bufferSize: nat
    /** The backend. */
    var accepted: seq<Byte>
    var answers: seq<int>

    ghost predicate Valid()
      reads this
    {
      bufferSize <= buffer.Length
    }

    ghost function View(): File
      requires Valid()
      reads this, buffer
    {
      File(hasError, freezeOutput, bytesXfer, xferLimit, buffer[..bufferSize], accepted, answers)
    }

    constructor (bytesPerSecond: nat, answers: seq<int>)
      ensures Valid() && View() == File(false, false, 0, bytesPerSecond / 10, [], [], answers) && fresh(buffer)
    {
      hasError, freezeOutput, bytesXfer, xferLimit := false, false, 0, bytesPerSecond / 10;
      buffer, bufferSize := new Byte[0], 0;
      accepted, this.answers := [], answers;
    }

    /** Offers bytes to the backend. */
    method PutBuffer(data: seq<Byte>) returns (ret: int)
      requires data != []
      modifies this`accepted, this`answers
      ensures answers == Rest(old(answers))
      ensures match Offer(old(answers), |data|)
              case Busy => ret == -EAGAIN && accepted == old(accepted)
              case Failed => ret <= 0 && ret != -EAGAIN && accepted == old(accepted)
              case Took(n) => ret == n && accepted == old(accepted) + data[..n]
    {
      if answers == [] {
        return 0;
      }
      ret := answers[0];
      answers := answers[1..];
      if ret > 0 {
        ret := Min(ret, |data|);
        accepted := accepted + data[..ret];
      }
    }

    /** Makes room for `size` more bytes. */
    method Grow(size: nat)
      requires Valid()
      modifies this`buffer
      ensures Valid() && View() == old(View()) && bufferSize + size <= buffer.Length
      ensures buffer == old(buffer) || fresh(buffer)
    {
      if size > buffer.Length - bufferSize {
        var bigger := new Byte[buffer.Length + size + 1024];
        for i := 0 to bufferSize
          invariant bigger[..i] == buffer[..i]
          modifies bigger
        {
          bigger[i] := buffer[i];
        }
        buffer := bigger;
      }
    }

    /** Appends to the pending bytes, growing the buffer when they do not fit. */
    method BufferedAppend(data: seq<Byte>)
      requires Valid()
      modifies this`buffer, this`bufferSize, buffer
      ensures Valid() && View() == old(View()).(pending := old(View()).pending + data)
      ensures buffer == old(buffer) || fresh(buffer)
    {
      Grow(|data|);
      ghost var before := buffer[..bufferSize];
      for i := 0 to |data|
        invariant buffer[..bufferSize + i] == before + data[..i]
        modifies buffer
      {
        buffer[bufferSize + i] := data[i];
      }
      bufferSize := bufferSize + |data|;
      assert data[..|data|] == data;
    }

    /** The state when the first `offset` bytes of the buffer are gone. */
    ghost function ViewFrom(offset: nat): File
      requires Valid() && offset <= bufferSize
      reads this, buffer
    {
      File(hasError, freezeOutput, bytesXfer, xferLimit, buffer[offset..bufferSize], accepted, answers)
    }

    /** Hands the pending bytes to the backend as far as it takes them. */
    method Drain() returns (offset: nat)
      requires Valid() && !hasError
      modifies this`hasError, this`freezeOutput, this`accepted, this`answers
      ensures offset <= bufferSize && ViewFrom(offset) == Flush(old(View()))
    {
      hide Flush;
      ghost var f := View();
      offset := 0;
      assert ViewFrom(0) == f;
      while offset < bufferSize
        invariant offset <= bufferSize && !hasError && Flush(f) == Flush(ViewFrom(offset))
        decreases bufferSize - offset
      {
        FlushStep(ViewFrom(offset));
        var ret := PutBuffer(buffer[offset..bufferSize]);
        if ret == -EAGAIN {
          freezeOutput := true;
          return;
        }
        if ret <= 0 {
          hasError := true;
          return;
        }
        assert buffer[offset..bufferSize][ret..] == buffer[offset + ret..bufferSize];
        offset := offset + ret;
      }
      FlushEnds(ViewFrom(offset));
    }

    /** Moves what is left to the start of the buffer. */
    method Discard(offset: nat)
      requires Valid() && offset <= bufferSize
      modifies this`bufferSize, buffer
      ensures Valid() && View() == old(ViewFrom(offset))
    {
      ghost var rest := buffer[offset..bufferSize];
      for i := 0 to bufferSize - offset
        invariant buffer[..i] == rest[..i] && buffer[offset + i..bufferSize] == rest[i..]
        modifies buffer
      {
        assert buffer[offset + i] == rest[i..][0] == rest[i];
        assert buffer[offset + i + 1..bufferSize] == rest[i..][1..] == rest[i + 1..];
        buffer[i] := buffer[offset + i];
      }
      assert rest[..bufferSize - offset] == rest;
      bufferSize := bufferSize - offset;
    }

    method BufferedFlush()
      requires Valid()
      modifies this`hasError, this`freezeOutput, this`bufferSize, this`accepted, this`answers, buffer
      ensures Valid() && View() == Flush(old(View()))
    {
      if hasError {
        return;
      }
      var offset := Drain();
      Discard(offset);
    }

    /** Offers data directly; returns how much of it the backend took, unless it failed. */
    method OfferDirectly(data: seq<Byte>) returns (offset: nat, failed: bool)
      requires Valid()
      modifies this`hasError, this`freezeOutput, this`bytesXfer, this`accepted, this`answers
      ensures failed <==> DirectFails(old(View()), data)
      ensures failed ==> View() == Direct(old(View()), data)
      ensures !failed ==>
                offset <= |data| && View().(pending := View().pending + data[offset..]) == Direct(old(View()), data)
    {
      hide Direct, DirectFails;
      ghost var f := View();
      offset, failed := 0, false;
      assert data[0..] == data;
      while !freezeOutput && offset < |data|
        invariant offset <= |data|
        invariant Direct(f, data) == Direct(View(), data[offset..])
        invariant DirectFails(f, data) == DirectFails(View(), data[offset..])
        decreases |data| - offset
      {
        if bytesXfer > xferLimit {
          break;
        }
        DirectStep(View(), data[offset..]);
        var r := PutBuffer(data[offset..]);
        if r == -EAGAIN {
          freezeOutput := true;
          return;
        }
        if r <= 0 {
          hasError := true;
          return offset, true;
        }
        assert data[offset..][r..] == data[offset + r..];
        offset := offset + r;
        bytesXfer := bytesXfer + r;
      }
      DirectEnds(View(), data[offset..]);
    }

    /** Flushes, then offers the data directly; what the backend does not take is buffered. */
    method BufferedPutBuffer(data: seq<Byte>) returns (ret: int)
      requires Valid()
      modifies this, buffer
      ensures Valid() && View() == Put(old(View()), data) && ret == PutResult(old(View()), data)
      ensures buffer == old(buffer) || fresh(buffer)
    {
      hide Direct, DirectFails, Flush;
      if hasError {
        return -EINVAL;
      }
      freezeOutput := false;
      BufferedFlush();
      var offset, failed := OfferDirectly(data);
      if failed {
        return -EINVAL;
      }
      BufferedAppend(data[offset..]);
      ret := |data|;
    }

    /** Flushes until nothing is pending or the backend has failed. */
    method BufferedClose()
      requires Valid()
      modifies this`hasError, this`freezeOutput, this`bufferSize, this`accepted, this`answers, buffer
      ensures Valid() && View() == Close(old(View()))
      ensures hasError || bufferSize == 0
    {
      while !hasError && bufferSize != 0
        invariant Valid() && Close(View()) == Close(old(View()))
        decreases |answers|, !hasError
      {
        FlushUsesAnswer(View());
        BufferedFlush();
      }
    }

    method BufferedRateLimit() returns (limited: bool)
      ensures limited <==> !hasError && (freezeOutput || bytesXfer > xferLimit)
    {
      if hasError {
        return false;
      }
      limited := freezeOutput || bytesXfer > xferLimit;
    }

    method BufferedSetRateLimit(rate: nat) returns (limit: nat)
      requires Valid()
      modifies this`xferLimit
      ensures View() == SetRateLimit(old(View()), rate) && limit == xferLimit
    {
      if !hasError {
        xferLimit := rate / 10;
      }
      limit := xferLimit;
    }

    /** The timer: a new period for the rate limit, and another try to flush. */
    method BufferedRateTick()
      requires Valid()
      modifies this`hasError, this`freezeOutput, this`bytesXfer, this`bufferSize, this`accepted, this`answers, buffer
      ensures Valid() && View() == Tick(old(View()))
      ensures old(hasError || freezeOutput) ==> View() == old(View())
      ensures !old(hasError || freezeOutput) ==> bytesXfer == 0
    {
      TickCount(View());
      if hasError || freezeOutput {
        return;
      }
      bytesXfer := 0;
      BufferedFlush();
    }
  }
}
