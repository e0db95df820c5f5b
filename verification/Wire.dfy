/** The migration stream as bytes, and the loader that reads it back (block_load). */
module Wire {
  import opened Errno
  import opened Sectors
  import opened Migration
  import opened MigrationSafety
  import opened MigrationResult

  const FLAG_DEVICE_BLOCK: nat := 1
  const FLAG_EOS: nat := 2
  const FLAG_PROGRESS: nat := 4

  const TWO_63: int := 0x8000_0000_0000_0000
  const TWO_64: int := 0x1_0000_0000_0000_0000

  // ---------------------------------------------------------------- numbers as bytes

  function Pow256(n: nat): nat {
    if n == 0 then 1 else 256 * Pow256(n - 1)
  }

  /** `v` in `n` bytes, most significant first, higher bits dropped. */
  function BigEndian(v: nat, n: nat): (r: seq<Byte>)
    ensures |r| == n
  {
    if n == 0 then [] else BigEndian(v / 256, n - 1) + [(v % 256) as Byte]
  }

  function FromBigEndian(b: seq<Byte>): nat {
    if b == [] then 0 else FromBigEndian(b[..|b| - 1]) * 256 + b[|b| - 1] as nat
  }

  lemma {:induction false} BigEndianRoundTrip(v: nat, n: nat)
    requires v < Pow256(n)
    ensures FromBigEndian(BigEndian(v, n)) == v
  {
    if n != 0 {
      BigEndianRoundTrip(v / 256, n - 1);
      assert BigEndian(v, n)[..n - 1] == BigEndian(v / 256, n - 1);
    }
  }

  lemma NoBytes(b: seq<Byte>)
    requires b == []
    ensures FromBigEndian(b) == 0
  {
  }

  lemma PushByte(b: seq<Byte>, x: Byte)
    ensures FromBigEndian(b + [x]) == FromBigEndian(b) * 256 + x as nat
  {
    assert (b + [x])[..|b|] == b;
  }

  lemma Pow256Of8()
    ensures Pow256(8) == TWO_64
  {
    assert Pow256(2) == 256 * Pow256(1);
    assert Pow256(4) == 256 * 256 * Pow256(2);
    assert Pow256(6) == 256 * 256 * Pow256(4);
  }

  /** A 64-bit pattern as a signed number. */
  function Int64(u: nat): int {
    if u < TWO_63 then u else u - TWO_64
  }

  // ---------------------------------------------------------------- writing

  function Header(addr: nat, flags: nat): (h: seq<Byte>)
    ensures |h| == 8
  {
    BigEndian(addr * SECTOR_SIZE + flags, 8)
  }

  function Encode(f: Frame): seq<Byte> {
    match f
    case Block(name, sector, data) =>
      Header(sector, FLAG_DEVICE_BLOCK) + [(|name| % 256) as Byte] + name + data
    case Progress(percent) => Header(percent, FLAG_PROGRESS)
    case Eos => Header(0, FLAG_EOS)
  }

  function EncodeAll(fs: seq<Frame>): seq<Byte> {
    if fs == [] then [] else Encode(fs[0]) + EncodeAll(fs[1..])
  }

  /** A frame the save side can produce for devices with C-string names shorter than 256, on disks
      whose byte addresses fit a signed 64-bit number. */
  ghost predicate Encodable(dest: Disks, f: Frame) {
    && FrameOk(dest, f)
    && (f.Block? ==> |f.name| < 256 && 0 !in f.name && |dest[f.name]| < TWO_63)
  }

  // ---------------------------------------------------------------- reading

  datatype Outcome = Done(dest: Disks, rest: seq<Byte>) | Failed(dest: Disks, code: int)

  /** What the loader's buffers hold before they are filled: that for the device name, and that for the data. */
  datatype Memory = Memory(name: nat -> Byte, data: nat -> Byte)

  /** A buffer of `size` bytes filled from `b`; when `b` is too short the rest of it stays as it was. */
  function Fill(b: seq<Byte>, size: nat, before: nat -> Byte): (r: seq<Byte>)
    ensures |r| == size
  {
    seq(size, i requires i >= 0 => if i < |b| then b[i] else before(i))
  }

  function Drop(b: seq<Byte>, n: nat): (r: seq<Byte>)
    ensures |r| <= |b|
  {
    if n <= |b| then b[n..] else []
  }

  lemma FillWhole(a: seq<Byte>, b: seq<Byte>, before: nat -> Byte)
    ensures Fill(a + b, |a|, before) == a && Drop(a + b, |a|) == b
  {
  }

  /** The bytes before the first zero: what a C string holds. */
  function CString(s: seq<Byte>): seq<Byte> {
    if s == [] || s[0] == 0 then [] else [s[0]] + CString(s[1..])
  }

  lemma CStringOfName(s: seq<Byte>)
    requires 0 !in s
    ensures CString(s) == s
  {
  }

  /** A block write whose result nobody looks at: out of range, it does nothing. */
  function WriteChunk(dest: Disks, name: Name, sector: int, data: seq<Byte>): Disks {
    if sector >= 0 then LoadFrame(dest, Block(name, sector, data)) else dest
  }

  /** A device block, after its header: the device's name and a chunk of data for it. Nobody looks whether
      there were enough bytes before the data is written. */
  function LoadBlock(dest: Disks, addr: int, b: seq<Byte>, mem: Memory): (r: Outcome)
    ensures r.Done? ==> |r.rest| <= |b|
  {
    var len := if b == [] then 0 else b[0] as nat;
    var name := CString(Fill(Drop(b, 1), len, mem.name));
    if name !in dest then Failed(dest, -EINVAL) else
    var b' := Drop(Drop(b, 1), len);
    Done(WriteChunk(dest, name, addr, Fill(b', CHUNK_BYTES, mem.data)), Drop(b', CHUNK_BYTES))
  }

  /** Whether a device block runs past the end of the input, which sets the error flag of the file. */
  predicate Short(b: seq<Byte>) {
    b == [] || |b| < 1 + b[0] as nat + CHUNK_BYTES
  }

  // The flags of a header are its lowest bits.

  predicate IsBlock(head: int) {
    head % 2 == 1
  }

  predicate IsEos(head: int) {
    head / 2 % 2 == 1
  }

  predicate IsProgress(head: int) {
    head / 4 % 2 == 1
  }

  /** One call of the loader on the bytes `b`, with the error flag of the file set or not. */
  function LoadBytes(dest: Disks, b: seq<Byte>, error: bool, mem: Memory): Outcome
    decreases |b|
  {
    // Bytes missing from a header read as zero, which leaves it without a known flag.
    if |b| < 8 then Failed(dest, -EINVAL) else
    var head := Int64(FromBigEndian(b[..8]));
    if !IsBlock(head) && !IsProgress(head) && !IsEos(head) then Failed(dest, -EINVAL) else
    var one := if IsBlock(head) then LoadBlock(dest, head / SECTOR_SIZE, b[8..], mem) else Done(dest, b[8..]);
    if one.Failed? then one
    else if error || (IsBlock(head) && Short(b[8..])) then Failed(one.dest, -EIO)
    else if IsEos(head) then one
    else LoadBytes(one.dest, one.rest, error, mem)
  }

  /** The first frame of the bytes, and how loading goes on. */
  lemma LoadStep(dest: Disks, b: seq<Byte>, error: bool, mem: Memory)
    ensures |b| < 8 ==> LoadBytes(dest, b, error, mem) == Failed(dest, -EINVAL)
    ensures |b| >= 8 ==>
              var head := Int64(FromBigEndian(b[..8]));
              var one := if IsBlock(head) then LoadBlock(dest, head / SECTOR_SIZE, b[8..], mem) else Done(dest, b[8..]);
              LoadBytes(dest, b, error, mem) ==
              if !IsBlock(head) && !IsProgress(head) && !IsEos(head) then Failed(dest, -EINVAL)
              else if one.Failed? then one
              else if error || (IsBlock(head) && Short(b[8..])) then Failed(one.dest, -EIO)
              else if IsEos(head) then one
              else LoadBytes(one.dest, one.rest, error, mem)
  {
    hide LoadBlock, Short, FromBigEndian, IsBlock, IsProgress, IsEos;
  }

  lemma Halves(q: int, r: nat)
    requires r < 2
    ensures (2 * q + r) / 2 == q && (2 * q + r) % 2 == r
  {
  }

  lemma Quarters(q: int, r: nat)
    requires r < 4
    ensures (4 * q + r) / 4 == q
  {
  }

  /** The lowest three bits of a number. */
  lemma LowBits(k: int, b0: nat, b1: nat, b2: nat)
    requires b0 < 2 && b1 < 2 && b2 < 2
    ensures var n := 8 * k + 4 * b2 + 2 * b1 + b0;
            IsBlock(n) == (b0 == 1) && IsEos(n) == (b1 == 1) && IsProgress(n) == (b2 == 1)
  {
    Halves(4 * k + 2 * b2 + b1, b0);
    Halves(2 * k + b2, b1);
    Quarters(2 * k + b2, 2 * b1 + b0);
    Halves(k, b2);
  }

  lemma NoFlags(head: int)
    requires head % 256 == 0
    ensures !IsBlock(head) && !IsProgress(head) && !IsEos(head)
  {
    hide IsBlock, IsEos, IsProgress;
    var m := head / 256;
    assert head == 256 * m;
    LowBits(32 * m, 0, 0, 0);
  }

  lemma SplitHead(addr: nat, flags: nat)
    requires flags in {FLAG_DEVICE_BLOCK, FLAG_PROGRESS, FLAG_EOS}
    ensures var head := addr * SECTOR_SIZE + flags;
            && head / SECTOR_SIZE == addr
            && IsBlock(head) == (flags == FLAG_DEVICE_BLOCK) && IsEos(head) == (flags == FLAG_EOS)
            && IsProgress(head) == (flags == FLAG_PROGRESS)
  {
    hide IsBlock, IsEos, IsProgress;
    if flags == FLAG_DEVICE_BLOCK {
      LowBits(addr * 64, 1, 0, 0);
    } else if flags == FLAG_EOS {
      LowBits(addr * 64, 0, 1, 0);
    } else {
      LowBits(addr * 64, 0, 0, 1);
    }
  }

  lemma HeaderReadsBack(addr: nat, flags: nat)
    requires addr * SECTOR_SIZE + flags < TWO_63
    ensures Int64(FromBigEndian(Header(addr, flags))) == addr * SECTOR_SIZE + flags
  {
    Pow256Of8();
    BigEndianRoundTrip(addr * SECTOR_SIZE + flags, 8);
  }

  lemma LoadAfterHeader(dest: Disks, addr: nat, flags: nat, b: seq<Byte>, mem: Memory)
    requires addr * SECTOR_SIZE + flags < TWO_63 && flags in {FLAG_DEVICE_BLOCK, FLAG_PROGRESS, FLAG_EOS}
    ensures LoadBytes(dest, Header(addr, flags) + b, false, mem) ==
            if flags == FLAG_EOS then Done(dest, b)
            else if flags == FLAG_PROGRESS then LoadBytes(dest, b, false, mem)
            else var one := LoadBlock(dest, addr, b, mem);
                 if one.Failed? then one
                 else if Short(b) then Failed(one.dest, -EIO)
                 else LoadBytes(one.dest, one.rest, false, mem)
  {
    hide Header, FromBigEndian, LoadBlock, Short, IsBlock, IsEos, IsProgress;
    var h := Header(addr, flags);
    HeaderReadsBack(addr, flags);
    SplitHead(addr, flags);
    assert (h + b)[..8] == h && (h + b)[8..] == b;
  }

  /** What follows the header of a block. */
  function Body(f: Frame): (r: seq<Byte>)
    requires f.Block? && |f.name| < 256
    ensures |r| == 1 + |f.name| + |f.data|
  {
    [|f.name| as Byte] + f.name + f.data
  }

  lemma LoadEncodedBlock(dest: Disks, f: Frame, b: seq<Byte>, mem: Memory)
    requires Encodable(dest, f) && f.Block?
    ensures !Short(Body(f) + b) && LoadBlock(dest, f.sector, Body(f) + b, mem) == Done(LoadFrame(dest, f), b)
  {
    hide Fill, Drop;
    var all := Body(f) + b;
    assert all == [|f.name| as Byte] + (f.name + (f.data + b));
    assert Drop(all, 1) == f.name + (f.data + b) by {
      FillWhole([|f.name| as Byte], f.name + (f.data + b), mem.name);
    }
    FillWhole(f.name, f.data + b, mem.name);
    CStringOfName(f.name);
    FillWhole(f.data, b, mem.data);
  }

  /** Loading an encoded frame has the frame's effect, and goes on with the rest. */
  lemma LoadEncodedFrame(dest: Disks, f: Frame, b: seq<Byte>, mem: Memory)
    requires Encodable(dest, f)
    ensures LoadBytes(dest, Encode(f) + b, false, mem) ==
            match f case Eos => Done(dest, b) case _ => LoadBytes(LoadFrame(dest, f), b, false, mem)
  {
    hide Header, LoadBytes, LoadBlock, Short;
    match f
    case Block(name, sector, data) =>
      LoadAfterHeader(dest, sector, FLAG_DEVICE_BLOCK, Body(f) + b, mem);
      assert Encode(f) + b == Header(sector, FLAG_DEVICE_BLOCK) + (Body(f) + b);
      LoadEncodedBlock(dest, f, b, mem);
    case Progress(percent) => LoadAfterHeader(dest, percent, FLAG_PROGRESS, b, mem);
    case Eos => LoadAfterHeader(dest, 0, FLAG_EOS, b, mem);
  }

  /** `calls` calls of the loader, one after the other, up to the first that fails. */
  function LoadCalls(dest: Disks, b: seq<Byte>, calls: nat, mem: Memory): Outcome
    decreases calls
  {
    if calls == 0 then Done(dest, b) else
    match LoadBytes(dest, b, false, mem)
    case Done(d, rest) => LoadCalls(d, rest, calls - 1, mem)
    case Failed(d, code) => Failed(d, code)
  }

  function Sections(fs: seq<Frame>): nat {
    if fs == [] then 0 else (if fs[0].Eos? then 1 else 0) + Sections(fs[1..])
  }

  lemma LoadKeepsEncodable(dest: Disks, f: Frame, g: Frame)
    requires Encodable(dest, g)
    ensures Encodable(LoadFrame(dest, f), g)
  {
  }

  lemma TailEncodable(dest: Disks, fs: seq<Frame>)
    requires fs != [] && forall f :: f in fs ==> Encodable(dest, f)
    ensures forall g :: g in fs[1..] ==> Encodable(LoadFrame(dest, fs[0]), g)
  {
    hide Encodable, LoadFrame;
    forall g | g in fs[1..]
      ensures Encodable(LoadFrame(dest, fs[0]), g)
    {
      LoadKeepsEncodable(dest, fs[0], g);
    }
  }

  lemma {:induction false} LoadFront(dest: Disks, f: Frame, fs: seq<Frame>)
    ensures Load(dest, [f] + fs) == Load(LoadFrame(dest, f), fs)
  {
    if fs == [] {
      LoadAppend(dest, [], f);
      assert [] + [f] == [f] + fs;
    } else {
      var init, last := fs[..|fs| - 1], fs[|fs| - 1];
      LoadFront(dest, f, init);
      LoadAppend(dest, [f] + init, last);
      assert [f] + init + [last] == [f] + fs;
    }
  }

  /** The whole stream, read section by section, is consumed to the last byte and leaves the
      destination exactly as its frames say, whatever follows it. */
  lemma {:induction false} StreamRoundTrip(dest: Disks, fs: seq<Frame>, rest: seq<Byte>, mem: Memory)
    requires forall f :: f in fs ==> Encodable(dest, f)
    requires fs != [] ==> fs[|fs| - 1].Eos?
    ensures LoadCalls(dest, EncodeAll(fs) + rest, Sections(fs), mem) == Done(Load(dest, fs), rest)
    decreases |fs|
  {
    hide Encode, LoadBytes, Encodable, LoadFrame;
    if fs == [] {
      assert EncodeAll(fs) + rest == rest;
    } else {
      var f, tail := fs[0], fs[1..];
      assert f in fs && [f] + tail == fs;
      TailEncodable(dest, fs);
      StreamRoundTrip(LoadFrame(dest, f), tail, rest, mem);
      LoadFront(dest, f, tail);
      LoadOneMore(dest, f, tail, EncodeAll(tail) + rest, mem);
      assert EncodeAll(fs) + rest == Encode(f) + (EncodeAll(tail) + rest);
    }
  }

  lemma LoadOneMore(dest: Disks, f: Frame, tail: seq<Frame>, b: seq<Byte>, mem: Memory)
    requires Encodable(dest, f)
    requires if tail == [] then f.Eos? else tail[|tail| - 1].Eos?
    ensures LoadCalls(dest, Encode(f) + b, Sections([f] + tail), mem) ==
            LoadCalls(LoadFrame(dest, f), b, Sections(tail), mem)
  {
    hide Encode, LoadBytes, Encodable;
    assert ([f] + tail)[1..] == tail;
    LoadEncodedFrame(dest, f, b, mem);
    if !f.Eos? {
      SomeSection(tail);
      LoadCallsSkip(dest, LoadFrame(dest, f), Encode(f) + b, b, Sections(tail), mem);
    }
  }

  lemma LoadCallsSkip(dest: Disks, dest': Disks, b: seq<Byte>, b': seq<Byte>, calls: nat, mem: Memory)
    requires LoadBytes(dest, b, false, mem) == LoadBytes(dest', b', false, mem) && calls > 0
    ensures LoadCalls(dest, b, calls, mem) == LoadCalls(dest', b', calls, mem)
  {
  }

  lemma SomeSection(fs: seq<Frame>)
    requires fs != [] && fs[|fs| - 1].Eos?
    ensures Sections(fs) > 0
  {
  }

  // ---------------------------------------------------------------- a stream that breaks off

  /** What loading the first `m` bytes of a frame makes of the destination `before`: nothing unless it is a block
      with its header, and then at most one write at the place the header says. With the name whole it goes to
      the right device and starts with the data that came. */
  ghost predicate Torn(before: Disks, f: Frame, m: nat, after: Disks) {
    && (!f.Block? || m < 8 ==> after == before)
    && (f.Block? ==>
          after == before ||
          exists name, data :: |data| == CHUNK_BYTES && Overwrites(before, name, f.sector, data, after))
    && (f.Block? && m >= 9 + |f.name| ==>
          exists data :: Begins(data, f.data, m - 9 - |f.name|) && Overwrites(before, f.name, f.sector, data, after))
  }

  predicate Overwrites(before: Disks, name: Name, sector: nat, data: seq<Byte>, after: Disks) {
    after == WriteChunk(before, name, sector, data)
  }

  /** As long as `whole`, and begins with its first `n` bytes. */
  predicate Begins(data: seq<Byte>, whole: seq<Byte>, n: nat) {
    |data| == |whole| && n <= |whole| && data[..n] == whole[..n]
  }

  lemma CutBody(f: Frame, n: nat)
    requires f.Block? && |f.name| < 256 && |f.data| == CHUNK_BYTES && n < |Body(f)|
    ensures Short(Body(f)[..n])
    ensures n >= 1 + |f.name| ==> Body(f)[..n] == [|f.name| as Byte] + (f.name + f.data[..n - 1 - |f.name|])
  {
  }

  /** The name has come whole, with part of the data. */
  lemma CutData(dest: Disks, f: Frame, got: nat, mem: Memory)
    requires Encodable(dest, f) && f.Block? && got < |f.data|
    ensures var b, data := [|f.name| as Byte] + (f.name + f.data[..got]), Fill(f.data[..got], CHUNK_BYTES, mem.data);
            && LoadBlock(dest, f.sector, b, mem).Done?
            && LoadBlock(dest, f.sector, b, mem).dest == WriteChunk(dest, f.name, f.sector, data)
            && Begins(data, f.data, got)
  {
    hide Fill, Drop, WriteChunk, CString;
    var b := [|f.name| as Byte] + (f.name + f.data[..got]);
    FillWhole([|f.name| as Byte], f.name + f.data[..got], mem.name);
    assert Drop(b, 1) == f.name + f.data[..got];
    FillWhole(f.name, f.data[..got], mem.name);
    CStringOfName(f.name);
    FillBegins(f.data[..got], f.data, mem.data);
  }

  lemma FillBegins(b: seq<Byte>, whole: seq<Byte>, before: nat -> Byte)
    requires b <= whole
    ensures Begins(Fill(b, |whole|, before), whole, |b|)
  {
  }

  lemma CutBlock(dest: Disks, f: Frame, n: nat, mem: Memory)
    requires Encodable(dest, f) && f.Block? && n < |Body(f)|
    ensures Torn(dest, f, 8 + n, LoadBlock(dest, f.sector, Body(f)[..n], mem).dest)
  {
    hide Fill, Drop, WriteChunk, CString, Body, Short;
    var b := Body(f)[..n];
    CutBody(f, n);
    var len := if b == [] then 0 else b[0] as nat;
    var name := CString(Fill(Drop(b, 1), len, mem.name));
    var data := Fill(Drop(Drop(b, 1), len), CHUNK_BYTES, mem.data);
    var out := LoadBlock(dest, f.sector, b, mem).dest;
    assert out == dest || Overwrites(dest, name, f.sector, data, out);
    if n >= 1 + |f.name| {
      var got := n - 1 - |f.name|;
      CutData(dest, f, got, mem);
      assert Overwrites(dest, f.name, f.sector, Fill(f.data[..got], CHUNK_BYTES, mem.data), out);
    }
  }

  lemma EncodeBlock(f: Frame)
    requires f.Block? && |f.name| < 256
    ensures Encode(f) == Header(f.sector, FLAG_DEVICE_BLOCK) + Body(f)
  {
    hide Header;
    var h := Header(f.sector, FLAG_DEVICE_BLOCK);
    assert h + [|f.name| as Byte] + f.name + f.data == h + Body(f);
  }

  lemma HeadersOnly(f: Frame)
    requires !f.Block?
    ensures |Encode(f)| == 8
  {
  }

  lemma ShortHeader(dest: Disks, b: seq<Byte>, mem: Memory)
    requires |b| < 8
    ensures LoadBytes(dest, b, false, mem) == Failed(dest, -EINVAL)
  {
  }

  lemma NotTorn(dest: Disks, f: Frame, m: nat)
    requires m < 8
    ensures Torn(dest, f, m, dest)
  {
  }

  lemma NoBlockFails(dest: Disks, addr: int, b: seq<Byte>, mem: Memory)
    ensures var one := LoadBlock(dest, addr, b, mem); one.Failed? ==> one.code == -EINVAL
  {
  }

  /** A frame that breaks off is an error. */
  lemma CutFrame(dest: Disks, f: Frame, n: nat, mem: Memory)
    requires Encodable(dest, f) && n < |Encode(f)|
    ensures var out := LoadBytes(dest, Encode(f)[..n], false, mem);
            out.Failed? && (out.code == -EIO || out.code == -EINVAL) && Torn(dest, f, n, out.dest)
  {
    hide LoadBytes, LoadBlock, Short, Header, Body, Torn, Encode;
    if n < 8 {
      ShortHeader(dest, Encode(f)[..n], mem);
      NotTorn(dest, f, n);
    } else if !f.Block? {
      HeadersOnly(f);
    } else {
      EncodeBlock(f);
      CutBody(f, n - 8);
      CutBlock(dest, f, n - 8, mem);
      var b := Body(f)[..n - 8];
      NoBlockFails(dest, f.sector, b, mem);
      LoadAfterHeader(dest, f.sector, FLAG_DEVICE_BLOCK, b, mem);
      assert Encode(f)[..n] == Header(f.sector, FLAG_DEVICE_BLOCK) + b;
    }
  }

  /** A block of which the name has come whole is written before its end is missed, the data that came and then
      whatever the buffer held. */
  lemma TornBlockIsWritten(dest: Disks, f: Frame, got: nat, mem: Memory)
    requires Encodable(dest, f) && f.Block? && f.sector * SECTOR_SIZE + CHUNK_BYTES <= |dest[f.name]|
    requires got < CHUNK_BYTES
    ensures var data := f.data[..got] + seq(CHUNK_BYTES - got, k requires k >= 0 => mem.data(got + k));
            LoadBytes(dest, Encode(f)[..9 + |f.name| + got], false, mem) ==
            Failed(dest[f.name := Splice(dest[f.name], f.sector * SECTOR_SIZE, data)], -EIO)
  {
    hide LoadBytes, LoadBlock, Header, Body, Encode, Splice, CString;
    var n := 1 + |f.name| + got;
    EncodeBlock(f);
    CutBody(f, n);
    CutData(dest, f, got, mem);
    FillSplit(f.data[..got], CHUNK_BYTES, mem.data);
    LoadAfterHeader(dest, f.sector, FLAG_DEVICE_BLOCK, Body(f)[..n], mem);
    assert Encode(f)[..8 + n] == Header(f.sector, FLAG_DEVICE_BLOCK) + Body(f)[..n];
  }

  lemma FillSplit(b: seq<Byte>, size: nat, before: nat -> Byte)
    requires |b| <= size
    ensures Fill(b, size, before) == b + seq(size - |b|, k requires k >= 0 => before(|b| + k))
  {
  }

  lemma EncodeUpTo(fs: seq<Frame>, k: nat)
    requires k < |fs|
    ensures EncodeAll(fs[..0]) == [] && EncodeAll(fs[..k + 1]) == Encode(fs[0]) + EncodeAll(fs[1..][..k])
  {
    assert fs[..k + 1][1..] == fs[1..][..k];
  }

  lemma NothingLoaded(dest: Disks, fs: seq<Frame>)
    requires fs == []
    ensures Load(dest, fs) == dest
  {
  }

  /** Of the first `n` bytes of the stream frame `k` is the first that is not whole: the loader reports an error,
      has loaded the frames before, and of frame `k` has done at most one write. */
  ghost predicate BreaksOff(dest: Disks, fs: seq<Frame>, n: nat, mem: Memory, k: nat) {
    && k < |fs| && |EncodeAll(fs[..k])| <= n < |EncodeAll(fs[..k + 1])| && n < |EncodeAll(fs)|
    && var out := LoadCalls(dest, EncodeAll(fs)[..n], Sections(fs), mem);
       && out.Failed? && (out.code == -EIO || out.code == -EINVAL)
       && Torn(Load(dest, fs[..k]), fs[k], n - |EncodeAll(fs[..k])|, out.dest)
  }

  lemma BreaksOffFirst(dest: Disks, fs: seq<Frame>, n: nat, mem: Memory)
    requires fs != [] && Encodable(dest, fs[0]) && fs[|fs| - 1].Eos? && n < |Encode(fs[0])|
    ensures BreaksOff(dest, fs, n, mem, 0)
  {
    hide Encode, LoadBytes, Encodable, Torn, LoadFrame, Load;
    SomeSection(fs);
    EncodeUpTo(fs, 0);
    NothingLoaded(dest, fs[..0]);
    assert EncodeAll(fs)[..n] == Encode(fs[0])[..n];
    CutFrame(dest, fs[0], n, mem);
  }

  lemma BreaksOffLater(dest: Disks, f: Frame, tail: seq<Frame>, n: nat, mem: Memory, k: nat)
    requires Encodable(dest, f) && tail != [] && tail[|tail| - 1].Eos?
    requires BreaksOff(LoadFrame(dest, f), tail, n, mem, k)
    ensures BreaksOff(dest, [f] + tail, |Encode(f)| + n, mem, k + 1)
  {
    hide Encode, EncodeAll, Sections, LoadBytes, LoadCalls, Encodable, Torn, LoadFrame, Load;
    EncodeFront(f, tail, n);
    LoadOneMore(dest, f, tail, EncodeAll(tail)[..n], mem);
    EncodedLengths(f, tail, k);
    LoadFront(dest, f, tail[..k]);
  }

  lemma EncodeFront(f: Frame, tail: seq<Frame>, n: nat)
    requires n <= |EncodeAll(tail)|
    ensures |EncodeAll([f] + tail)| == |Encode(f)| + |EncodeAll(tail)|
    ensures EncodeAll([f] + tail)[..|Encode(f)| + n] == Encode(f) + EncodeAll(tail)[..n]
  {
    hide Encode;
    assert ([f] + tail)[1..] == tail;
    assert EncodeAll([f] + tail) == Encode(f) + EncodeAll(tail);
  }

  lemma EncodedLengths(f: Frame, tail: seq<Frame>, k: nat)
    requires k < |tail|
    ensures var fs := [f] + tail;
            && fs[..k + 1] == [f] + tail[..k] && fs[k + 1] == tail[k]
            && |EncodeAll(fs[..k + 1])| == |Encode(f)| + |EncodeAll(tail[..k])|
            && |EncodeAll(fs[..k + 2])| == |Encode(f)| + |EncodeAll(tail[..k + 1])|
  {
    hide Encode, EncodeAll;
    EncodeUpTo([f] + tail, k);
    EncodeUpTo([f] + tail, k + 1);
    assert ([f] + tail)[1..] == tail;
  }

  /** A stream that breaks off anywhere is always noticed. */
  lemma {:induction false} TruncatedStream(dest: Disks, fs: seq<Frame>, n: nat, mem: Memory) returns (k: nat)
    requires forall f :: f in fs ==> Encodable(dest, f)
    requires fs != [] && fs[|fs| - 1].Eos? && n < |EncodeAll(fs)|
    ensures BreaksOff(dest, fs, n, mem, k)
    decreases |fs|
  {
    hide Encode, Encodable, BreaksOff, LoadFrame;
    if n < |Encode(fs[0])| {
      BreaksOffFirst(dest, fs, n, mem);
      k := 0;
    } else {
      TailEncodable(dest, fs);
      var m := n - |Encode(fs[0])|;
      k := TruncatedStream(LoadFrame(dest, fs[0]), fs[1..], m, mem);
      BreaksOffLater(dest, fs[0], fs[1..], m, mem, k);
      assert [fs[0]] + fs[1..] == fs;
      k := k + 1;
    }
  }

  /** End to end: a finished migration's stream, loaded call by call, is read to its last byte and
      leaves every chunk of the destination as the dirty pass determined it. */
  lemma StreamMigrates(mid: State, dest0: Disks, wire: seq<Frame>, rest: seq<Byte>, mem: Memory)
    requires DevsOk(mid.devs, dest0) && DevsOk(mid.devs, Load(dest0, wire)) && Migrated(mid, dest0, Load(dest0, wire))
    requires WireOk(dest0, wire) && wire != [] && wire[|wire| - 1].Eos?
    requires forall n :: n in dest0 ==> |n| < 256 && 0 !in n && |dest0[n]| < TWO_63
    ensures var out := LoadCalls(dest0, EncodeAll(wire) + rest, Sections(wire), mem);
            && out.Done? && out.rest == rest && DevsOk(mid.devs, out.dest) && Migrated(mid, dest0, out.dest)
            && (NothingMissed(mid) ==> SameDisks(mid.devs, out.dest))
  {
    StreamRoundTrip(dest0, wire, rest, mem);
    if NothingMissed(mid) {
      MigratedIffSame(mid, dest0, Load(dest0, wire));
    }
  }

  // ---------------------------------------------------------------- the loader

  /** The loader and the file it reads. */
  class Loader {
    const input: seq<Byte>
    var pos: nat
    /** The error flag of the file: set for good once more is asked for than there is. */
    var error: bool
    var dest: Disks

    constructor (input: seq<Byte>, dest: Disks)
      ensures this.input == input && this.pos == 0 && !this.error && this.dest == dest
    {
      this.input := input;
      this.pos := 0;
      this.error := false;
      this.dest := dest;
    }

    function Rest(): seq<Byte>
      reads this
    {
      Drop(input, pos)
    }

    /** The next byte, zero at the end of the input. */
    method GetByte() returns (x: Byte)
      requires pos <= |input|
      modifies this`pos, this`error
      ensures pos <= |input| && Rest() == Drop(old(Rest()), 1)
      ensures x == if old(Rest()) == [] then 0 else old(Rest())[0]
      ensures error == (old(error) || old(Rest()) == [])
    {
      if pos == |input| {
        error := true;
        return 0;
      }
      x := input[pos];
      pos := pos + 1;
    }

    /** The next `size` bytes, as far as there are any, into a buffer that held `before`. */
    method GetBuffer(size: nat, before: nat -> Byte) returns (buf: seq<Byte>)
      requires pos <= |input|
      modifies this`pos, this`error
      ensures pos <= |input| && buf == Fill(old(Rest()), size, before) && Rest() == Drop(old(Rest()), size)
      ensures error == (old(error) || |old(Rest())| < size)
    {
      buf := Fill(input[pos..], size, before);
      if |input| - pos < size {
        error := true;
        pos := |input|;
      } else {
        pos := pos + size;
      }
    }

    /** Eight bytes as a signed number. */
    method GetBe64() returns (v: int)
      requires pos <= |input|
      modifies this`pos, this`error
      ensures pos <= |input| && Rest() == Drop(old(Rest()), 8)
      ensures |old(Rest())| >= 8 ==> error == old(error) && v == Int64(FromBigEndian(old(Rest())[..8]))
      ensures |old(Rest())| < 8 ==> error && v % 256 == 0
    {
      hide FromBigEndian;
      var u: nat := 0;
      ghost var b := Rest();
      NoBytes(b[..0]);
      for k := 0 to 8
        invariant pos <= |input| && Rest() == Drop(b, k)
        invariant k <= |b| ==> error == old(error) && u == FromBigEndian(b[..k])
        invariant k > |b| ==> error && u % 256 == 0
      {
        var x := GetByte();
        if k < |b| {
          PushByte(b[..k], x);
          assert b[..k + 1] == b[..k] + [x];
        }
        u := u * 256 + x as nat;
      }
      v := if u < TWO_63 then u else u - TWO_64;
    }

    /** Reads a device block whose header is already read, and performs its write. */
    method LoadDeviceBlock(addr: int, mem: Memory) returns (code: int)
      requires pos <= |input|
      modifies this
      ensures pos <= |input|
      ensures match LoadBlock(old(dest), addr, old(Rest()), mem)
              case Done(d, rest) =>
                code == 0 && dest == d && Rest() == rest && error == (old(error) || Short(old(Rest())))
              case Failed(d, c) => code == c && c < 0 && dest == d && (old(error) ==> error)
    {
      hide Fill;
      var len := GetByte();
      var deviceName := GetBuffer(len as nat, mem.name);
      var name := CString(deviceName);
      if name !in dest {
        return -EINVAL;
      }
      var buf := GetBuffer(CHUNK_BYTES, mem.data);
      dest := WriteChunk(dest, name, addr, buf);
      return 0;
    }

    /** Reads frames and performs their writes until the end-of-section mark or an error. `mem` is what the
        buffers hold when the input ends. */
    method BlockLoad(mem: Memory) returns (code: int)
      requires pos <= |input|
      modifies this
      ensures pos <= |input|
      ensures match LoadBytes(old(dest), old(Rest()), old(error), mem)
              case Done(d, rest) => code == 0 && dest == d && Rest() == rest && !error
              case Failed(d, c) => code == c && dest == d
    {
      hide LoadBlock, Short, FromBigEndian, LoadBytes, IsBlock, IsProgress, IsEos;
      ghost var expected := LoadBytes(dest, Rest(), error, mem);
      while true
        invariant pos <= |input| && LoadBytes(dest, Rest(), error, mem) == expected
        decreases |Rest()|
      {
        LoadStep(dest, Rest(), error, mem);
        ghost var b := Rest();
        var head := GetBe64();
        if |b| < 8 {
          NoFlags(head);
        }
        if IsBlock(head) {
          code := LoadDeviceBlock(head / SECTOR_SIZE, mem);
          if code != 0 {
            return;
          }
        } else if IsProgress(head) {
          // A progress report: nothing to load.
        } else if !IsEos(head) {
          return -EINVAL;
        }
        if error {
          return -EIO;
        }
        if IsEos(head) {
          return 0;
        }
      }
    }
  }
}
