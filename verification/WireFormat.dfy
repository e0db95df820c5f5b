/** The migration stream byte by byte: what is written, and what the loader does with each header. */
module WireFormat {
  import opened Errno
  import opened Sectors
  import opened Migration
  import opened Wire

  // ---------------------------------------------------------------- headers

  /** Eight bytes as a number, the most significant one first. */
  function Value(b: seq<Byte>): (v: nat)
    requires |b| == 8
  {
    b[0] as nat * 0x100_0000_0000_0000 + b[1] as nat * 0x1_0000_0000_0000 + b[2] as nat * 0x100_0000_0000
    + b[3] as nat * 0x1_0000_0000 + b[4] as nat * 0x100_0000 + b[5] as nat * 0x1_0000 + b[6] as nat * 0x100
    + b[7] as nat
  }

  lemma LastDigit(q: nat, x: Byte, n: nat)
    ensures BigEndian(256 * q + x as nat, n + 1) == BigEndian(q, n) + [x]
  {
    var v := 256 * q + x as nat;
    assert v / 256 == q && v % 256 == x as nat;
  }

  lemma NoDigits(v: nat)
    ensures BigEndian(v, 0) == []
  {
  }

  /** Numbers are written and read most significant byte first. */
  lemma {:induction false} BytesOf(b: seq<Byte>, n: nat, v: nat)
    requires n <= |b| && v == FromBigEndian(b[..n])
    ensures BigEndian(v, n) == b[..n]
    decreases n
  {
    hide FromBigEndian, BigEndian;
    if n == 0 {
      NoDigits(v);
    } else {
      var q := FromBigEndian(b[..n - 1]);
      assert b[..n] == b[..n - 1] + [b[n - 1]];
      PushByte(b[..n - 1], b[n - 1]);
      BytesOf(b, n - 1, q);
      LastDigit(q, b[n - 1], n - 1);
    }
  }

  lemma ValueIs(b: seq<Byte>)
    requires |b| == 8
    ensures FromBigEndian(b) == Value(b) && BigEndian(Value(b), 8) == b
  {
    ValueOf4(b);
    assert b[..8] == b;
    assert b[..5] == b[..4] + [b[4]] && b[..6] == b[..5] + [b[5]];
    assert b[..7] == b[..6] + [b[6]] && b[..8] == b[..7] + [b[7]];
    PushByte(b[..4], b[4]);
    PushByte(b[..5], b[5]);
    PushByte(b[..6], b[6]);
    PushByte(b[..7], b[7]);
    BytesOf(b, 8, FromBigEndian(b));
  }

  lemma ValueOf4(b: seq<Byte>)
    requires |b| >= 4
    ensures FromBigEndian(b[..4]) ==
            b[0] as nat * 0x100_0000 + b[1] as nat * 0x1_0000 + b[2] as nat * 0x100 + b[3] as nat
  {
    hide FromBigEndian;
    assert b[..1] == b[..0] + [b[0]] && b[..2] == b[..1] + [b[1]];
    assert b[..3] == b[..2] + [b[2]] && b[..4] == b[..3] + [b[3]];
    NoBytes(b[..0]);
    PushByte(b[..0], b[0]);
    PushByte(b[..1], b[1]);
    PushByte(b[..2], b[2]);
    PushByte(b[..3], b[3]);
  }

  // ---------------------------------------------------------------- what is written

  /** The mark that ends a section, and a progress report: bytes 6 and 7 hold the percentage and the flag. */
  lemma SmallFrames(percent: nat)
    requires percent <= 100
    ensures Encode(Eos) == [0, 0, 0, 0, 0, 0, 0, 2]
    ensures Encode(Progress(percent)) == [0, 0, 0, 0, 0, 0, (2 * percent) as Byte, 4]
  {
    hide BigEndian;
    ValueIs([0, 0, 0, 0, 0, 0, 0, 2]);
    ValueIs([0, 0, 0, 0, 0, 0, (2 * percent) as Byte, 4]);
  }

  /** A block: eight bytes with 512 times its sector plus one, the length of the name, the name, the data. */
  lemma BlockFrame(f: Frame, h: seq<Byte>)
    requires f.Block? && |f.name| < 256 && |h| == 8 && Value(h) == f.sector * 512 + 1
    ensures Encode(f) == h + [|f.name| as Byte] + f.name + f.data
  {
    hide BigEndian;
    ValueIs(h);
  }

  // ---------------------------------------------------------------- what is read

  /** The sector in a header: the value without its lowest nine bits, as a signed number. */
  function SectorIn(h: seq<Byte>): int
    requires |h| == 8
  {
    if h[0] < 128 then Value(h) / 512 else (Value(h) - 0x1_0000_0000_0000_0000) / 512
  }

  /** The flags are the lowest bits of the last byte. */
  lemma FlagsAre(h: seq<Byte>)
    requires |h| == 8
    ensures var head := Int64(FromBigEndian(h));
            && (IsBlock(head) <==> h[7] % 2 == 1) && (IsEos(head) <==> h[7] / 2 % 2 == 1)
            && (IsProgress(head) <==> h[7] / 4 % 2 == 1) && head / SECTOR_SIZE == SectorIn(h)
  {
    hide IsBlock, IsEos, IsProgress, FromBigEndian, Value, Int64, SectorIn;
    ValueIs(h);
    SignedValue(h);
    var head := Int64(Value(h));
    LastByteFlags(head, h[7] as nat);
  }

  lemma LastByteFlags(head: int, x: nat)
    requires x < 256 && (head - x) % 8 == 0
    ensures IsBlock(head) <==> x % 2 == 1
    ensures IsEos(head) <==> x / 2 % 2 == 1
    ensures IsProgress(head) <==> x / 4 % 2 == 1
  {
    hide IsBlock, IsEos, IsProgress;
    var k, b2, b1, b0 := Digits(x);
    var m := Eighth(head - x);
    LowBits(m + k, b0, b1, b2);
  }

  lemma Digits(x: nat) returns (k: nat, b2: nat, b1: nat, b0: nat)
    ensures x == 8 * k + 4 * b2 + 2 * b1 + b0 && b2 == x / 4 % 2 && b1 == x / 2 % 2 && b0 == x % 2
    ensures b2 < 2 && b1 < 2 && b0 < 2
  {
    hide *;
    var h := x / 2;
    var q := h / 2;
    b0, b1, b2, k := x % 2, h % 2, q % 2, q / 2;
    SplitBit(x);
    SplitBit(h);
    SplitBit(q);
    HalfOfHalf(x);
  }

  lemma SplitBit(x: nat)
    ensures x == 2 * (x / 2) + x % 2
  {
  }

  lemma HalfOfHalf(x: nat)
    ensures x / 2 / 2 == x / 4
  {
  }

  lemma Eighth(n: int) returns (m: int)
    requires n % 8 == 0
    ensures n == 8 * m
  {
    m := n / 8;
  }

  /** The sign is the first bit, and the other bytes are a multiple of eight. */
  lemma SignedValue(h: seq<Byte>)
    requires |h| == 8
    ensures Int64(Value(h)) / SECTOR_SIZE == SectorIn(h) && (Int64(Value(h)) - h[7] as nat) % 8 == 0
  {
    TopByte(h);
  }

  lemma TopByte(h: seq<Byte>)
    requires |h| == 8
    ensures Value(h) < TWO_63 <==> h[0] < 128
    ensures (Int64(Value(h)) - h[7] as nat) % 8 == 0
  {
  }

  /** The destination after a block for sector `sector` of a device: a block that does not fit is dropped. */
  function Written(dest: Disks, name: Name, sector: int, data: seq<Byte>): Disks
    requires name in dest
  {
    if 0 <= sector && sector * 512 + |data| <= |dest[name]| then dest[name := Splice(dest[name], sector * 512, data)]
    else dest
  }

  /** A whole block for a known device: it is written whatever other flags its header has; then the error flag of the
      file counts, and then the end-of-section flag. */
  lemma LoadsBlock(dest: Disks, h: seq<Byte>, name: Name, data: seq<Byte>, rest: seq<Byte>, error: bool, mem: Memory)
    requires |h| == 8 && h[7] % 2 == 1 && |name| < 256 && 0 !in name && name in dest && |data| == 1048576
    ensures var b, d := h + ([|name| as Byte] + (name + (data + rest))), Written(dest, name, SectorIn(h), data);
            LoadBytes(dest, b, error, mem) ==
            if error then Failed(d, -5) else if h[7] / 2 % 2 == 1 then Done(d, rest) else LoadBytes(d, rest, false, mem)
  {
    hide Fill, Drop, CString, IsBlock, IsEos, IsProgress, LoadBytes, FromBigEndian;
    var body := [|name| as Byte] + (name + (data + rest));
    FlagsAre(h);
    assert (h + body)[..8] == h && (h + body)[8..] == body;
    LoadStep(dest, h + body, error, mem);
    assert Drop(body, 1) == name + (data + rest) by {
      FillWhole([|name| as Byte], name + (data + rest), mem.name);
    }
    FillWhole(name, data + rest, mem.name);
    CStringOfName(name);
    FillWhole(data, rest, mem.data);
  }

  /** A block for a device that does not exist ends the call, with nothing written. */
  lemma LoadsUnknown(dest: Disks, h: seq<Byte>, name: Name, rest: seq<Byte>, error: bool, mem: Memory)
    requires |h| == 8 && h[7] % 2 == 1 && |name| < 256 && 0 !in name && name !in dest
    ensures LoadBytes(dest, h + ([|name| as Byte] + (name + rest)), error, mem) == Failed(dest, -22)
  {
    hide Fill, Drop, CString, IsBlock, IsEos, IsProgress, LoadBytes, FromBigEndian;
    var body := [|name| as Byte] + (name + rest);
    FlagsAre(h);
    assert (h + body)[..8] == h && (h + body)[8..] == body;
    LoadStep(dest, h + body, error, mem);
    assert Drop(body, 1) == name + rest by {
      FillWhole([|name| as Byte], name + rest, mem.name);
    }
    FillWhole(name, rest, mem.name);
    CStringOfName(name);
  }

  /** A header without the block flag: without a known flag it is refused; otherwise the error flag of the file
      counts, and then the end-of-section flag. */
  lemma LoadsOther(dest: Disks, h: seq<Byte>, rest: seq<Byte>, error: bool, mem: Memory)
    requires |h| == 8 && h[7] % 2 == 0
    ensures LoadBytes(dest, h + rest, error, mem) ==
            if h[7] / 2 % 2 == 0 && h[7] / 4 % 2 == 0 then Failed(dest, -22)
            else if error then Failed(dest, -5)
            else if h[7] / 2 % 2 == 1 then Done(dest, rest) else LoadBytes(dest, rest, false, mem)
  {
    hide IsBlock, IsEos, IsProgress, LoadBytes, FromBigEndian;
    FlagsAre(h);
    assert (h + rest)[..8] == h && (h + rest)[8..] == rest;
    LoadStep(dest, h + rest, error, mem);
  }

  /** A device name ends before its first zero byte. */
  lemma {:induction false} NameEnds(s: seq<Byte>)
    ensures CString(s) <= s && 0 !in CString(s) && (|CString(s)| < |s| ==> s[|CString(s)|] == 0)
  {
    if s != [] && s[0] != 0 {
      NameEnds(s[1..]);
    }
  }
}
