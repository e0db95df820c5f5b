/** Disks as flat byte sequences, addressed by byte, by sector (512 bytes) and by the
    chunks (2048 sectors) that dirty tracking and live migration work in. */
module Sectors {
  newtype Byte = x: int | 0 <= x < 256

  type Disk = seq<Byte>

  const SECTOR_SIZE: nat := 512
  const CHUNK_SECTORS: nat := 2048
  const CHUNK_BYTES: nat := 1048576

  datatype Option<+T> = None | Some(value: T)

  function Min(a: int, b: int): int {
    if a < b then a else b
  }

  /** The disk `d` with `data` written at byte offset `off`. */
  function Splice(d: Disk, off: nat, data: seq<Byte>): (r: Disk)
    requires off + |data| <= |d|
    ensures |r| == |d|
    ensures forall p :: 0 <= p < |d| ==> r[p] == if off <= p < off + |data| then data[p - off] else d[p]
  {
    d[..off] + data + d[off + |data|..]
  }

  function Sector(d: Disk, s: nat): Disk
    requires (s + 1) * SECTOR_SIZE <= |d|
  {
    d[s * SECTOR_SIZE..(s + 1) * SECTOR_SIZE]
  }

  /** Chunk `c` of `d`; the last chunk may be partial. */
  function Chunk(d: Disk, c: nat): Disk
    requires c * CHUNK_BYTES < |d|
  {
    d[c * CHUNK_BYTES..Min(|d|, (c + 1) * CHUNK_BYTES)]
  }

  lemma ChunkOutsideSplice(d: Disk, off: nat, data: seq<Byte>, c: nat)
    requires off + |data| <= |d| && c * CHUNK_BYTES < |d|
    requires (c + 1) * CHUNK_BYTES <= off || off + |data| <= c * CHUNK_BYTES
    ensures Chunk(Splice(d, off, data), c) == Chunk(d, c)
  {
  }

  lemma ChunkOfSplice(d: Disk, c: nat, data: seq<Byte>)
    requires |data| == CHUNK_BYTES && (c + 1) * CHUNK_BYTES <= |d|
    ensures Chunk(Splice(d, c * CHUNK_BYTES, data), c) == data
  {
  }

  /** Two disks of one size that agree chunk by chunk are equal. */
  lemma ChunksDetermineDisk(a: Disk, b: Disk)
    requires |a| == |b|
    requires forall c: nat :: c * CHUNK_BYTES < |a| ==> Chunk(a, c) == Chunk(b, c)
    ensures a == b
  {
    forall p | 0 <= p < |a|
      ensures a[p] == b[p]
    {
      var c := p / CHUNK_BYTES;
      assert Chunk(a, c)[p - c * CHUNK_BYTES] == Chunk(b, c)[p - c * CHUNK_BYTES];
    }
  }

  lemma SectorOfByte(p: nat, c: nat, length: nat)
    requires c * CHUNK_BYTES <= p < (c + 1) * CHUNK_BYTES && p < length && length % SECTOR_SIZE == 0
    ensures var s := p / SECTOR_SIZE;
            && c * CHUNK_SECTORS <= s < (c + 1) * CHUNK_SECTORS && (s + 1) * SECTOR_SIZE <= length
            && s * SECTOR_SIZE <= p < (s + 1) * SECTOR_SIZE
  {
    assert length == SECTOR_SIZE * (length / SECTOR_SIZE);
  }

  /** Disks that agree on every sector of a chunk agree on the chunk. */
  lemma SectorsDetermineChunk(a: Disk, b: Disk, c: nat)
    requires |a| == |b| && |a| % SECTOR_SIZE == 0 && c * CHUNK_BYTES < |a|
    requires forall s: nat :: c * CHUNK_SECTORS <= s < (c + 1) * CHUNK_SECTORS && (s + 1) * SECTOR_SIZE <= |a|
               ==> Sector(a, s) == Sector(b, s)
    ensures Chunk(a, c) == Chunk(b, c)
  {
    forall p | c * CHUNK_BYTES <= p < Min(|a|, (c + 1) * CHUNK_BYTES)
      ensures a[p] == b[p]
    {
      var s := p / SECTOR_SIZE;
      SectorOfByte(p, c, |a|);
      assert Sector(a, s)[p - s * SECTOR_SIZE] == Sector(b, s)[p - s * SECTOR_SIZE];
    }
  }
}
