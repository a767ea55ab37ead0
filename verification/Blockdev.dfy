/**
 kern/blockdev.c: a volume is a run of 512-byte sectors, read and written as one
 flat stretch of bytes through the sector-at-a-time buffer cache.
 */
module Blockdev {
  import opened Bytes
  import opened Basics

  const MAXLBA: nat := 0xffff_ffff  // the buffer cache's sector numbers have 32 bits
  const MAX64: nat := 0xffff_ffff_ffff_ffff

  /** struct blockdev */
  datatype Volume = Volume(first: nat, count: nat)

  predicate VolumeOk(v: Volume, disk: seq<Block>) {
    v.first + v.count <= |disk| && v.first + v.count <= MAX64
  }

  /** Byte i of the volume. */
  function ByteAt(v: Volume, disk: seq<Block>, i: nat): Byte
    requires VolumeOk(v, disk) && i < v.count * BSIZE
  {
    disk[v.first + i / BSIZE].bytes[i % BSIZE]
  }

  /** The volume is its sectors, one after the other. */
  lemma VolumeIsSectors(v: Volume, disk: seq<Block>, i: nat)
    requires VolumeOk(v, disk) && i < v.count * BSIZE
    ensures ByteAt(v, disk, i) == Concat(disk[v.first..v.first + v.count])[i]
  {
    hide Concat;
    ConcatAt(disk[v.first..v.first + v.count], i / BSIZE, i % BSIZE);
  }

  /** The argument checks: in range, and no overflow of the byte size. */
  predicate InRange(v: Volume, offset: nat, length: nat) {
    v.count <= MAX64 / BSIZE && offset <= v.count * BSIZE && length <= v.count * BSIZE - offset
  }

  /** Every sector of [offset, offset + length) has a 32-bit number. */
  predicate Addressable(v: Volume, offset: nat, length: nat) {
    length > 0 ==> v.first + (offset + length - 1) / BSIZE <= MAXLBA
  }

  /** Bytes of one sector lie together. */
  lemma SameSector(offset: nat, k: nat)
    requires k < BSIZE - offset % BSIZE
    ensures (offset + k) / BSIZE == offset / BSIZE && (offset + k) % BSIZE == offset % BSIZE + k
  {
  }

  /** blockdev_read: exactly the bytes asked for; None is -1. */
  method Read(v: Volume, disk: seq<Block>, offset: nat, length: nat) returns (r: Option<seq<Byte>>)
    requires VolumeOk(v, disk) && length <= MAXLBA
    ensures r.Some? <==> InRange(v, offset, length) && Addressable(v, offset, length)
    ensures r.Some? ==> |r.value| == length && forall k :: 0 <= k < length ==> r.value[k] == ByteAt(v, disk, offset + k)
  {
    hide ByteAt;
    if !InRange(v, offset, length) {
      return None;
    }
    var out: seq<Byte> := [];
    while |out| < length
      invariant |out| <= length && Addressable(v, offset, |out|)
      invariant forall k :: 0 <= k < |out| ==> out[k] == ByteAt(v, disk, offset + k)
      decreases length - |out|
    {
      var at := offset + |out|;
      var inSector := at % BSIZE;
      var count := if BSIZE - inSector > length - |out| then length - |out| else BSIZE - inSector;
      var lba := v.first + at / BSIZE;
      SameSector(at, count - 1);
      if lba > MAXLBA {
        NotAddressable(v, offset, |out|, length);
        return None;
      }
      var chunk := disk[lba].bytes[inSector..inSector + count];
      ChunkRead(v, disk, at, chunk);
      out := out + chunk;
      assert offset + |out| - 1 == at + (count - 1);
    }
    r := Some(out);
  }

  lemma ChunkRead(v: Volume, disk: seq<Block>, at: nat, chunk: seq<Byte>)
    requires VolumeOk(v, disk) && |chunk| <= BSIZE - at % BSIZE && at + |chunk| <= v.count * BSIZE
    requires at < v.count * BSIZE
    requires chunk == disk[v.first + at / BSIZE].bytes[at % BSIZE..at % BSIZE + |chunk|]
    ensures forall k :: 0 <= k < |chunk| ==> chunk[k] == ByteAt(v, disk, at + k)
  {
    forall k | 0 <= k < |chunk|
      ensures chunk[k] == ByteAt(v, disk, at + k)
    {
      SameSector(at, k);
    }
  }

  lemma NotAddressable(v: Volume, offset: nat, n: nat, length: nat)
    requires n < length && v.first + (offset + n) / BSIZE > MAXLBA
    ensures !Addressable(v, offset, length)
  {
  }

  /** The bytes [offset, offset + |src|) of the volume are src, all others as before. */
  ghost predicate Written(v: Volume, before: seq<Block>, after: seq<Block>, offset: nat, src: seq<Byte>)
    requires VolumeOk(v, before) && VolumeOk(v, after)
  {
    forall i: nat :: i < v.count * BSIZE ==>
      ByteAt(v, after, i) == if offset <= i < offset + |src| then src[i - offset] else ByteAt(v, before, i)
  }

  /** Writing a chunk inside one sector changes the bytes of the chunk and no others. */
  lemma ChunkAt(v: Volume, disk: seq<Block>, at: nat, chunk: seq<Byte>, i: nat)
    requires VolumeOk(v, disk) && |chunk| <= BSIZE - at % BSIZE && at < v.count * BSIZE && i < v.count * BSIZE
    ensures var lba := v.first + at / BSIZE;
            && lba < |disk|
            && var after := disk[lba := Block(Splice(disk[lba].bytes, at % BSIZE, chunk))];
               VolumeOk(v, after) && ByteAt(v, after, i) == if at <= i < at + |chunk| then chunk[i - at]
                   else ByteAt(v, disk, i)
  {
    if at <= i < at + |chunk| {
      SameSector(at, i - at);
    }
  }

  lemma WroteChunk(v: Volume, before: seq<Block>, disk: seq<Block>, offset: nat, src: seq<Byte>, n: nat, count: nat)
    requires VolumeOk(v, before) && VolumeOk(v, disk) && n + count <= |src| && 0 < count <= BSIZE - (offset + n) % BSIZE
    requires offset + |src| <= v.count * BSIZE && Written(v, before, disk, offset, src[..n])
    ensures var at := offset + n;
            var lba := v.first + at / BSIZE;
            && lba < |disk|
            && var after := disk[lba := Block(Splice(disk[lba].bytes, at % BSIZE, src[n..n + count]))];
               VolumeOk(v, after) && Written(v, before, after, offset, src[..n + count])
  {
    hide ByteAt, Splice;
    var at := offset + n;
    var lba := v.first + at / BSIZE;
    ChunkAt(v, disk, at, src[n..n + count], 0);
    var after := disk[lba := Block(Splice(disk[lba].bytes, at % BSIZE, src[n..n + count]))];
    forall i: nat | i < v.count * BSIZE
      ensures ByteAt(v, after, i) == if offset <= i < offset + (n + count) then src[..n + count][i - offset]
          else ByteAt(v, before, i)
    {
      ChunkAt(v, disk, at, src[n..n + count], i);
      assert ByteAt(v, disk, i) == if offset <= i < offset + n then src[..n][i - offset] else ByteAt(v, before, i);
    }
  }

  class Device {
    var disk: seq<Block>

    constructor (disk: seq<Block>)
      ensures this.disk == disk
    {
      this.disk := disk;
    }

    /** blockdev_write: false is -1. It stops at the first sector whose number has more than 32 bits, with the
        bytes before it, done of them, written; no block outside the volume changes. */
    method Write(v: Volume, offset: nat, src: seq<Byte>) returns (ok: bool, ghost done: nat)
      requires VolumeOk(v, disk) && |src| <= MAXLBA
      modifies this`disk
      ensures VolumeOk(v, disk) && |disk| == |old(disk)|
      ensures ok <==> InRange(v, offset, |src|) && Addressable(v, offset, |src|)
      ensures done <= |src| && (ok <==> InRange(v, offset, |src|) && done == |src|)
      ensures Written(v, old(disk), disk, offset, src[..done])
      ensures !ok ==>
          if InRange(v, offset, |src|) then Addressable(v, offset, done) && v.first + (offset + done) / BSIZE > MAXLBA
                      else done == 0
      ensures forall b :: 0 <= b < |disk| && !(v.first <= b < v.first + v.count) ==> disk[b] == old(disk)[b]
    {
      hide Written, ByteAt, Addressable, Splice;
      NoneWritten(v, disk, offset, src);
      if !InRange(v, offset, |src|) {
        return false, 0;
      }
      var n := 0;
      NothingAddressed(v, offset);
      while n < |src|
        invariant 0 <= n <= |src| && Addressable(v, offset, n) && VolumeOk(v, disk) && |disk| == |old(disk)|
        invariant forall b :: 0 <= b < |disk| && !(v.first <= b < v.first + v.count) ==> disk[b] == old(disk)[b]
        invariant Written(v, old(disk), disk, offset, src[..n])
      {
        var at := offset + n;
        var count := if BSIZE - at % BSIZE > |src| - n then |src| - n else BSIZE - at % BSIZE;
        var lba := v.first + at / BSIZE;
        if lba > MAXLBA {
          NotAddressable(v, offset, n, |src|);
          return false, n;
        }
        StillAddressable(v, offset, n, count);
        WroteChunk(v, old(disk), disk, offset, src, n, count);
        disk := disk[lba := Block(Splice(disk[lba].bytes, at % BSIZE, src[n..n + count]))];
        n := n + count;
      }
      ok, done := true, n;
    }
  }

  /**
   The bytes of a volume as a file system has them: the first size of them, through
   blockdev_read and blockdev_write. All sectors have 32-bit numbers, so neither fails.
   */
  class Store {
    const dev: Device
    const vol: Volume
    const size: nat

    constructor (dev: Device, vol: Volume, size: nat)
      requires Reaches(dev.disk, vol, size)
      ensures this.dev == dev && this.vol == vol && this.size == size && Valid()
    {
      this.dev, this.vol, this.size := dev, vol, size;
    }

    ghost predicate Valid()
      reads dev
    {
      Reaches(dev.disk, vol, size)
    }

    ghost function Bytes(): seq<Byte>
      reads dev
    {
      if Valid() then Flat(vol, dev.disk, size) else []
    }

    method Get(at: nat, count: nat) returns (s: seq<Byte>)
      requires Valid() && at + count <= size && count <= MAXLBA
      ensures |Bytes()| == size && s == Bytes()[at..at + count]
    {
      hide ByteAt;
      Fits(vol, size, at, count);
      var r := Read(vol, dev.disk, at, count);
      s := r.value;
    }

    method Put(at: nat, src: seq<Byte>)
      requires Valid() && at + |src| <= size && |src| <= MAXLBA
      modifies dev`disk
      ensures Valid() && |Bytes()| == |old(Bytes())| == size && Bytes() == Splice(old(Bytes()), at, src)
      ensures |dev.disk| == |old(dev.disk)|
      ensures forall b :: 0 <= b < |dev.disk| && !(vol.first <= b < vol.first + vol.count) ==>
          dev.disk[b] == old(dev.disk)[b]
    {
      hide ByteAt;
      Fits(vol, size, at, |src|);
      var ok, done := dev.Write(vol, at, src);
      assert src[..done] == src;
    }
  }

  /** The first size bytes are there, and every sector of the volume has a 32-bit number. */
  predicate Reaches(disk: seq<Block>, v: Volume, size: nat) {
    VolumeOk(v, disk) && size <= v.count * BSIZE && v.first + v.count <= MAXLBA + 1
  }

  ghost function Flat(v: Volume, disk: seq<Block>, size: nat): (s: seq<Byte>)
    requires Reaches(disk, v, size)
    ensures |s| == size && forall i :: 0 <= i < size ==> s[i] == ByteAt(v, disk, i)
  {
    seq(size, i requires 0 <= i < size => ByteAt(v, disk, i))
  }

  lemma Fits(v: Volume, size: nat, at: nat, count: nat)
    requires size <= v.count * BSIZE && v.first + v.count <= MAXLBA + 1 && at + count <= size
    ensures InRange(v, at, count) && Addressable(v, at, count)
  {
  }

  lemma NothingAddressed(v: Volume, offset: nat)
    ensures Addressable(v, offset, 0)
  {
  }

  lemma StillAddressable(v: Volume, offset: nat, n: nat, count: nat)
    requires 0 < count <= BSIZE - (offset + n) % BSIZE && v.first + (offset + n) / BSIZE <= MAXLBA
    ensures Addressable(v, offset, n + count)
  {
    SameSector(offset + n, count - 1);
    assert offset + (n + count) - 1 == offset + n + (count - 1);
  }

  lemma NoneWritten(v: Volume, disk: seq<Block>, offset: nat, src: seq<Byte>)
    requires VolumeOk(v, disk)
    ensures Written(v, disk, disk, offset, src[..0])
  {
  }
}
