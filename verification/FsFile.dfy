/**
 The native branches of readi and writei (kern/fs.c): block by block through bmap,
 they act on a file as on one sequence of bytes. Files are hole-free, so readi
 never allocates.
 */
module FsFile {
  import opened Bytes
  import opened FsBlocks
  import opened Fs
  import opened Basics

  const MAXSIZE: nat := 8459776  // MAXFILE * BSIZE

  function BlockOf(v: Volume, ino: nat, bn: nat): Word
    requires bn < MAXFILE
  {
    PtrAt(v, Ref(ino, DataPlace(bn)))
  }

  /** Byte i of a file; 0 where it has no block. */
  function ByteAt(v: Volume, ino: nat, i: nat): Byte
    requires i < MAXSIZE
  {
    var b := BlockOf(v, ino, i / BSIZE);
    if 0 < b < |v.disk| then v.disk[b].bytes[i % BSIZE] else 0
  }

  /** Every block below byte n of the file is there. */
  ghost predicate Filled(v: Volume, ino: nat, n: nat) {
    forall bn: nat :: bn < MAXFILE && bn * BSIZE < n ==> BlockOf(v, ino, bn) != 0
  }

  ghost predicate FilesOk(v: Volume) {
    forall n :: n in v.inodes ==> v.inodes[n].size <= MAXSIZE && Filled(v, n, v.inodes[n].size)
  }

  function BlockBytes(v: Volume, b: nat): (s: seq<Byte>)
    ensures |s| == BSIZE
  {
    if 0 < b < |v.disk| then v.disk[b].bytes else Zeros(BSIZE)
  }

  /** The bytes of one block after the other. */
  function Flat(v: Volume, blocks: seq<Word>): (s: seq<Byte>)
    ensures |s| == BSIZE * |blocks|
  {
    if blocks == [] then [] else BlockBytes(v, blocks[0]) + Flat(v, blocks[1..])
  }

  lemma {:induction false} FlatAt(v: Volume, blocks: seq<Word>, bn: nat, k: nat)
    requires bn < |blocks| && k < BSIZE
    ensures BSIZE * bn + k < BSIZE * |blocks| && Flat(v, blocks)[BSIZE * bn + k] == BlockBytes(v, blocks[bn])[k]
  {
    hide BlockBytes;
    if bn > 0 {
      FlatAt(v, blocks[1..], bn - 1, k);
    }
  }

  /** The bytes of a file's blocks in order are the bytes found through bmap. */
  lemma FlatIsFile(v: Volume, ino: nat, i: nat)
    requires i < MAXSIZE
    ensures Flat(v, FileBlocks(v, ino))[i] == ByteAt(v, ino, i)
  {
    hide PtrAt, FileBlocks, Flat;
    BlockInOrder(v, ino, i / BSIZE);
    FlatAt(v, FileBlocks(v, ino), i / BSIZE, i % BSIZE);
  }

  /** A file as the bytes it holds: its blocks in order, cut at its size. */
  function Contents(v: Volume, ino: nat): (s: seq<Byte>)
    requires ino in v.inodes && v.inodes[ino].size <= MAXSIZE
    ensures |s| == v.inodes[ino].size && forall i :: 0 <= i < |s| ==> s[i] == ByteAt(v, ino, i)
  {
    hide FileBlocks, Flat, ByteAt;
    assert forall i :: 0 <= i < MAXSIZE ==> Flat(v, FileBlocks(v, ino))[i] == ByteAt(v, ino, i) by {
      forall i | 0 <= i < MAXSIZE
        ensures Flat(v, FileBlocks(v, ino))[i] == ByteAt(v, ino, i)
      {
        FlatIsFile(v, ino, i);
      }
    }
    Flat(v, FileBlocks(v, ino))[..v.inodes[ino].size]
  }

  /** s with t written at off, longer if need be. */
  function Overwrite(s: seq<Byte>, off: nat, t: seq<Byte>): (r: seq<Byte>)
    requires off <= |s|
    ensures |r| == Max(|s|, off + |t|)
    ensures forall i :: 0 <= i < |r| ==> r[i] == if off <= i < off + |t| then t[i - off] else s[i]
  {
    s[..off] + t + if off + |t| < |s| then s[off + |t|..] else []
  }

  /** Some byte of bn's block is below n. */
  lemma FilledAt(v: Volume, ino: nat, n: nat, i: nat)
    requires Filled(v, ino, n) && i < n && i < MAXSIZE
    ensures BlockOf(v, ino, i / BSIZE) != 0
  {
  }

  // ---------------------------------------------------------------- readi

  /** One turn of readi's loop: bytes off.. of the block that holds off. bmap finds it and changes nothing. */
  method ReadChunk(fs: FileSystem, ino: nat, off: nat, m: nat) returns (chunk: seq<Byte>)
    requires fs.Sound() && ino in fs.inodes && Filled(fs.Vol(), ino, off + 1) && off < MAXSIZE
    requires m <= BSIZE - off % BSIZE
    modifies fs`disk, fs`inodes, fs`owner
    ensures fs.disk == old(fs.disk) && fs.inodes == old(fs.inodes) && fs.owner == old(fs.owner)
    ensures |chunk| == m && forall k :: 0 <= k < m ==> off + k < MAXSIZE && chunk[k] == ByteAt(fs.Vol(), ino, off + k)
  {
    hide PtrAt, Owned, Grew;
    FilledAt(fs.Vol(), ino, off + 1, off);
    ghost var v := fs.Vol();
    fs.Known();
    var b := fs.Bmap(ino, off / BSIZE);
    assert fs.Vol() == v;
    chunk := fs.disk[b.value].bytes[off % BSIZE..off % BSIZE + m];
    forall k | 0 <= k < m
      ensures off + k < MAXSIZE && chunk[k] == ByteAt(v, ino, off + k)
    {
      SameBlock(off, k);
    }
  }

  lemma SameBlock(off: nat, k: nat)
    requires k < BSIZE - off % BSIZE
    ensures (off + k) / BSIZE == off / BSIZE && (off + k) % BSIZE == off % BSIZE + k
    ensures off < MAXSIZE ==> off + k < MAXSIZE
  {
  }

  /**
   readi: the bytes of the file at [off, off + n), cut at its end. None is -1: off
   past the end, or off + n wraps.
   */
  method Readi(fs: FileSystem, ino: nat, off: Word, n: Word) returns (r: Option<seq<Byte>>)
    requires fs.Sound() && FilesOk(fs.Vol()) && ino in fs.inodes
    modifies fs`disk, fs`inodes, fs`owner
    ensures fs.disk == old(fs.disk) && fs.inodes == old(fs.inodes) && fs.owner == old(fs.owner)
    ensures r.None? <==> off > fs.inodes[ino].size || off + n >= 0x1_0000_0000
    ensures r.Some? ==> var s := Contents(fs.Vol(), ino); r.value == s[off..if off + n < |s| then off + n else |s|]
  {
    hide PtrAt, Owned, BlockOf, ByteAt;
    var size := fs.inodes[ino].size;
    if off > size || (off + n) % 0x1_0000_0000 < off {
      return None;
    }
    var want := if off + n > size then size - off else n;
    ghost var v := fs.Vol();
    var tot := 0;
    var dst: seq<Byte> := [];
    while tot < want
      invariant 0 <= tot <= want && |dst| == tot && fs.Vol() == v && fs.owner == old(fs.owner)
      invariant forall k :: 0 <= k < tot ==> dst[k] == ByteAt(v, ino, off + k)
    {
      var at := off + tot;
      var m := if want - tot < BSIZE - at % BSIZE then want - tot else BSIZE - at % BSIZE;
      var chunk := ReadChunk(fs, ino, at, m);
      dst := dst + chunk;
      tot := tot + m;
    }
    r := Some(dst);
    assert dst == Contents(v, ino)[off..off + want];
  }

  // --------------------------------------------------------------- writei

  /** Byte i of file n is the same byte in v and v'. */
  ghost predicate SameByte(v: Volume, v': Volume, n: nat, i: nat)
    requires i < MAXSIZE
  {
    BlockOf(v', n, i / BSIZE) != 0 && ByteAt(v', n, i) == ByteAt(v, n, i)
  }

  /** Allocation moves no byte that a file has. */
  lemma GrewByte(g: Geometry, v: Volume, owner: map<nat, Ref>, v': Volume, owner': map<nat, Ref>, ino: nat,
                 path: set<Place>, n: nat, i: nat)
    requires Owned(g, v, owner, {}) && Grew(v, owner, v', owner', ino, path) && i < MAXSIZE
    requires BlockOf(v, n, i / BSIZE) != 0
    ensures SameByte(v, v', n, i)
  {
    hide PtrAt, BitOk, OwnedOk;
    assert PointsOk(v, owner, Ref(n, DataPlace(i / BSIZE)));
  }

  /** memmove into the data block of (ino, bn). */
  function Stored(v: Volume, b: nat, at: nat, chunk: seq<Byte>): (v': Volume)
    requires b < |v.disk| && at + |chunk| <= BSIZE
    ensures v'.inodes == v.inodes && |v'.disk| == |v.disk|
  {
    v.(disk := v.disk[b := Block(Splice(v.disk[b].bytes, at, chunk))])
  }

  /** Writing a data block moves no pointer. */
  lemma StoredPtr(g: Geometry, v: Volume, owner: map<nat, Ref>, ino: nat, bn: nat, at: nat, chunk: seq<Byte>, r: Ref)
    requires Owned(g, v, owner, {}) && bn < MAXFILE && 0 < BlockOf(v, ino, bn) < g.size && at + |chunk| <= BSIZE
    ensures PtrAt(Stored(v, BlockOf(v, ino, bn), at, chunk), r) == PtrAt(v, r)
  {
    hide PtrAt, BitOk, OwnedOk;
    assert PointsOk(v, owner, Ref(ino, DataPlace(bn)));
    PtrKept(g, v, Stored(v, BlockOf(v, ino, bn), at, chunk), owner, {}, r);
  }

  lemma StoredOwned(g: Geometry, v: Volume, owner: map<nat, Ref>, ino: nat, bn: nat, at: nat, chunk: seq<Byte>)
    requires Owned(g, v, owner, {}) && bn < MAXFILE && 0 < BlockOf(v, ino, bn) < g.size && at + |chunk| <= BSIZE
    ensures Owned(g, Stored(v, BlockOf(v, ino, bn), at, chunk), owner, {})
  {
    hide PtrAt, Used;
    var b := BlockOf(v, ino, bn);
    var v' := Stored(v, b, at, chunk);
    forall r
      ensures PtrAt(v', r) == PtrAt(v, r)
    {
      StoredPtr(g, v, owner, ino, bn, at, chunk, r);
    }
    assert PointsOk(v, owner, Ref(ino, DataPlace(bn)));
    assert OwnedOk(g, v, owner, b);
    forall c: nat | c < g.size
      ensures BitOk(g, v'.disk, owner, {}, c)
    {
      assert BitOk(g, v.disk, owner, {}, c);
      UsedFrame(g, v.disk, v'.disk, c);
    }
    OwnedAgain(g, v, v', owner, {}, {});
  }

  /** The bytes [off, off + |chunk|) of ino, in one block, become chunk; no other byte of any file changes. */
  lemma StoredByte(g: Geometry, v: Volume, owner: map<nat, Ref>, ino: nat, off: nat, chunk: seq<Byte>, n: nat, i: nat)
    requires Owned(g, v, owner, {}) && off < MAXSIZE && |chunk| <= BSIZE - off % BSIZE && i < MAXSIZE
    requires 0 < BlockOf(v, ino, off / BSIZE) < g.size && BlockOf(v, n, i / BSIZE) != 0
    ensures var v' := Stored(v, BlockOf(v, ino, off / BSIZE), off % BSIZE, chunk);
            && BlockOf(v', n, i / BSIZE) == BlockOf(v, n, i / BSIZE)
            && ByteAt(v', n, i) == if n == ino && off <= i < off + |chunk| then chunk[i - off] else ByteAt(v, n, i)
  {
    hide PtrAt, BitOk, OwnedOk;
    StoredPtr(g, v, owner, ino, off / BSIZE, off % BSIZE, chunk, Ref(n, DataPlace(i / BSIZE)));
    assert PointsOk(v, owner, Ref(ino, DataPlace(off / BSIZE))) && PointsOk(v, owner, Ref(n, DataPlace(i / BSIZE)));
    if n == ino && i / BSIZE == off / BSIZE {
    } else if n == ino {
      if DataPlace(i / BSIZE) == DataPlace(off / BSIZE) {
        DataPlaceInjective(i / BSIZE, off / BSIZE);
      }
    }
  }

  /** v is v0 with src at [lo, hi) of file ino; sizes are still the old ones. */
  ghost predicate Wrote(v0: Volume, v: Volume, ino: nat, lo: nat, hi: nat, src: seq<Byte>) {
    && lo <= hi <= lo + |src| && hi <= MAXSIZE && v.inodes.Keys == v0.inodes.Keys
    && (forall n :: n in v0.inodes ==> v.inodes[n].size == v0.inodes[n].size <= MAXSIZE)
    && (forall n, i: nat :: n in v0.inodes && n != ino && i < v0.inodes[n].size ==> SameByte(v0, v, n, i))
    && (forall i: nat :: ino in v0.inodes && i < v0.inodes[ino].size && !(lo <= i < hi) ==> SameByte(v0, v, ino, i))
    && forall i: nat :: lo <= i < hi ==> BlockOf(v, ino, i / BSIZE) != 0 && ByteAt(v, ino, i) == src[i - lo]
  }

  lemma WroteNothing(v: Volume, ino: nat, lo: nat, src: seq<Byte>)
    requires FilesOk(v) && lo <= MAXSIZE
    ensures Wrote(v, v, ino, lo, lo, src)
  {
    hide PtrAt, BlockOf, ByteAt;
    forall n, i: nat | n in v.inodes && i < v.inodes[n].size
      ensures SameByte(v, v, n, i)
    {
      FilledAt(v, n, v.inodes[n].size, i);
    }
  }

  lemma WroteGrew(g: Geometry, v0: Volume, v: Volume, owner: map<nat, Ref>, v': Volume, owner': map<nat, Ref>,
                  ino: nat, path: set<Place>, lo: nat, hi: nat, src: seq<Byte>)
    requires Owned(g, v, owner, {}) && Grew(v, owner, v', owner', ino, path) && Wrote(v0, v, ino, lo, hi, src)
    ensures Wrote(v0, v', ino, lo, hi, src)
  {
    hide PtrAt, Owned, BlockOf, ByteAt;
    forall n, i: nat | n in v0.inodes && n != ino && i < v0.inodes[n].size
      ensures SameByte(v0, v', n, i)
    {
      assert SameByte(v0, v, n, i);
      GrewByte(g, v, owner, v', owner', ino, path, n, i);
    }
    forall i: nat | ino in v0.inodes && i < v0.inodes[ino].size && !(lo <= i < hi)
      ensures SameByte(v0, v', ino, i)
    {
      assert SameByte(v0, v, ino, i);
      GrewByte(g, v, owner, v', owner', ino, path, ino, i);
    }
    forall i: nat | lo <= i < hi
      ensures BlockOf(v', ino, i / BSIZE) != 0 && ByteAt(v', ino, i) == src[i - lo]
    {
      GrewByte(g, v, owner, v', owner', ino, path, ino, i);
    }
  }

  lemma WroteStored(g: Geometry, v0: Volume, v: Volume, owner: map<nat, Ref>, ino: nat, lo: nat, hi: nat,
                    src: seq<Byte>, m: nat)
    requires Owned(g, v, owner, {}) && Wrote(v0, v, ino, lo, hi, src)
    requires 0 < m <= BSIZE - hi % BSIZE && hi + m <= lo + |src| && hi + m <= MAXSIZE
    requires 0 < BlockOf(v, ino, hi / BSIZE) < g.size
    ensures Wrote(v0, Stored(v, BlockOf(v, ino, hi / BSIZE), hi % BSIZE, src[hi - lo..hi - lo + m]), ino, lo, hi + m,
        src)
  {
    hide PtrAt, Owned, BlockOf, ByteAt, Stored;
    SoundParts(g, v, owner, Ref(ino, Ind));
    var chunk := src[hi - lo..hi - lo + m];
    var v' := Stored(v, BlockOf(v, ino, hi / BSIZE), hi % BSIZE, chunk);
    forall n, i: nat | n in v0.inodes && n != ino && i < v0.inodes[n].size
      ensures SameByte(v0, v', n, i)
    {
      assert SameByte(v0, v, n, i);
      StoredByte(g, v, owner, ino, hi, chunk, n, i);
    }
    forall i: nat | ino in v0.inodes && i < v0.inodes[ino].size && !(lo <= i < hi + m)
      ensures SameByte(v0, v', ino, i)
    {
      assert SameByte(v0, v, ino, i);
      StoredByte(g, v, owner, ino, hi, chunk, ino, i);
    }
    forall i: nat | lo <= i < hi + m
      ensures BlockOf(v', ino, i / BSIZE) != 0 && ByteAt(v', ino, i) == src[i - lo]
    {
      if i >= hi {
        SameBlock(hi, i - hi);
      }
      StoredByte(g, v, owner, ino, hi, chunk, ino, i);
    }
  }

  function WithSize(v: Volume, ino: nat, size: nat): (v': Volume)
    requires ino in v.inodes
    ensures v'.disk == v.disk && v'.inodes.Keys == v.inodes.Keys
  {
    v.(inodes := v.inodes[ino := v.inodes[ino].(size := size)])
  }

  /** A file's size plays no part in where its blocks are. */
  lemma SizePtr(v: Volume, ino: nat, size: nat, r: Ref)
    requires ino in v.inodes
    ensures PtrAt(WithSize(v, ino, size), r) == PtrAt(v, r)
  {
  }

  lemma SizeOwned(g: Geometry, v: Volume, owner: map<nat, Ref>, ino: nat, size: nat)
    requires Owned(g, v, owner, {}) && ino in v.inodes
    ensures Owned(g, WithSize(v, ino, size), owner, {})
  {
    hide PtrAt, Used;
    forall r
      ensures PtrAt(WithSize(v, ino, size), r) == PtrAt(v, r)
    {
      SizePtr(v, ino, size, r);
    }
    OwnedAgain(g, v, WithSize(v, ino, size), owner, {}, {});
  }

  function Max(a: nat, b: nat): nat {
    if a < b then b else a
  }

  /** The files after writei: ino overwritten and no shorter, the others as before, none with holes. */
  ghost predicate Rewritten(v0: Volume, v: Volume, ino: nat, off: nat, src: seq<Byte>) {
    && FilesOk(v0) && FilesOk(v) && v.inodes.Keys == v0.inodes.Keys
    && ino in v0.inodes && off <= v0.inodes[ino].size
    && Contents(v, ino) == Overwrite(Contents(v0, ino), off, src)
    && forall n :: n in v0.inodes && n != ino ==> Contents(v, n) == Contents(v0, n)
  }

  lemma WroteFilled(v0: Volume, v: Volume, ino: nat, off: nat, src: seq<Byte>, n: nat)
    requires Wrote(v0, v, ino, off, off + |src|, src) && ino in v0.inodes && off <= v0.inodes[ino].size
    requires n in v0.inodes
    ensures Filled(v, n, if n == ino then Max(v0.inodes[ino].size, off + |src|) else v0.inodes[n].size)
  {
    hide PtrAt, BlockOf, ByteAt;
    var top := if n == ino then Max(v0.inodes[ino].size, off + |src|) else v0.inodes[n].size;
    forall bn: nat | bn < MAXFILE && bn * BSIZE < top
      ensures BlockOf(v, n, bn) != 0
    {
      var i := bn * BSIZE;
      assert i / BSIZE == bn;
      assert (n == ino && off <= i < off + |src|) || SameByte(v0, v, n, i);
    }
  }

  lemma WroteOwn(v0: Volume, v: Volume, ino: nat, off: nat, src: seq<Byte>)
    requires Wrote(v0, v, ino, off, off + |src|, src) && ino in v0.inodes && off <= v0.inodes[ino].size
    ensures v0.inodes[ino].size <= MAXSIZE && Max(v0.inodes[ino].size, off + |src|) <= MAXSIZE
    ensures Contents(WithSize(v, ino, Max(v0.inodes[ino].size, off + |src|)), ino) ==
        Overwrite(Contents(v0, ino), off, src)
  {
    hide PtrAt, BlockOf, ByteAt, Overwrite;
    var size := Max(v0.inodes[ino].size, off + |src|);
    forall i: nat | i < size
      ensures ByteAt(WithSize(v, ino, size), ino, i) == if off <= i < off + |src| then src[i - off]
          else ByteAt(v0, ino, i)
    {
      SizeByte(v, ino, size, ino, i);
      assert off <= i < off + |src| || SameByte(v0, v, ino, i);
    }
  }

  lemma WroteOther(v0: Volume, v: Volume, ino: nat, lo: nat, hi: nat, src: seq<Byte>, size: nat, n: nat)
    requires Wrote(v0, v, ino, lo, hi, src) && ino in v0.inodes && n in v0.inodes && n != ino
    ensures v0.inodes[n].size <= MAXSIZE && WithSize(v, ino, size).inodes[n].size == v0.inodes[n].size
    ensures Contents(WithSize(v, ino, size), n) == Contents(v0, n)
  {
    hide PtrAt, BlockOf, ByteAt;
    forall i: nat | i < v0.inodes[n].size
      ensures ByteAt(WithSize(v, ino, size), n, i) == ByteAt(v0, n, i)
    {
      SizeByte(v, ino, size, n, i);
      assert SameByte(v0, v, n, i);
    }
  }

  lemma WroteContents(v0: Volume, v: Volume, ino: nat, off: nat, src: seq<Byte>)
    requires FilesOk(v0) && Wrote(v0, v, ino, off, off + |src|, src) && ino in v0.inodes && off <= v0.inodes[ino].size
    ensures Rewritten(v0, WithSize(v, ino, Max(v0.inodes[ino].size, off + |src|)), ino, off, src)
  {
    hide PtrAt, BlockOf, ByteAt, WithSize, Filled, Wrote, Contents, Overwrite;
    WroteOwn(v0, v, ino, off, src);
    WroteKeys(v0, v, ino, off, off + |src|, src);
    var size := Max(v0.inodes[ino].size, off + |src|);
    forall n | n in v0.inodes
      ensures WithSize(v, ino, size).inodes[n].size == if n == ino then size else v0.inodes[n].size
      ensures Filled(WithSize(v, ino, size), n, if n == ino then size else v0.inodes[n].size)
    {
      WroteFilled(v0, v, ino, off, src, n);
      SizeFilled(v, ino, size, n, if n == ino then size else v0.inodes[n].size);
    }
    forall n | n in v0.inodes && n != ino
      ensures Contents(WithSize(v, ino, size), n) == Contents(v0, n)
    {
      WroteOther(v0, v, ino, off, off + |src|, src, size, n);
    }
  }

  lemma SizeByte(v: Volume, ino: nat, size: nat, n: nat, i: nat)
    requires ino in v.inodes && i < MAXSIZE
    ensures ByteAt(WithSize(v, ino, size), n, i) == ByteAt(v, n, i)
  {
    hide PtrAt;
    SizePtr(v, ino, size, Ref(n, DataPlace(i / BSIZE)));
  }

  lemma SizeFilled(v: Volume, ino: nat, size: nat, n: nat, top: nat)
    requires ino in v.inodes && Filled(v, n, top) && n in v.inodes
    ensures Filled(WithSize(v, ino, size), n, top)
    ensures WithSize(v, ino, size).inodes[n].size == if n == ino then size else v.inodes[n].size
  {
    hide PtrAt;
    forall bn: nat | bn < MAXFILE && bn * BSIZE < top
      ensures BlockOf(WithSize(v, ino, size), n, bn) != 0
    {
      assert BlockOf(v, n, bn) != 0;
      SizePtr(v, ino, size, Ref(n, DataPlace(bn)));
    }
  }

  datatype Outcome = Written(n: nat) | Refused | Halted

  /** One turn of writei's loop. false is balloc's panic. */
  method WriteChunk(fs: FileSystem, ino: nat, src: seq<Byte>, lo: nat, hi: nat, m: nat, ghost v0: Volume)
      returns (ok: bool)
    requires fs.Sound() && ino in fs.inodes && Wrote(v0, fs.Vol(), ino, lo, hi, src)
    requires lo <= hi && 0 < m <= BSIZE - hi % BSIZE && hi + m <= lo + |src| && hi + m <= MAXSIZE
    modifies fs`disk, fs`inodes, fs`owner
    ensures fs.Sound()
    ensures ok ==> Wrote(v0, fs.Vol(), ino, lo, hi + m, src)
    ensures !ok ==>
        Wrote(v0, fs.Vol(), ino, lo, hi, src) && |fs.disk| == fs.g.size && GeometryOk(fs.g) && Full(fs.g, fs.disk)
  {
    hide PtrAt, Owned, Grew, Wrote, ByteAt, Full;
    ghost var v, own := fs.Vol(), fs.owner;
    var b := fs.Bmap(ino, hi / BSIZE);
    fs.Known();
    ghost var v1 := fs.Vol();
    WroteGrew(fs.g, v0, v, own, v1, fs.owner, ino, Path(hi / BSIZE), lo, hi, src);
    if b.None? {
      return false;
    }
    WroteStored(fs.g, v0, v1, fs.owner, ino, lo, hi, src, m);
    StoredOwned(fs.g, v1, fs.owner, ino, hi / BSIZE, hi % BSIZE, src[hi - lo..hi - lo + m]);
    fs.disk := fs.disk[b.value := Block(Splice(fs.disk[b.value].bytes, hi % BSIZE, src[hi - lo..hi - lo + m]))];
    assert fs.Vol() == Stored(v1, b.value, hi % BSIZE, src[hi - lo..hi - lo + m]);
    ok := true;
  }

  /**
   writei: src replaces the bytes at [off, off + n), the file grows if they reach
   past its end, and no other file changes. Refused is -1: off past the end, off + n
   wraps, or the file would be too long. Halted is balloc's panic on a full disk.
   */
  method Writei(fs: FileSystem, ino: nat, src: seq<Byte>, off: Word) returns (r: Outcome)
    requires fs.Sound() && FilesOk(fs.Vol()) && ino in fs.inodes && |src| < 0x1_0000_0000
    modifies fs`disk, fs`inodes, fs`owner
    ensures fs.Sound()
    ensures r.Refused? <==> off > old(fs.inodes)[ino].size || off + |src| > MAXSIZE
    ensures r.Refused? ==> fs.Vol() == old(fs.Vol()) && fs.owner == old(fs.owner)
    ensures r.Written? ==> r.n == |src| && Rewritten(old(fs.Vol()), fs.Vol(), ino, off, src)
    ensures r.Halted? ==> |fs.disk| == fs.g.size && GeometryOk(fs.g) && Full(fs.g, fs.disk)
  {
    hide PtrAt, Owned, Wrote, Rewritten, Full;
    var n := |src|;
    if off > fs.inodes[ino].size || (off + n) % 0x1_0000_0000 < off {
      return Refused;
    }
    if off + n > MAXSIZE {
      return Refused;
    }
    ghost var v0 := fs.Vol();
    WroteNothing(v0, ino, off, src);
    var tot := 0;
    while tot < n
      invariant 0 <= tot <= n && fs.Sound() && Wrote(v0, fs.Vol(), ino, off, off + tot, src)
    {
      WroteKeys(v0, fs.Vol(), ino, off, off + tot, src);
      var at := off + tot;
      var m := if n - tot < BSIZE - at % BSIZE then n - tot else BSIZE - at % BSIZE;
      var ok := WriteChunk(fs, ino, src, off, at, m, v0);
      if !ok {
        return Halted;
      }
      tot := tot + m;
    }
    WroteKeys(v0, fs.Vol(), ino, off, off + n, src);
    WroteContents(v0, fs.Vol(), ino, off, src);
    ghost var v := fs.Vol();
    ghost var size := Max(v0.inodes[ino].size, off + n);
    SizeOwned(fs.g, v, fs.owner, ino, size);
    if n > 0 && off + n > fs.inodes[ino].size {
      fs.inodes := fs.inodes[ino := fs.inodes[ino].(size := off + n)];
    }
    assert fs.Vol() == WithSize(v, ino, size);
    r := Written(n);
  }

  lemma WroteKeys(v0: Volume, v: Volume, ino: nat, lo: nat, hi: nat, src: seq<Byte>)
    requires Wrote(v0, v, ino, lo, hi, src)
    ensures v.inodes.Keys == v0.inodes.Keys && forall n :: n in v0.inodes ==> v.inodes[n].size == v0.inodes[n].size
  {
  }

  lemma OverwriteReads(s: seq<Byte>, off: nat, t: seq<Byte>)
    requires off <= |s|
    ensures Overwrite(s, off, t)[off..off + |t|] == t && |Overwrite(s, off, t)| == Max(|s|, off + |t|)
  {
  }

  /** What writei wrote readi reads back, whatever else the file held. */
  method WriteThenRead(fs: FileSystem, ino: nat, src: seq<Byte>, off: Word)
      returns (r: Outcome, back: Option<seq<Byte>>)
    requires fs.Sound() && FilesOk(fs.Vol()) && ino in fs.inodes && |src| < 0x1_0000_0000
    modifies fs`disk, fs`inodes, fs`owner
    ensures r.Written? ==> back == Some(src)
  {
    hide PtrAt, Owned, Full, ByteAt, FilesOk;
    ghost var v0 := fs.Vol();
    r := Writei(fs, ino, src, off);
    back := None;
    if r.Written? {
      SizesAre(v0, ino);
      SizesAre(fs.Vol(), ino);
      OverwriteReads(Contents(v0, ino), off, src);
      back := Readi(fs, ino, off, |src|);
    }
  }

  lemma SizesAre(v: Volume, ino: nat)
    requires FilesOk(v) && ino in v.inodes
    ensures |Contents(v, ino)| == v.inodes[ino].size <= MAXSIZE
  {
    hide PtrAt, ByteAt;
  }
}
