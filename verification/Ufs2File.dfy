/**
 UFS2 files (kern/ufs2.c): ufs2_read, ufs2_write_range, ufs2_write_growing and
 ufs2_truncate over the sectors of the device, for files of direct blocks.
 */
module Ufs2File {
  import opened Arith
  import opened Bytes
  import opened Ufs2Maps
  import opened Ufs2Blocks
  import opened Basics

  const MAX64: nat := 0xffff_ffff_ffff_ffff

  function BlockNo(i: nat, bsize: nat): nat
    requires bsize > 0
  {
    i / bsize
  }

  function InBlk(i: nat, bsize: nat): (j: nat)
    requires bsize > 0
    ensures j < bsize
  {
    i % bsize
  }

  /** Where byte j of block f is on the volume. */
  function Loc(u: Ufs, f: nat, j: nat): nat {
    f * u.fsize + j
  }

  /** Byte i of a file; 0 where it has no block. */
  function ByteAt(u: Ufs, d: Disk, n: nat, i: nat): Byte
    requires u.bsize > 0
  {
    var f, k := PtrAt(d, Ref(n, BlockNo(i, u.bsize))), Loc(u, PtrAt(d, Ref(n, BlockNo(i, u.bsize))), InBlk(i, u.bsize));
    if f != 0 && k < |d.v| then d.v[k] else 0
  }

  function BlockBytes(u: Ufs, v: seq<Byte>, f: nat): (s: seq<Byte>)
    ensures |s| == u.bsize
  {
    if f != 0 && f * u.fsize + u.bsize <= |v| then v[f * u.fsize..f * u.fsize + u.bsize] else Zeros(u.bsize)
  }

  /** The bytes of one block after the other. */
  function Laid(u: Ufs, v: seq<Byte>, blocks: seq<nat>): (s: seq<Byte>)
    ensures |s| == |blocks| * u.bsize
  {
    if blocks == [] then [] else
      Distribute(1, |blocks| - 1, u.bsize);
      BlockBytes(u, v, blocks[0]) + Laid(u, v, blocks[1..])
  }

  lemma {:induction false} LaidAt(u: Ufs, v: seq<Byte>, blocks: seq<nat>, k: nat, j: nat)
    requires k < |blocks| && j < u.bsize
    ensures k * u.bsize + j < |blocks| * u.bsize
    ensures Laid(u, v, blocks)[k * u.bsize + j] == BlockBytes(u, v, blocks[k])[j]
  {
    hide BlockBytes;
    MulMono(k + 1, |blocks|, u.bsize);
    Distribute(k, 1, u.bsize);
    if k > 0 {
      LaidAt(u, v, blocks[1..], k - 1, j);
      Distribute(k - 1, 1, u.bsize);
    }
  }

  /** A file is its direct blocks, one after the other. */
  lemma FileIsBlocks(u: Ufs, d: Disk, owner: map<nat, Ref>, n: nat, i: nat)
    requires Owned(u, d, owner) && n in d.inodes && u.bsize > 0 && i < DIRECTS * u.bsize
    ensures |d.inodes[n].direct| == DIRECTS && Laid(u, d.v, d.inodes[n].direct)[i] == ByteAt(u, d, n, i)
  {
    hide UfsOk, OwnedOk, PointsOk, Free, Laid, BlockBytes, FragOf;
    var k, j := BlockNo(i, u.bsize), InBlk(i, u.bsize);
    DivLess(i, DIRECTS, u.bsize);
    LaidAt(u, d.v, d.inodes[n].direct, k, j);
    assert k * u.bsize + j == i;
    var f := d.inodes[n].direct[k];
    if f != 0 {
      Positive(u);
      LiveByte(u, d, owner, Ref(n, k), u.bsize - 1);
    }
    ByteOfBlock(u, d.v, f, j);
  }

  lemma ByteOfBlock(u: Ufs, v: seq<Byte>, f: nat, j: nat)
    requires j < u.bsize && (f != 0 ==> Loc(u, f, u.bsize - 1) < |v|)
    ensures BlockBytes(u, v, f)[j] == if f != 0 && Loc(u, f, j) < |v| then v[Loc(u, f, j)] else 0
  {
  }

  /** A byte of a live block: inside the volume, and no metadata. */
  lemma LiveByte(u: Ufs, d: Disk, owner: map<nat, Ref>, r: Ref, j: nat)
    requires Owned(u, d, owner) && PtrAt(d, r) != 0 && u.bsize > 0 && j < u.bsize && u.fsize > 0 && u.fpb > 0
    ensures Loc(u, PtrAt(d, r), j) < |d.v| && FragOf(Loc(u, PtrAt(d, r), j), u.fsize) !in u.meta
    ensures PtrAt(d, r) % u.fpb == 0
  {
    hide UfsOk, Free, PtrAt, FragOf;
    Positive(u);
    assert PointsOk(d, owner, r);
    assert OwnedOk(u, d, owner, PtrAt(d, r));
    InBlock(u, PtrAt(d, r), j);
    BlockParts(u, d.v, PtrAt(d, r));
  }

  /** Two places share a byte only if they are the same place. */
  lemma BytesApart(u: Ufs, d: Disk, owner: map<nat, Ref>, r: Ref, s: Ref, i: nat, j: nat)
    requires Owned(u, d, owner) && PtrAt(d, r) != 0 && PtrAt(d, s) != 0 && u.bsize > 0 && i < u.bsize && j < u.bsize
    requires Loc(u, PtrAt(d, r), i) == Loc(u, PtrAt(d, s), j)
    ensures r == s && i == j
  {
    hide UfsOk, Free, PtrAt, FragOf;
    Positive(u);
    LiveByte(u, d, owner, r, i);
    LiveByte(u, d, owner, s, j);
    BlocksApart(u, PtrAt(d, r), PtrAt(d, s), i, j);
    assert PointsOk(d, owner, r) && PointsOk(d, owner, s);
  }

  // ------------------------------------------------- writing in a block

  /** The volume with chunk written at byte j of block f. */
  function Put(u: Ufs, d: Disk, f: nat, j: nat, chunk: seq<Byte>): (e: Disk)
    requires Loc(u, f, j) + |chunk| <= |d.v|
    ensures e.inodes == d.inodes && |e.v| == |d.v|
    ensures forall k :: 0 <= k < |d.v| ==>
        e.v[k] == if Loc(u, f, j) <= k < Loc(u, f, j) + |chunk| then chunk[k - Loc(u, f, j)] else d.v[k]
  {
    d.(v := Splice(d.v, Loc(u, f, j), chunk))
  }

  lemma PutPtr(u: Ufs, d: Disk, f: nat, j: nat, chunk: seq<Byte>, r: Ref)
    requires Loc(u, f, j) + |chunk| <= |d.v|
    ensures PtrAt(Put(u, d, f, j, chunk), r) == PtrAt(d, r)
  {
  }

  /** Inside one live block, the chunk's bytes change and no other byte of any file. */
  lemma PutByte(u: Ufs, d: Disk, owner: map<nat, Ref>, r: Ref, j: nat, chunk: seq<Byte>, s: Ref, k: nat)
    requires Owned(u, d, owner) && PtrAt(d, r) != 0 && PtrAt(d, s) != 0 && u.bsize > 0 && j + |chunk| <= u.bsize
    requires k < u.bsize
    requires Loc(u, PtrAt(d, r), j) + |chunk| <= |d.v|
    ensures Loc(u, PtrAt(d, s), k) < |d.v|
    ensures Put(u, d, PtrAt(d, r), j, chunk).v[Loc(u, PtrAt(d, s), k)] ==
            if s == r && j <= k < j + |chunk| then chunk[k - j] else d.v[Loc(u, PtrAt(d, s), k)]
  {
    hide UfsOk, Free, PtrAt, Put;
    Positive(u);
    LiveByte(u, d, owner, s, k);
    var at, x := Loc(u, PtrAt(d, r), j), Loc(u, PtrAt(d, s), k);
    if at <= x < at + |chunk| {
      BytesApart(u, d, owner, r, s, j + (x - at), k);
    }
  }

  /** Map bits stay when data is written. */
  lemma PutFree(u: Ufs, d: Disk, owner: map<nat, Ref>, r: Ref, j: nat, chunk: seq<Byte>, q: nat)
    requires Owned(u, d, owner) && PtrAt(d, r) != 0 && u.bsize > 0 && j + |chunk| <= u.bsize && u.fpg > 0
    requires Loc(u, PtrAt(d, r), j) + |chunk| <= |d.v|
    ensures Free(u, Put(u, d, PtrAt(d, r), j, chunk).v, q) == Free(u, d.v, q)
  {
    hide UfsOk, PtrAt, Put, GroupOf, BitIn, FragOf;
    Positive(u);
    var g, bit := GroupOf(q, u.fpg), BitIn(q, u.fpg);
    if HasBit(u, g, bit) {
      HasByte(u, g, bit);
      var at, x := Loc(u, PtrAt(d, r), j), MapByte(u, g, bit);
      if at <= x < at + |chunk| {
        LiveByte(u, d, owner, r, j + (x - at));
      }
    }
  }

  lemma PutOwned(u: Ufs, d: Disk, owner: map<nat, Ref>, r: Ref, j: nat, chunk: seq<Byte>)
    requires Owned(u, d, owner) && PtrAt(d, r) != 0 && u.bsize > 0 && j + |chunk| <= u.bsize && u.fpg > 0
    requires Loc(u, PtrAt(d, r), j) + |chunk| <= |d.v|
    ensures Owned(u, Put(u, d, PtrAt(d, r), j, chunk), owner)
  {
    hide UfsOk, Free, Put;
    Positive(u);
    var e := Put(u, d, PtrAt(d, r), j, chunk);
    forall q: nat
      ensures Free(u, e.v, q) == Free(u, d.v, q)
    {
      PutFree(u, d, owner, r, j, chunk, q);
    }
    forall f | f in owner
      ensures OwnedOk(u, e, owner, f)
    {
      assert OwnedOk(u, d, owner, f);
    }
    forall s
      ensures PointsOk(e, owner, s)
    {
      assert PointsOk(d, owner, s);
    }
  }

  // ------------------------------------------------------ writing a range

  /** e is d with src at [lo, lo + |src|) of file n; pointers, sizes and map bits are the same. */
  ghost predicate Stored(u: Ufs, d: Disk, e: Disk, n: nat, lo: nat, src: seq<Byte>)
    requires u.bsize > 0 && u.fpg > 0
  {
    && e.inodes == d.inodes && |e.v| == |d.v| && (forall q: nat :: Free(u, e.v, q) == Free(u, d.v, q))
    && forall m: nat, i: nat :: ByteAt(u, e, m, i) == StoredByte(u, d, n, lo, src, m, i)
  }

  function StoredByte(u: Ufs, d: Disk, n: nat, lo: nat, src: seq<Byte>, m: nat, i: nat): Byte
    requires u.bsize > 0
  {
    if m == n && lo <= i < lo + |src| then src[i - lo] else ByteAt(u, d, m, i)
  }

  lemma NothingStored(u: Ufs, d: Disk, n: nat, lo: nat)
    requires u.bsize > 0 && u.fpg > 0
    ensures Stored(u, d, d, n, lo, [])
  {
    hide ByteAt, Free;
  }

  /** Bytes off.. of a file, up to the end of off's block. */
  lemma SameBlock(off: nat, k: nat, bsize: nat)
    requires bsize > 0 && k < bsize - InBlk(off, bsize)
    ensures BlockNo(off + k, bsize) == BlockNo(off, bsize) && InBlk(off + k, bsize) == InBlk(off, bsize) + k
  {
    var q, j := off / bsize, off % bsize;
    assert off == q * bsize + j;
    DivIs(q, j + k, bsize);
  }

  lemma Recompose(i: nat, off: nat, bsize: nat)
    requires bsize > 0 && BlockNo(i, bsize) == BlockNo(off, bsize)
    ensures InBlk(i, bsize) - InBlk(off, bsize) == i - off
  {
    assert i == i / bsize * bsize + i % bsize && off == off / bsize * bsize + off % bsize;
  }

  /** One chunk inside one block of file n. */
  lemma ChunkStored(u: Ufs, d: Disk, owner: map<nat, Ref>, n: nat, off: nat, chunk: seq<Byte>)
    requires Owned(u, d, owner) && u.bsize > 0 && |chunk| <= u.bsize - InBlk(off, u.bsize)
    requires PtrAt(d, Ref(n, BlockNo(off, u.bsize))) != 0
    ensures Loc(u, PtrAt(d, Ref(n, BlockNo(off, u.bsize))), InBlk(off, u.bsize)) + |chunk| <= |d.v|
    ensures var e := Put(u, d, PtrAt(d, Ref(n, BlockNo(off, u.bsize))), InBlk(off, u.bsize), chunk);
            u.fpg > 0 && Owned(u, e, owner) && Stored(u, d, e, n, off, chunk)
  {
    hide UfsOk, Owned, PtrAt, Put, BlockNo, InBlk, ByteAt, Loc, Free;
    Fits(u, d, owner, n, off, chunk);
    var r, j := Ref(n, BlockNo(off, u.bsize)), InBlk(off, u.bsize);
    var e := Put(u, d, PtrAt(d, r), j, chunk);
    Positive2(u, d, owner);
    PutOwned(u, d, owner, r, j, chunk);
    forall q: nat
      ensures Free(u, e.v, q) == Free(u, d.v, q)
    {
      PutFree(u, d, owner, r, j, chunk, q);
    }
    forall m: nat, i: nat
      ensures ByteAt(u, e, m, i) == StoredByte(u, d, n, off, chunk, m, i)
    {
      ChunkByte(u, d, owner, n, off, chunk, m, i);
    }
  }

  lemma Positive2(u: Ufs, d: Disk, owner: map<nat, Ref>)
    requires Owned(u, d, owner)
    ensures u.fsize > 0 && u.fpb > 0 && u.fpg > 0 && 0 < u.bsize <= 65536 && |d.v| == u.size
  {
    hide BitOk;
  }

  lemma Fits(u: Ufs, d: Disk, owner: map<nat, Ref>, n: nat, off: nat, chunk: seq<Byte>)
    requires Owned(u, d, owner) && u.bsize > 0 && |chunk| <= u.bsize - InBlk(off, u.bsize)
    requires PtrAt(d, Ref(n, BlockNo(off, u.bsize))) != 0
    ensures Loc(u, PtrAt(d, Ref(n, BlockNo(off, u.bsize))), InBlk(off, u.bsize)) + |chunk| <= |d.v|
  {
    hide UfsOk, Owned, PtrAt, BlockNo, InBlk;
    Positive2(u, d, owner);
    LiveByte(u, d, owner, Ref(n, BlockNo(off, u.bsize)), u.bsize - 1);
  }

  lemma ChunkByte(u: Ufs, d: Disk, owner: map<nat, Ref>, n: nat, off: nat, chunk: seq<Byte>, m: nat, i: nat)
    requires Owned(u, d, owner) && u.bsize > 0 && |chunk| <= u.bsize - InBlk(off, u.bsize)
    requires PtrAt(d, Ref(n, BlockNo(off, u.bsize))) != 0
    requires Loc(u, PtrAt(d, Ref(n, BlockNo(off, u.bsize))), InBlk(off, u.bsize)) + |chunk| <= |d.v|
    ensures var e := Put(u, d, PtrAt(d, Ref(n, BlockNo(off, u.bsize))), InBlk(off, u.bsize), chunk);
            ByteAt(u, e, m, i) == StoredByte(u, d, n, off, chunk, m, i)
  {
    hide UfsOk, Owned, PtrAt, Put, BlockNo, InBlk, Loc;
    var r, j := Ref(n, BlockNo(off, u.bsize)), InBlk(off, u.bsize);
    var s, k := Ref(m, BlockNo(i, u.bsize)), InBlk(i, u.bsize);
    PutPtr(u, d, PtrAt(d, r), j, chunk, s);
    if off <= i < off + |chunk| {
      SameBlock(off, i - off, u.bsize);
    }
    if PtrAt(d, s) != 0 {
      PutByte(u, d, owner, r, j, chunk, s, k);
      if s == r {
        Recompose(i, off, u.bsize);
      }
    }
  }

  /** Two writes one after the other are one write. */
  lemma StoredMore(u: Ufs, d: Disk, e: Disk, h: Disk, n: nat, lo: nat, src: seq<Byte>, a: nat, b: nat)
    requires u.bsize > 0 && u.fpg > 0 && a <= b <= |src| && Stored(u, d, e, n, lo, src[..a])
    requires Stored(u, e, h, n, lo + a, src[a..b])
    ensures Stored(u, d, h, n, lo, src[..b])
  {
    hide ByteAt, Free;
    forall m: nat, i: nat
      ensures ByteAt(u, h, m, i) == StoredByte(u, d, n, lo, src[..b], m, i)
    {
      assert ByteAt(u, h, m, i) == StoredByte(u, e, n, lo + a, src[a..b], m, i);
      assert ByteAt(u, e, m, i) == StoredByte(u, d, n, lo, src[..a], m, i);
    }
  }

  /** Every block of [lo, hi) of file n is there. */
  ghost predicate Backed(u: Ufs, d: Disk, n: nat, lo: nat, hi: nat)
    requires u.bsize > 0
  {
    forall i: nat :: lo <= i < hi ==> PtrAt(d, Ref(n, BlockNo(i, u.bsize))) != 0
  }

  /** No inode has a block. */
  predicate NoFiles(inodes: map<nat, Inode>) {
    forall n :: n in inodes ==> inodes[n].direct == seq(DIRECTS, _ => 0)
  }

  lemma NoBlocks(u: Ufs, v: seq<Byte>, inodes: map<nat, Inode>)
    requires UfsOk(u) && u.fpg > 0 && |v| == u.size && NoFiles(inodes)
    requires forall q: nat :: Free(u, v, q) ==> q !in u.meta
    ensures Owned(u, Disk(v, inodes), map[]) && u.bsize > 0
  {
    hide Free;
    assert u.bsize > 0 by { UfsBasics(u); }
    hide UfsOk;
  }

  class Ufs2Volume {
    const u: Ufs
    const store: Blockdev.Store  // the sectors that hold the volume
    var inodes: map<nat, Inode>
    ghost var owner: map<nat, Ref>

    /** A volume whose inodes have no blocks yet, and whose free fragments are no metadata. */
    constructor (u: Ufs, store: Blockdev.Store, inodes: map<nat, Inode>)
      requires UfsOk(u) && u.fpg > 0 && Holds(u, store) && NoFiles(inodes)
      requires forall q: nat :: Free(u, store.Bytes(), q) ==> q !in u.meta
      ensures this.u == u && this.store == store && this.inodes == inodes && owner == map[] && Sound()
    {
      this.u, this.store, this.inodes, owner := u, store, inodes, map[];
      new;
      hide UfsOk, Owned, Free, Blockdev.Store.Bytes, Blockdev.Reaches;
      HoldsBytes(u, store);
      NoBlocks(u, store.Bytes(), inodes);
    }

    /** The bytes of the volume. */
    ghost function Bytes(): seq<Byte>
      reads this, store.dev
    {
      store.Bytes()
    }

    ghost function Now(): Disk
      reads this, store.dev
    {
      Disk(store.Bytes(), inodes)
    }

    ghost predicate Sound()
      reads this, store.dev
    {
      Holds(u, store) && Owned(u, Now(), owner) && u.bsize > 0 && u.fpg > 0
    }

    /** ufs2_write_range: false is -1, at the first block that is missing; the first done bytes are written by then. */
    method WriteRange(n: nat, off: nat, src: seq<Byte>) returns (ok: bool, ghost done: nat)
      requires Sound()
      modifies store.dev
      ensures Sound() && done <= |src| && (ok <==> done == |src|)
      ensures Stored(u, old(Now()), Now(), n, off, src[..done])
      ensures Backed(u, old(Now()), n, off, off + done)
      ensures ok ==> Stored(u, old(Now()), Now(), n, off, src)
      ensures !ok ==> PtrAt(old(Now()), Ref(n, BlockNo(off + done, u.bsize))) == 0
      ensures ok <==> Backed(u, old(Now()), n, off, off + |src|)
    {
      hide Owned, PtrAt, BlockNo, InBlk, Stored, ByteAt, Loc, Put;
      ghost var d := Now();
      var tot := 0;
      NothingStored(u, d, n, off);
      assert src[..0] == [];
      while tot < |src|
        invariant 0 <= tot <= |src| && Sound() && inodes == old(inodes)
        invariant Stored(u, d, Now(), n, off, src[..tot]) && Backed(u, d, n, off, off + tot)
      {
        var at := off + tot;
        var j := InBlk(at, u.bsize);
        var count := if u.bsize - j > |src| - tot then |src| - tot else u.bsize - j;
        ghost var e := Now();
        SamePtrs(d, e);
        Positive2(u, e, owner);
        var f := Address(n, BlockNo(at, u.bsize));
        if f == 0 {
          assert PtrAt(d, Ref(n, BlockNo(at, u.bsize))) == 0;
          return false, tot;
        }
        var chunk := src[tot..tot + count];
        ChunkStored(u, e, owner, n, at, chunk);
        store.Put(Loc(u, f, j), chunk);
        PutIs(u, e, f, j, chunk);
        assert Now() == Put(u, e, f, j, chunk);
        StoredMore(u, d, e, Now(), n, off, src, tot, tot + count);
        ChunkBacked(u, d, n, off, at, count);
        tot := tot + count;
      }
      assert src[..tot] == src;
      ok, done := true, tot;
    }

    /** ufs2_block_address for direct blocks. */
    method Address(n: nat, bn: nat) returns (f: nat)
      ensures f == PtrAt(Now(), Ref(n, bn))
    {
      f := if n in inodes && bn < DIRECTS && |inodes[n].direct| == DIRECTS then inodes[n].direct[bn] else 0;
    }

    /** ufs2_zero_block: one sector of zeros at a time. */
    method ZeroBlock(f: nat)
      requires Holds(u, store) && u.bsize > 0 && u.bsize % 512 == 0 && Loc(u, f, u.bsize) <= u.size
      modifies store.dev
      ensures Holds(u, store) && |Bytes()| == |old(Bytes())| == u.size
      ensures forall k :: 0 <= k < u.size ==>
          Bytes()[k] == if Loc(u, f, 0) <= k < Loc(u, f, u.bsize) then 0 else old(Bytes())[k]
    {
      hide Blockdev.Store.Bytes, Blockdev.Reaches, Splice;
      HoldsBytes(u, store);
      var base := Loc(u, f, 0);
      var offset: nat := 0;
      while offset < u.bsize
        invariant offset <= u.bsize && offset % 512 == 0 && Holds(u, store) && |Bytes()| == u.size
        invariant forall k :: 0 <= k < u.size ==> Bytes()[k] == if base <= k < base + offset then 0 else old(Bytes())[k]
      {
        store.Put(base + offset, Zeros(512));
        offset := offset + 512;
      }
    }

    /** The body of write_growing's first loop: a block for an empty slot. false is a full volume. */
    method AddBlock(n: nat, bn: nat) returns (ok: bool)
      requires Sound() && n in inodes && bn < DIRECTS && PtrAt(Now(), Ref(n, bn)) == 0
      modifies store.dev, this`inodes, this`owner
      ensures Sound() && u.fpg > 0
      ensures if ok then Grew(u, old(Now()), Now(), n) && PtrAt(Now(), Ref(n, bn)) != 0
              else Now() == old(Now()) && owner == old(owner) && NoBlock(u, Bytes())
    {
      hide Owned, PtrAt, Grew, Allocated, WhollyFree, NoBlock;
      ghost var d, own := Now(), owner;
      Positive2(u, d, own);
      Parts(u, d, own, n);
      var r := AllocBlock(u, store);
      if r.None? {
        return false;
      }
      var f := r.value;
      ghost var w := Bytes();
      SameLength(u, d.v, w, f);
      ZeroBlock(f);
      inodes := inodes[n := Inode(inodes[n].size, inodes[n].direct[bn := f])];
      owner := owner[f := Ref(n, bn)];
      ok := true;
      AddedOwned(u, d, own, w, Now(), Ref(n, bn), f);
      AddedGrew(u, d, own, w, Now(), Ref(n, bn), f);
    }

    /** write_growing's first loop: blocks for everything below end. */
    method AddBlocks(n: nat, end: nat) returns (ok: bool)
      requires Sound() && n in inodes && end <= DIRECTS * u.bsize
      modifies store.dev, this`inodes, this`owner
      ensures Sound() && u.fpg > 0 && Grew(u, old(Now()), Now(), n)
      ensures if ok then Backed(u, Now(), n, 0, end) else NoBlock(u, Bytes())
    {
      hide Owned, PtrAt, Grew, NoBlock, BlockNo;
      ghost var d := Now();
      Positive2(u, d, owner);
      GrewNothing(u, d, n);
      var count := Blocks(end, u.bsize);
      BlocksBound(end, u.bsize);
      for block := 0 to count
        invariant Sound() && Grew(u, d, Now(), n) && n in inodes
        invariant forall b: nat :: b < block ==> PtrAt(Now(), Ref(n, b)) != 0
      {
        ghost var e := Now();
        var f := Address(n, block);
        if f == 0 {
          ok := AddBlock(n, block);
          if !ok {
            return;
          }
          GrewChain(u, d, e, Now(), n);
          GrewPtrs(u, e, Now(), n);
        }
      }
      forall i: nat | i < end
        ensures PtrAt(Now(), Ref(n, BlockNo(i, u.bsize))) != 0
      {
        InBlocks(i, end, u.bsize);
      }
      ok := true;
    }

    /** write_growing's zero padding of [lo, hi), in pieces of at most a sector. */
    method ZeroRange(n: nat, lo: nat, hi: nat)
      requires Sound() && lo <= hi && Backed(u, Now(), n, 0, hi)
      modifies store.dev
      ensures Sound() && Stored(u, old(Now()), Now(), n, lo, Zeros(hi - lo))
    {
      hide Owned, PtrAt, Stored, BlockNo;
      ghost var d, z := Now(), Zeros(hi - lo);
      var at := lo;
      NothingStored(u, d, n, lo);
      assert z[..0] == [];
      while at < hi
        invariant lo <= at <= hi && Sound() && inodes == old(inodes) && Stored(u, d, Now(), n, lo, z[..at - lo])
      {
        var count := if hi - at < 512 then hi - at else 512;
        ghost var e := Now();
        SamePtrs(d, e);
        var ok, done := WriteRange(n, at, Zeros(count));
        assert Zeros(count) == z[at - lo..at - lo + count];
        StoredMore(u, d, e, Now(), n, lo, z, at - lo, at - lo + count);
        at := at + count;
      }
      assert z[..hi - lo] == z;
    }

    /**
     ufs2_write_growing: on success the file is its old contents, zero-padded to off,
     overlaid with src; no other file changes. false is -1: the end is out of reach of
     the direct blocks, or the volume is full; then no file reads differently.
     */
    method WriteGrowing(n: nat, off: nat, src: seq<Byte>) returns (ok: bool)
      requires Sound() && n in inodes
      modifies store.dev, this`inodes, this`owner
      ensures Sound() && OthersSame(old(inodes), inodes, n) && u.fpg > 0
      ensures forall r :: PtrAt(old(Now()), r) != 0 ==> PtrAt(Now(), r) == PtrAt(old(Now()), r)
      ensures ok ==> Backed(u, Now(), n, 0, off + |src|)
      ensures ok ==> off + |src| <= DIRECTS * u.bsize && Overlaid(u, old(Now()), Now(), n, off, src)
      ensures !ok ==>
          && Grew(u, old(Now()), Now(), n)
          && (off + |src| <= MAX64 && off + |src| <= DIRECTS * u.bsize ==> NoBlock(u, Bytes()))
      ensures forall q: nat :: Free(u, Bytes(), q) ==> Free(u, old(Bytes()), q)
      ensures forall q: nat :: Free(u, old(Bytes()), q) && !Free(u, Bytes(), q) ==>
          exists bn: nat :: IsNew(u, old(Now()), Now(), n, bn, q)
      ensures forall bn: nat, q: nat :: IsNew(u, old(Now()), Now(), n, bn, q) ==> Free(u, old(Bytes()), q)
    {
      hide Owned, PtrAt, Stored, Free, ByteAt, BlockNo, NoBlock, Backed, Overlaid;
      ghost var d := Now();
      Positive2(u, d, owner);
      GrewNothing(u, d, n);
      GrewPtrs(u, d, d, n);
      if off > MAX64 - |src| {
        return false;
      }
      var end := off + |src|;
      if end > DIRECTS * u.bsize {
        return false;
      }
      var size := inodes[n].size;
      var got := AddBlocks(n, end);
      GrewPtrs(u, d, Now(), n);
      if !got {
        return false;
      }
      ghost var e := Now();
      WriteAt(n, size, off, src);
      Finish(u, d, e, Now(), n, off, src);
      ok := true;
    }

    /** The rest of write_growing: the size, the padding and the data. */
    method WriteAt(n: nat, size: nat, off: nat, src: seq<Byte>)
      requires Sound() && n in inodes && size == inodes[n].size && Backed(u, Now(), n, 0, off + |src|)
      modifies store.dev, this`inodes
      ensures Sound() && Overlaid(u, old(Now()), Now(), n, off, src) && SamePlaces(u, old(Now()), Now())
      ensures OthersSame(old(inodes), inodes, n)
    {
      hide Owned, PtrAt, Stored, Free, ByteAt, BlockNo, Overlaid, SamePlaces;
      ghost var d := Now();
      var end := off + |src|;
      BackedPart(u, d, n, off, end, end);
      if end <= size {
        var ok, done := WriteRange(n, off, src);
        OverlaidInside(u, d, Now(), owner, n, off, src);
        return;
      }
      inodes := inodes[n := inodes[n].(size := end)];
      ghost var e := Now();
      Resized(u, d, e, owner, n, end);
      if size < off {
        BackedPart(u, e, n, 0, off, end);
        ZeroRange(n, size, off);
      } else {
        NothingStored(u, e, n, size);
      }
      ghost var h := Now();
      SamePtrs(e, h);
      var ok, done := WriteRange(n, off, src);
      OverlaidBeyond(u, d, e, h, Now(), owner, n, off, src);
    }

    /** ufs2_read: exactly the stored bytes; None is -1, past the end or where a block is missing. */
    method Read(n: nat, off: nat, length: nat) returns (r: Option<seq<Byte>>)
      requires Sound() && n in inodes
      ensures r.Some? <==>
          off <= inodes[n].size && length <= inodes[n].size - off && Backed(u, Now(), n, off, off + length)
      ensures r.Some? ==> |r.value| == length && forall k :: 0 <= k < length ==>
          r.value[k] == ByteAt(u, Now(), n, off + k)
    {
      hide Owned, PtrAt, BlockNo, InBlk, Loc, ByteAt, Blockdev.Store.Bytes, Blockdev.Reaches;
      if off > inodes[n].size || length > inodes[n].size - off {
        return None;
      }
      var out: seq<Byte> := [];
      while |out| < length
        invariant |out| <= length && Backed(u, Now(), n, off, off + |out|)
        invariant forall k :: 0 <= k < |out| ==> out[k] == ByteAt(u, Now(), n, off + k)
        decreases length - |out|
      {
        var at := off + |out|;
        var j := InBlk(at, u.bsize);
        var count := if u.bsize - j > length - |out| then length - |out| else u.bsize - j;
        var f := Address(n, BlockNo(at, u.bsize));
        if f == 0 {
          assert PtrAt(Now(), Ref(n, BlockNo(at, u.bsize))) == 0;
          return None;
        }
        LastFits(u, Now(), owner, n, at, count);
        Positive2(u, Now(), owner);
        var chunk := store.Get(Loc(u, f, j), count);
        ChunkRead(u, Now(), n, at, chunk);
        ChunkBacked(u, Now(), n, off, at, count);
        out := out + chunk;
      }
      r := Some(out);
    }

    /** What was written reads back. */
    method WriteThenRead(n: nat, off: nat, src: seq<Byte>) returns (ok: bool, r: Option<seq<Byte>>)
      requires Sound() && n in inodes
      modifies store.dev, this`inodes, this`owner
      ensures ok ==> r == Some(src)
    {
      hide Owned, PtrAt, ByteAt, BlockNo, Free, NoBlock, Grew;
      ghost var d := Now();
      ok := WriteGrowing(n, off, src);
      r := Read(n, off, |src|);
      if ok {
        forall k | 0 <= k < |src|
          ensures r.Some? ==> r.value[k] == src[k]
        {
          assert ByteAt(u, Now(), n, off + k) == OverlaidByte(u, d, n, off, src, n, off + k);
        }
        assert r.Some? && r.value == src;
      }
    }

    /** A write to one file, successful or not, changes nothing that is read from another. */
    method ReadAcross(n: nat, off: nat, src: seq<Byte>, m: nat, at: nat, length: nat)
      returns (before: Option<seq<Byte>>, after: Option<seq<Byte>>)
      requires Sound() && n in inodes && m in inodes && m != n
      modifies store.dev, this`inodes, this`owner
      ensures before == after
    {
      hide Owned, ByteAt, BlockNo, Free, NoBlock, Backed;
      ghost var d := Now();
      before := Read(m, at, length);
      var ok := WriteGrowing(n, off, src);
      after := Read(m, at, length);
      SameFile(u, d, Now(), m, at, at + length);
      if before.Some? && after.Some? {
        forall k | 0 <= k < length
          ensures before.value[k] == after.value[k]
        {
          assert ok ==> ByteAt(u, Now(), m, at + k) == OverlaidByte(u, d, n, off, src, m, at + k);
        }
        assert before.value == after.value;
      }
    }

    /** One turn of ufs2_truncate's loop. */
    method DropBlock(n: nat, bn: nat)
      requires Sound() && n in inodes && bn < DIRECTS && PtrAt(Now(), Ref(n, bn)) != 0
      modifies store.dev, this`inodes, this`owner
      ensures Sound() && inodes.Keys == old(inodes.Keys) && |inodes[n].direct| == DIRECTS == |old(inodes)[n].direct|
      ensures Dropped(u, old(Now()), Now(), n, bn)
    {
      hide Owned, PtrAt, Allocated, BlockNo, Dropped;
      ghost var d, own, at := Now(), owner, Ref(n, bn);
      Parts(u, d, own, n);
      Positive2(u, d, own);
      Mapped(u, d, own, at);
      PtrIs(d, n, bn);
      var f := inodes[n].direct[bn];
      inodes := inodes[n := Inode(inodes[n].size, inodes[n].direct[bn := 0])];
      var ok := FreeBlock(u, store, f);
      assert ok;
      owner := owner - {f};
      DropOwned(u, d, own, Now(), at, f);
      DropKeeps(u, d, own, Now(), at, f);
    }

    /** ufs2_truncate: the file is empty, exactly its blocks are free again, and no other file changes. */
    method Truncate(n: nat)
      requires Sound() && n in inodes
      modifies store.dev, this`inodes, this`owner
      ensures Sound() && n in inodes && inodes[n].size == 0
      ensures Truncated(u, old(Now()), Now(), n, DIRECTS)
    {
      hide Owned, PtrAt, ByteAt, Truncated, Dropped;
      ghost var d := Now();
      inodes := inodes[n := inodes[n].(size := 0)];
      Resized(u, d, Now(), owner, n, 0);
      NoneTruncated(u, d, Now(), n);
      for bn := 0 to DIRECTS
        invariant Sound() && n in inodes && inodes[n].size == 0 && Truncated(u, d, Now(), n, bn)
      {
        ghost var e := Now();
        var f := Address(n, bn);
        if f != 0 {
          DropBlock(n, bn);
          TruncatedMore(u, d, e, Now(), n, bn);
        } else {
          TruncatedSkip(u, d, e, n, bn);
        }
      }
    }
  }

  /** Fragment q is in the block file n has in slot bn. */
  predicate InSlot(u: Ufs, d: Disk, n: nat, bn: nat, q: nat) {
    PtrAt(d, Ref(n, bn)) != 0 && PtrAt(d, Ref(n, bn)) <= q < PtrAt(d, Ref(n, bn)) + u.fpb
  }

  /** The first k slots of file n were emptied and their blocks freed; the other files read as before. */
  ghost predicate Truncated(u: Ufs, d: Disk, e: Disk, n: nat, k: nat)
    requires u.bsize > 0 && u.fpg > 0
  {
    && e.inodes.Keys == d.inodes.Keys && (forall m :: m in d.inodes && m != n ==> e.inodes[m].size == d.inodes[m].size)
    && (forall r :: PtrAt(e, r) == if r.ino == n && r.i < k then 0 else PtrAt(d, r))
    && (forall q: nat :: Free(u, e.v, q) <==> Free(u, d.v, q) || exists bn: nat :: bn < k && InSlot(u, d, n, bn, q))
    && forall m: nat, i: nat :: m != n ==> ByteAt(u, e, m, i) == ByteAt(u, d, m, i)
  }

  lemma NoneTruncated(u: Ufs, d: Disk, e: Disk, n: nat)
    requires u.bsize > 0 && u.fpg > 0 && n in d.inodes && e == Disk(d.v, d.inodes[n := d.inodes[n].(size := 0)])
    requires (forall r :: PtrAt(e, r) == PtrAt(d, r))
    requires forall m: nat, i: nat :: ByteAt(u, e, m, i) == ByteAt(u, d, m, i)
    ensures Truncated(u, d, e, n, 0)
  {
    hide PtrAt, ByteAt, Free;
  }

  lemma TruncatedSkip(u: Ufs, d: Disk, e: Disk, n: nat, k: nat)
    requires u.bsize > 0 && u.fpg > 0 && Truncated(u, d, e, n, k) && PtrAt(e, Ref(n, k)) == 0
    ensures Truncated(u, d, e, n, k + 1)
  {
    hide PtrAt, ByteAt, Free;
    forall q: nat
      ensures Free(u, e.v, q) <==> Free(u, d.v, q) || exists bn: nat :: bn < k + 1 && InSlot(u, d, n, bn, q)
    {
      if bn: nat :| bn < k + 1 && InSlot(u, d, n, bn, q) {
        assert bn < k && InSlot(u, d, n, bn, q);
      }
    }
  }

  lemma TruncatedMore(u: Ufs, d: Disk, e: Disk, h: Disk, n: nat, k: nat)
    requires u.bsize > 0 && u.fpg > 0 && Truncated(u, d, e, n, k) && Dropped(u, e, h, n, k)
    requires h.inodes.Keys == e.inodes.Keys
    requires PtrAt(e, Ref(n, k)) != 0
    ensures Truncated(u, d, h, n, k + 1) && forall m :: m in e.inodes ==> h.inodes[m].size == e.inodes[m].size
  {
    hide PtrAt, ByteAt, Free;
    forall q: nat
      ensures Free(u, h.v, q) <==> Free(u, d.v, q) || exists bn: nat :: bn < k + 1 && InSlot(u, d, n, bn, q)
    {
      FreedMore(u, d, e, h, n, k, q);
    }
  }

  lemma FreedMore(u: Ufs, d: Disk, e: Disk, h: Disk, n: nat, k: nat, q: nat)
    requires u.bsize > 0 && u.fpg > 0 && Truncated(u, d, e, n, k) && Dropped(u, e, h, n, k) && PtrAt(e, Ref(n, k)) != 0
    ensures Free(u, h.v, q) <==> Free(u, d.v, q) || exists bn: nat :: bn < k + 1 && InSlot(u, d, n, bn, q)
  {
    hide PtrAt, ByteAt, Free;
    assert PtrAt(e, Ref(n, k)) == PtrAt(d, Ref(n, k));
    if InSlot(u, d, n, k, q) {
      assert k < k + 1 && InSlot(u, d, n, k, q);
    } else if bn: nat :| bn < k + 1 && InSlot(u, d, n, bn, q) {
      assert bn < k && InSlot(u, d, n, bn, q);
    } else {
      assert forall bn: nat :: bn < k ==> !InSlot(u, d, n, bn, q);
    }
  }

  /** Block bn of file n was freed; no other pointer, map bit or byte of a file changed. */
  ghost predicate Dropped(u: Ufs, d: Disk, e: Disk, n: nat, bn: nat)
    requires u.bsize > 0 && u.fpg > 0
  {
    && (forall m :: m in d.inodes && m in e.inodes ==> e.inodes[m].size == d.inodes[m].size)
    && (forall r :: PtrAt(e, r) == if r == Ref(n, bn) then 0 else PtrAt(d, r))
    && (forall q: nat ::
        Free(u, e.v, q) == (Free(u, d.v, q) || PtrAt(d, Ref(n, bn)) <= q < PtrAt(d, Ref(n, bn)) + u.fpb))
    && forall m: nat, i: nat :: ByteAt(u, e, m, i) == if m == n && BlockNo(i, u.bsize) == bn then 0
        else ByteAt(u, d, m, i)
  }

  lemma Parts(u: Ufs, d: Disk, owner: map<nat, Ref>, n: nat)
    requires Owned(u, d, owner) && n in d.inodes
    ensures UfsOk(u) && u.bsize % 512 == 0 && |d.inodes[n].direct| == DIRECTS
  {
    hide BitOk;
  }

  /** Block q is one that file n has in e and had not in d. */
  ghost predicate IsNew(u: Ufs, d: Disk, e: Disk, n: nat, bn: nat, q: nat) {
    bn < DIRECTS && PtrAt(d, Ref(n, bn)) == 0 && PtrAt(e, Ref(n, bn)) != 0
        && PtrAt(e, Ref(n, bn)) <= q < PtrAt(e, Ref(n, bn)) + u.fpb
  }

  /**
   e is d with blocks added to file n: they were wholly free, no other map bit changed,
   and no file reads differently.
   */
  ghost predicate Grew(u: Ufs, d: Disk, e: Disk, n: nat)
    requires u.bsize > 0 && u.fpg > 0
  {
    && e.inodes.Keys == d.inodes.Keys && |e.v| == |d.v|
    && (forall m :: m in d.inodes ==> e.inodes[m].size == d.inodes[m].size && (m != n ==> e.inodes[m] == d.inodes[m]))
    && (forall r :: PtrAt(d, r) != 0 ==> PtrAt(e, r) == PtrAt(d, r))
    && (forall m: nat, i: nat :: ByteAt(u, e, m, i) == ByteAt(u, d, m, i))
    && (forall q: nat :: Free(u, e.v, q) ==> Free(u, d.v, q))
    && (forall bn: nat, q: nat :: IsNew(u, d, e, n, bn, q) ==> Free(u, d.v, q))
    && forall q: nat :: Free(u, d.v, q) && !Free(u, e.v, q) ==> exists bn: nat :: IsNew(u, d, e, n, bn, q)
  }

  lemma AddedOwned(u: Ufs, d: Disk, owner: map<nat, Ref>, w: seq<Byte>, e: Disk, at: Ref, f: nat)
    requires Owned(u, d, owner) && u.fpg > 0 && u.fpb > 0 && u.fsize > 0 && u.bsize > 0 && RefOk(d, at)
    requires PtrAt(d, at) == 0
    requires f % u.fpb == 0 && f * u.fsize + u.bsize <= u.size && WhollyFree(u, d.v, f)
    requires Allocated(u, d.v, w, f, false) && IsMapped(u, f)
    requires |e.v| == |w|
    requires forall k :: 0 <= k < |w| ==> e.v[k] == if Loc(u, f, 0) <= k < Loc(u, f, u.bsize) then 0 else w[k]
    requires e.inodes == d.inodes[at.ino := Inode(d.inodes[at.ino].size, d.inodes[at.ino].direct[at.i := f])]
    ensures f !in owner && Owned(u, e, owner[f := at])
  {
    hide UfsOk, Free, PtrAt;
    forall q: nat
      ensures Free(u, e.v, q) == if f <= q < f + u.fpb then false else Free(u, d.v, q)
    {
      ZeroedFree(u, d, owner, w, e.v, f, q);
    }
    LinkOwned(u, d, owner, e, at, f);
  }

  /** Zeroing a free block touches no map byte. */
  lemma ZeroedFree(u: Ufs, d: Disk, owner: map<nat, Ref>, w: seq<Byte>, x: seq<Byte>, f: nat, q: nat)
    requires Owned(u, d, owner) && u.fpg > 0 && u.fpb > 0 && u.fsize > 0 && u.bsize > 0
    requires WhollyFree(u, d.v, f) && |w| == |x| == |d.v| && f * u.fsize + u.bsize <= u.size
    requires forall k :: 0 <= k < |w| ==> x[k] == if Loc(u, f, 0) <= k < Loc(u, f, u.bsize) then 0 else w[k]
    ensures Free(u, x, q) == Free(u, w, q)
  {
    hide UfsOk, GroupOf, BitIn, FragOf, PtrAt;
    var g, bit := GroupOf(q, u.fpg), BitIn(q, u.fpg);
    if HasBit(u, g, bit) {
      HasByte(u, g, bit);
      var k := MapByte(u, g, bit);
      if Loc(u, f, 0) <= k < Loc(u, f, u.bsize) {
        InBlock(u, f, k - Loc(u, f, 0));
      }
    }
  }

  lemma SamePtrs(d: Disk, e: Disk)
    requires e.inodes == d.inodes
    ensures forall r :: PtrAt(e, r) == PtrAt(d, r)
  {
  }

  function PutBytes(u: Ufs, v: seq<Byte>, f: nat, j: nat, chunk: seq<Byte>): (w: seq<Byte>)
    requires Loc(u, f, j) + |chunk| <= |v|
  {
    Splice(v, Loc(u, f, j), chunk)
  }

  lemma PutIs(u: Ufs, d: Disk, f: nat, j: nat, chunk: seq<Byte>)
    requires Loc(u, f, j) + |chunk| <= |d.v|
    ensures Put(u, d, f, j, chunk) == Disk(PutBytes(u, d.v, f, j, chunk), d.inodes)
  {
  }

  lemma ChunkBacked(u: Ufs, d: Disk, n: nat, off: nat, at: nat, count: nat)
    requires u.bsize > 0 && off <= at && Backed(u, d, n, off, at) && 0 < count <= u.bsize - InBlk(at, u.bsize)
    requires PtrAt(d, Ref(n, BlockNo(at, u.bsize))) != 0
    ensures Backed(u, d, n, off, at + count)
  {
    hide PtrAt, BlockNo, InBlk;
    forall i: nat | off <= i < at + count
      ensures PtrAt(d, Ref(n, BlockNo(i, u.bsize))) != 0
    {
      if i >= at {
        SameBlock(at, i - at, u.bsize);
      }
    }
  }

  /** A byte of a live block is not touched by allocating and zeroing another. */
  lemma LiveKept(u: Ufs, d: Disk, owner: map<nat, Ref>, w: seq<Byte>, x: seq<Byte>, f: nat, r: Ref, j: nat)
    requires Owned(u, d, owner) && u.fpg > 0 && u.fpb > 0 && u.fsize > 0 && u.bsize > 0 && j < u.bsize
    requires PtrAt(d, r) != 0
    requires f % u.fpb == 0 && WhollyFree(u, d.v, f) && Allocated(u, d.v, w, f, false) && |x| == |w|
    requires forall k :: 0 <= k < |w| ==> x[k] == if Loc(u, f, 0) <= k < Loc(u, f, u.bsize) then 0 else w[k]
    ensures Loc(u, PtrAt(d, r), j) < |d.v| && x[Loc(u, PtrAt(d, r), j)] == d.v[Loc(u, PtrAt(d, r), j)]
  {
    hide UfsOk, Free, PtrAt, FragOf;
    LiveByte(u, d, owner, r, j);
    FreeIsNobodys(u, d, owner, f);
    assert PointsOk(d, owner, r);
    var k := Loc(u, PtrAt(d, r), j);
    if Loc(u, f, 0) <= k < Loc(u, f, u.bsize) {
      BlocksApart(u, f, PtrAt(d, r), k - Loc(u, f, 0), j);
    }
  }

  lemma AddedPtr(d: Disk, e: Disk, at: Ref, f: nat, r: Ref)
    requires RefOk(d, at)
    requires e.inodes == d.inodes[at.ino := Inode(d.inodes[at.ino].size, d.inodes[at.ino].direct[at.i := f])]
    ensures PtrAt(e, r) == if r == at then f else PtrAt(d, r)
  {
  }

  lemma AddedByte(u: Ufs, d: Disk, owner: map<nat, Ref>, w: seq<Byte>, e: Disk, at: Ref, f: nat, m: nat, i: nat)
    requires Owned(u, d, owner) && u.fpg > 0 && u.fpb > 0 && u.fsize > 0 && u.bsize > 0 && RefOk(d, at)
    requires PtrAt(d, at) == 0
    requires f % u.fpb == 0 && f * u.fsize + u.bsize <= u.size && WhollyFree(u, d.v, f)
    requires Allocated(u, d.v, w, f, false)
    requires |e.v| == |w|
    requires forall k :: 0 <= k < |w| ==> e.v[k] == if Loc(u, f, 0) <= k < Loc(u, f, u.bsize) then 0 else w[k]
    requires e.inodes == d.inodes[at.ino := Inode(d.inodes[at.ino].size, d.inodes[at.ino].direct[at.i := f])]
    ensures ByteAt(u, e, m, i) == ByteAt(u, d, m, i)
  {
    hide UfsOk, Owned, Free, PtrAt, BlockNo, InBlk, WhollyFree, Allocated;
    var r, j := Ref(m, BlockNo(i, u.bsize)), InBlk(i, u.bsize);
    AddedPtr(d, e, at, f, r);
    if r != at && PtrAt(d, r) != 0 {
      SameLength(u, d.v, w, f);
      LiveKept(u, d, owner, w, e.v, f, r, j);
    }
  }

  lemma SameLength(u: Ufs, v: seq<Byte>, w: seq<Byte>, f: nat)
    requires u.fpg > 0 && u.fsize > 0 && Allocated(u, v, w, f, false)
    ensures |w| == |v|
  {
  }

  lemma AddedGrew(u: Ufs, d: Disk, owner: map<nat, Ref>, w: seq<Byte>, e: Disk, at: Ref, f: nat)
    requires Owned(u, d, owner) && u.fpg > 0 && u.fpb > 0 && u.fsize > 0 && u.bsize > 0 && RefOk(d, at)
    requires PtrAt(d, at) == 0
    requires f % u.fpb == 0 && f * u.fsize + u.bsize <= u.size && WhollyFree(u, d.v, f)
    requires Allocated(u, d.v, w, f, false)
    requires |e.v| == |w|
    requires forall k :: 0 <= k < |w| ==> e.v[k] == if Loc(u, f, 0) <= k < Loc(u, f, u.bsize) then 0 else w[k]
    requires e.inodes == d.inodes[at.ino := Inode(d.inodes[at.ino].size, d.inodes[at.ino].direct[at.i := f])]
    ensures Grew(u, d, e, at.ino) && PtrAt(e, at) != 0
  {
    hide UfsOk, Owned, Free, PtrAt, ByteAt, Loc;
    FreeIsNobodys(u, d, owner, f);
    SameLength(u, d.v, w, f);
    forall r
      ensures PtrAt(e, r) == if r == at then f else PtrAt(d, r)
    {
      AddedPtr(d, e, at, f, r);
    }
    forall m: nat, i: nat
      ensures ByteAt(u, e, m, i) == ByteAt(u, d, m, i)
    {
      AddedByte(u, d, owner, w, e, at, f, m, i);
    }
    forall q: nat
      ensures Free(u, e.v, q) == if f <= q < f + u.fpb then false else Free(u, d.v, q)
    {
      AddedFree(u, d, owner, w, e, f, q);
    }
    forall q: nat | Free(u, d.v, q) && !Free(u, e.v, q)
      ensures exists bn: nat :: IsNew(u, d, e, at.ino, bn, q)
    {
      assert IsNew(u, d, e, at.ino, at.i, q);
    }
  }

  lemma AddedFree(u: Ufs, d: Disk, owner: map<nat, Ref>, w: seq<Byte>, e: Disk, f: nat, q: nat)
    requires Owned(u, d, owner) && u.fpg > 0 && u.fpb > 0 && u.fsize > 0 && u.bsize > 0
    requires f * u.fsize + u.bsize <= u.size && WhollyFree(u, d.v, f) && Allocated(u, d.v, w, f, false)
    requires |e.v| == |w|
    requires forall k :: 0 <= k < |w| ==> e.v[k] == if Loc(u, f, 0) <= k < Loc(u, f, u.bsize) then 0 else w[k]
    ensures Free(u, e.v, q) == if f <= q < f + u.fpb then false else Free(u, d.v, q)
  {
    hide UfsOk, Free, PtrAt;
    ZeroedFree(u, d, owner, w, e.v, f, q);
  }

  /** Growing twice is growing. */
  lemma GrewChain(u: Ufs, d: Disk, e: Disk, h: Disk, n: nat)
    requires u.bsize > 0 && u.fpg > 0 && Grew(u, d, e, n) && Grew(u, e, h, n)
    ensures Grew(u, d, h, n)
  {
    hide Free, ByteAt, PtrAt;
    forall bn: nat, q: nat | IsNew(u, d, h, n, bn, q)
      ensures Free(u, d.v, q)
    {
      assert IsNew(u, d, e, n, bn, q) || IsNew(u, e, h, n, bn, q);
    }
    forall q: nat | Free(u, d.v, q) && !Free(u, h.v, q)
      ensures exists bn: nat :: IsNew(u, d, h, n, bn, q)
    {
      if Free(u, e.v, q) {
        var bn: nat :| IsNew(u, e, h, n, bn, q);
        assert IsNew(u, d, h, n, bn, q);
      } else {
        var bn: nat :| IsNew(u, d, e, n, bn, q);
        assert IsNew(u, d, h, n, bn, q);
      }
    }
  }

  lemma GrewNothing(u: Ufs, d: Disk, n: nat)
    requires u.bsize > 0 && u.fpg > 0
    ensures Grew(u, d, d, n)
  {
    hide Free, ByteAt, PtrAt;
  }

  lemma GrewPtrs(u: Ufs, d: Disk, e: Disk, n: nat)
    requires u.bsize > 0 && u.fpg > 0 && Grew(u, d, e, n)
    ensures OthersSame(d.inodes, e.inodes, n) && forall r :: PtrAt(d, r) != 0 ==> PtrAt(e, r) == PtrAt(d, r)
  {
  }

  // --------------------------------------------------------- write_growing

  /** The number of blocks below end. */
  function Blocks(end: nat, bsize: nat): nat
    requires bsize > 0
  {
    (end + bsize - 1) / bsize
  }

  lemma BlocksBound(end: nat, bsize: nat)
    requires bsize > 0 && end <= DIRECTS * bsize
    ensures Blocks(end, bsize) <= DIRECTS
  {
    Distribute(DIRECTS, 1, bsize);
    DivLess(end + bsize - 1, DIRECTS + 1, bsize);
  }

  lemma InBlocks(i: nat, end: nat, bsize: nat)
    requires bsize > 0 && i < end
    ensures BlockNo(i, bsize) < Blocks(end, bsize)
  {
    var q := i / bsize;
    assert i == q * bsize + i % bsize;
    Distribute(q, 1, bsize);
    Between(end + bsize - 1, q + 1, Blocks(end, bsize) + 1, bsize);
    assert end + bsize - 1 == Blocks(end, bsize) * bsize + (end + bsize - 1) % bsize;
    Distribute(Blocks(end, bsize), 1, bsize);
  }

  lemma BackedPart(u: Ufs, d: Disk, n: nat, lo: nat, hi: nat, all: nat)
    requires u.bsize > 0 && Backed(u, d, n, 0, all) && hi <= all
    ensures Backed(u, d, n, lo, hi)
  {
    hide PtrAt, BlockNo;
  }

  /** e is d with file n's contents zero-padded to off and overlaid with src, and nothing else changed. */
  ghost predicate Overlaid(u: Ufs, d: Disk, e: Disk, n: nat, off: nat, src: seq<Byte>)
    requires u.bsize > 0
  {
    && n in d.inodes && e.inodes.Keys == d.inodes.Keys
    && (forall m :: m in d.inodes ==>
        e.inodes[m].size == if m == n && off + |src| > d.inodes[n].size then off + |src| else d.inodes[m].size)
    && forall m: nat, i: nat :: ByteAt(u, e, m, i) == OverlaidByte(u, d, n, off, src, m, i)
  }

  function OverlaidByte(u: Ufs, d: Disk, n: nat, off: nat, src: seq<Byte>, m: nat, i: nat): Byte
    requires u.bsize > 0 && n in d.inodes
  {
    if m == n && off <= i < off + |src| then src[i - off]
    else if m == n && d.inodes[n].size <= i < off then 0
    else ByteAt(u, d, m, i)
  }

  /** No other inode changed. */
  ghost predicate OthersSame(a: map<nat, Inode>, b: map<nat, Inode>, n: nat) {
    a.Keys == b.Keys && forall m :: m in a && m != n ==> b[m] == a[m]
  }

  /** Same blocks, same map bits. */
  ghost predicate SamePlaces(u: Ufs, d: Disk, e: Disk)
    requires u.fpg > 0
  {
    (forall r :: PtrAt(e, r) == PtrAt(d, r)) && forall q: nat :: Free(u, e.v, q) == Free(u, d.v, q)
  }

  lemma OverlaidInside(u: Ufs, d: Disk, e: Disk, owner: map<nat, Ref>, n: nat, off: nat, src: seq<Byte>)
    requires u.bsize > 0 && u.fpg > 0 && n in d.inodes && off + |src| <= d.inodes[n].size
    requires Stored(u, d, e, n, off, src)
    ensures Overlaid(u, d, e, n, off, src) && SamePlaces(u, d, e)
  {
    hide ByteAt, Free, PtrAt;
    SamePtrs(d, e);
    forall m: nat, i: nat
      ensures ByteAt(u, e, m, i) == OverlaidByte(u, d, n, off, src, m, i)
    {
      assert ByteAt(u, e, m, i) == StoredByte(u, d, n, off, src, m, i);
    }
  }

  /** A new size moves no byte. */
  lemma Resized(u: Ufs, d: Disk, e: Disk, owner: map<nat, Ref>, n: nat, size: nat)
    requires Owned(u, d, owner) && u.bsize > 0 && u.fpg > 0 && n in d.inodes
    requires e == Disk(d.v, d.inodes[n := d.inodes[n].(size := size)])
    ensures Owned(u, e, owner) && (forall r :: PtrAt(e, r) == PtrAt(d, r))
    ensures forall m: nat, i: nat :: ByteAt(u, e, m, i) == ByteAt(u, d, m, i)
  {
    hide UfsOk, Free, BlockNo, InBlk, Loc;
    Positive(u);
    ResizedPtr(d, e, n, size);
    forall f | f in owner
      ensures OwnedOk(u, e, owner, f)
    {
      assert OwnedOk(u, d, owner, f);
    }
    forall r
      ensures PointsOk(e, owner, r)
    {
      assert PointsOk(d, owner, r);
    }
  }

  lemma ResizedPtr(d: Disk, e: Disk, n: nat, size: nat)
    requires n in d.inodes && e == Disk(d.v, d.inodes[n := d.inodes[n].(size := size)])
    ensures forall r :: PtrAt(e, r) == PtrAt(d, r)
  {
  }

  lemma OverlaidBeyond(u: Ufs, d: Disk, e: Disk, h: Disk, x: Disk, owner: map<nat, Ref>, n: nat, off: nat,
                       src: seq<Byte>)
    requires u.bsize > 0 && u.fpg > 0 && n in d.inodes && off + |src| > d.inodes[n].size
    requires e == Disk(d.v, d.inodes[n := d.inodes[n].(size := off + |src|)])
    requires (forall r :: PtrAt(e, r) == PtrAt(d, r))
    requires forall m: nat, i: nat :: ByteAt(u, e, m, i) == ByteAt(u, d, m, i)
    requires Stored(u, e, h, n, d.inodes[n].size, if d.inodes[n].size < off then Zeros(off - d.inodes[n].size) else [])
    requires Stored(u, h, x, n, off, src)
    ensures Overlaid(u, d, x, n, off, src) && SamePlaces(u, d, x)
  {
    hide ByteAt, Free, PtrAt;
    SamePtrs(e, h);
    SamePtrs(h, x);
    var size := d.inodes[n].size;
    var pad := if size < off then Zeros(off - size) else [];
    forall m: nat, i: nat
      ensures ByteAt(u, x, m, i) == OverlaidByte(u, d, n, off, src, m, i)
    {
      assert ByteAt(u, x, m, i) == StoredByte(u, h, n, off, src, m, i);
      assert ByteAt(u, h, m, i) == StoredByte(u, e, n, size, pad, m, i);
      assert ByteAt(u, e, m, i) == ByteAt(u, d, m, i);
    }
  }

  /** Growing and then overlaying. */
  lemma Finish(u: Ufs, d: Disk, e: Disk, h: Disk, n: nat, off: nat, src: seq<Byte>)
    requires u.bsize > 0 && u.fpg > 0 && n in d.inodes && Grew(u, d, e, n) && Overlaid(u, e, h, n, off, src)
    requires SamePlaces(u, e, h)
    requires OthersSame(e.inodes, h.inodes, n) && Backed(u, e, n, 0, off + |src|)
    ensures Overlaid(u, d, h, n, off, src) && OthersSame(d.inodes, h.inodes, n) && Backed(u, h, n, 0, off + |src|)
    ensures forall r :: PtrAt(d, r) != 0 ==> PtrAt(h, r) == PtrAt(d, r)
    ensures forall q: nat :: Free(u, h.v, q) ==> Free(u, d.v, q)
    ensures forall q: nat :: Free(u, d.v, q) && !Free(u, h.v, q) ==> exists bn: nat :: IsNew(u, d, h, n, bn, q)
    ensures forall bn: nat, q: nat :: IsNew(u, d, h, n, bn, q) ==> Free(u, d.v, q)
  {
    hide ByteAt, Free, PtrAt;
    forall bn: nat, q: nat
      ensures IsNew(u, d, h, n, bn, q) <==> IsNew(u, d, e, n, bn, q)
    {
    }
    forall m: nat, i: nat
      ensures ByteAt(u, h, m, i) == OverlaidByte(u, d, n, off, src, m, i)
    {
      assert ByteAt(u, h, m, i) == OverlaidByte(u, e, n, off, src, m, i);
      assert ByteAt(u, e, m, i) == ByteAt(u, d, m, i);
    }
  }

  lemma SameFile(u: Ufs, d: Disk, e: Disk, m: nat, lo: nat, hi: nat)
    requires u.bsize > 0 && m in d.inodes && m in e.inodes && e.inodes[m] == d.inodes[m]
    ensures Backed(u, e, m, lo, hi) <==> Backed(u, d, m, lo, hi)
  {
    hide BlockNo;
    assert forall i: nat :: PtrAt(e, Ref(m, i)) == PtrAt(d, Ref(m, i));
  }

  // -------------------------------------------------------- read, truncate

  lemma LastFits(u: Ufs, d: Disk, owner: map<nat, Ref>, n: nat, at: nat, count: nat)
    requires Owned(u, d, owner) && u.bsize > 0 && count <= u.bsize - InBlk(at, u.bsize)
    requires PtrAt(d, Ref(n, BlockNo(at, u.bsize))) != 0
    ensures Loc(u, PtrAt(d, Ref(n, BlockNo(at, u.bsize))), InBlk(at, u.bsize)) + count <= |d.v|
  {
    hide UfsOk, Owned, PtrAt, BlockNo, InBlk;
    Positive2(u, d, owner);
    LiveByte(u, d, owner, Ref(n, BlockNo(at, u.bsize)), u.bsize - 1);
  }

  lemma ChunkRead(u: Ufs, d: Disk, n: nat, at: nat, chunk: seq<Byte>)
    requires u.bsize > 0 && |chunk| <= u.bsize - InBlk(at, u.bsize) && PtrAt(d, Ref(n, BlockNo(at, u.bsize))) != 0
    requires var k := Loc(u, PtrAt(d, Ref(n, BlockNo(at, u.bsize))), InBlk(at, u.bsize));
             k + |chunk| <= |d.v| && chunk == d.v[k..k + |chunk|]
    ensures forall k :: 0 <= k < |chunk| ==> chunk[k] == ByteAt(u, d, n, at + k)
  {
    hide PtrAt, BlockNo, InBlk;
    forall k | 0 <= k < |chunk|
      ensures chunk[k] == ByteAt(u, d, n, at + k)
    {
      SameBlock(at, k, u.bsize);
    }
  }

  lemma Mapped(u: Ufs, d: Disk, owner: map<nat, Ref>, r: Ref)
    requires Owned(u, d, owner) && PtrAt(d, r) != 0
    ensures u.fpg > 0 && u.fpb > 0 && PtrAt(d, r) % u.fpb == 0 && IsMapped(u, PtrAt(d, r))
  {
    hide UfsOk, Free, PtrAt, IsMapped;
    Positive(u);
    assert PointsOk(d, owner, r);
    assert OwnedOk(u, d, owner, PtrAt(d, r));
  }

  lemma PtrIs(d: Disk, n: nat, bn: nat)
    requires n in d.inodes && bn < DIRECTS && |d.inodes[n].direct| == DIRECTS
    ensures PtrAt(d, Ref(n, bn)) == d.inodes[n].direct[bn] && RefOk(d, Ref(n, bn))
  {
  }

  lemma DropOwned(u: Ufs, d: Disk, owner: map<nat, Ref>, e: Disk, at: Ref, f: nat)
    requires Owned(u, d, owner) && u.fpg > 0 && u.fpb > 0 && u.fsize > 0 && RefOk(d, at) && PtrAt(d, at) == f != 0
    requires Allocated(u, d.v, e.v, f, true)
    requires e.inodes == d.inodes[at.ino := Inode(d.inodes[at.ino].size, d.inodes[at.ino].direct[at.i := 0])]
    ensures Owned(u, e, owner - {f})
  {
    hide UfsOk, Free, PtrAt;
    UnlinkOwned(u, d, owner, e, at, f);
  }

  lemma DropPtr(d: Disk, e: Disk, at: Ref, r: Ref)
    requires RefOk(d, at)
    requires e.inodes == d.inodes[at.ino := Inode(d.inodes[at.ino].size, d.inodes[at.ino].direct[at.i := 0])]
    ensures PtrAt(e, r) == if r == at then 0 else PtrAt(d, r)
  {
  }

  lemma DropByte(u: Ufs, d: Disk, owner: map<nat, Ref>, e: Disk, at: Ref, f: nat, m: nat, i: nat)
    requires Owned(u, d, owner) && u.fpg > 0 && u.fpb > 0 && u.fsize > 0 && u.bsize > 0 && RefOk(d, at)
    requires PtrAt(d, at) == f != 0
    requires Allocated(u, d.v, e.v, f, true)
    requires e.inodes == d.inodes[at.ino := Inode(d.inodes[at.ino].size, d.inodes[at.ino].direct[at.i := 0])]
    ensures ByteAt(u, e, m, i) == if m == at.ino && BlockNo(i, u.bsize) == at.i then 0 else ByteAt(u, d, m, i)
  {
    hide UfsOk, Owned, Free, PtrAt, BlockNo, InBlk, Loc;
    var r, j := Ref(m, BlockNo(i, u.bsize)), InBlk(i, u.bsize);
    DropPtr(d, e, at, r);
    if r != at && PtrAt(d, r) != 0 {
      LiveByte(u, d, owner, r, j);
    }
  }

  lemma DropKeeps(u: Ufs, d: Disk, owner: map<nat, Ref>, e: Disk, at: Ref, f: nat)
    requires Owned(u, d, owner) && u.fpg > 0 && u.fpb > 0 && u.fsize > 0 && u.bsize > 0 && RefOk(d, at)
    requires PtrAt(d, at) == f != 0
    requires Allocated(u, d.v, e.v, f, true)
    requires e.inodes == d.inodes[at.ino := Inode(d.inodes[at.ino].size, d.inodes[at.ino].direct[at.i := 0])]
    ensures Dropped(u, d, e, at.ino, at.i)
  {
    hide UfsOk, Owned, Free, PtrAt, BlockNo, ByteAt;
    forall r
      ensures PtrAt(e, r) == if r == at then 0 else PtrAt(d, r)
    {
      DropPtr(d, e, at, r);
    }
    forall m: nat, i: nat
      ensures ByteAt(u, e, m, i) == if m == at.ino && BlockNo(i, u.bsize) == at.i then 0 else ByteAt(u, d, m, i)
    {
      DropByte(u, d, owner, e, at, f, m, i);
    }
  }
}
