/**
 kern/mkfs.c: the program that lays down a disk image. Blocks are handed out in
 order and the bitmap is written at the end; the kernel then finds a sound file
 system whose files hold what was appended to them.
 */
module Mkfs {
  import opened Bytes
  import opened Bitmap
  import opened FsBlocks
  import opened Fs
  import opened FsFile
  import LogSpec
  import opened Basics

  const FSSIZE: nat := 4096
  const NLOG: nat := LogSpec.LOGSIZE
  const NINODEBLOCKS: nat := 200 / 4 + 1  // NINODES / IPB + 1, for inodes of 128 bytes
  const NBITMAP: nat := FSSIZE / BPB + 1
  const NMETA: nat := 2 + NLOG + NINODEBLOCKS + NBITMAP

  /** Boot and super block, log, inodes and bitmap, then data. */
  const IMAGE: Geometry := Geometry(FSSIZE, 2 + NLOG + NINODEBLOCKS, NMETA)

  /** A bitmap block with bits 0 to n - 1 set. */
  function FirstBits(n: nat): Block
    requires n <= BPB
  {
    if n == 0 then ZEROBLOCK else Mark(FirstBits(n - 1), n - 1, true)
  }

  lemma {:induction false} FirstBitsAre(n: nat, c: nat)
    requires n <= BPB && c < BPB
    ensures Marked(FirstBits(n), c) <==> c < n
  {
    hide Marked, Mark;
    if n == 0 {
      NoBits(c);
    } else {
      FirstBitsAre(n - 1, c);
    }
  }

  lemma NoBits(c: nat)
    requires c < BPB
    ensures !Marked(ZEROBLOCK, c)
  {
    ZeroBit(c % 8);
  }

  lemma {:induction false} ZeroBit(k: nat)
    ensures !Bit(0, k)
  {
    if k > 0 {
      ZeroBit(k - 1);
    }
  }

  /** The disk as balloc(used) will leave it. */
  function Stamped(disk: seq<Block>, used: nat): (r: seq<Block>)
    requires |disk| == IMAGE.size && used <= BPB
    ensures |r| == |disk|
  {
    disk[IMAGE.bmapstart := FirstBits(used)]
  }

  lemma StampedUsed(disk: seq<Block>, used: nat, b: nat)
    requires |disk| == IMAGE.size && used <= BPB && b < IMAGE.size
    ensures Used(IMAGE, Stamped(disk, used), b) <==> b < used
  {
    hide Marked, FirstBits;
    FirstBitsAre(used, b);
  }

  /** Handing out the next block is marking it: what balloc will write says so. */
  lemma StampNext(disk: seq<Block>, used: nat)
    requires |disk| == IMAGE.size && IMAGE.datastart <= used < IMAGE.size && disk[used] == ZEROBLOCK
    ensures Stamped(disk, used + 1) == SetUsed(IMAGE, Stamped(disk, used), used, true)[used := ZEROBLOCK]
  {
    hide Mark;
  }

  /** The data area is written through the bitmap that is still to come. */
  lemma StampedData(disk: seq<Block>, used: nat, b: nat, block: Block)
    requires |disk| == IMAGE.size && used <= BPB && InData(IMAGE, b)
    ensures Stamped(disk, used)[b] == disk[b]
    ensures Stamped(disk[b := block], used) == Stamped(disk, used)[b := block]
  {
    hide FirstBits;
  }

  class Image {
    var disk: seq<Block>
    var inodes: map<nat, Inode>
    var freeinode: nat
    var freeblock: nat
    ghost var owner: map<nat, Ref>

    /** A zeroed image with its super block. */
    constructor (super: Block)
      ensures Valid() && inodes == map[] && freeinode == 1 && freeblock == IMAGE.datastart
    {
      disk := seq(IMAGE.size, i => if i == 1 then super else ZEROBLOCK);
      inodes, freeinode, freeblock, owner := map[], 1, IMAGE.datastart, map[];
      new;
      hide Used, Stamped;
      forall b: nat | b < IMAGE.size
        ensures BitOk(IMAGE, Vol().disk, owner, {}, b)
      {
        StampedUsed(disk, freeblock, b);
      }
    }

    ghost function Vol(): Volume
      requires |disk| == IMAGE.size && freeblock <= BPB
      reads this
    {
      Volume(Stamped(disk, freeblock), inodes)
    }

    /** The blocks handed out so far are those with an owner, and the rest of the image is zero. */
    ghost predicate Sound()
      reads this
    {
      && |disk| == IMAGE.size && IMAGE.datastart <= freeblock <= IMAGE.size
      && (forall b: nat :: freeblock <= b < IMAGE.size ==> disk[b] == ZEROBLOCK)
      && Owned(IMAGE, Vol(), owner, {})
    }

    ghost predicate Valid()
      reads this
    {
      Sound() && FilesOk(Vol()) && forall n :: n in inodes ==> n < freeinode
    }

    /** ialloc: the next inode, empty. */
    method Ialloc() returns (inum: nat)
      requires Valid()
      modifies this`inodes, this`freeinode
      ensures Valid() && inum == old(freeinode) == freeinode - 1
      ensures inodes.Keys == old(inodes.Keys) + {inum} && Contents(Vol(), inum) == []
      ensures forall n :: n in old(inodes) ==>
        inodes[n] == old(inodes)[n] && Contents(Vol(), n) == old(Contents(Vol(), n))
    {
      hide PtrAt, Owned, Stamped, FilesOk, Contents;
      ghost var v := Vol();
      inum := freeinode;
      inodes := inodes[inum := Inode(seq(NDIRECT + 2, _ => 0), 0)];
      freeinode := freeinode + 1;
      Born(v, Vol(), owner, inum);
    }

    /** freeblock++. None is the exit of rsect or wsect on the first sector past the image. */
    method Fresh() returns (r: Option<nat>)
      requires Sound()
      modifies this`freeblock
      ensures r.None? ==> freeblock == old(freeblock) == IMAGE.size
      ensures r.Some? ==> && r.value == old(freeblock) < IMAGE.size && freeblock == r.value + 1
                          && !Used(IMAGE, old(Vol()).disk, r.value)
                          && Vol().disk == SetUsed(IMAGE, old(Vol()).disk, r.value, true)[r.value := ZEROBLOCK]
    {
      hide Owned, Used, SetUsed, Stamped;
      if freeblock == IMAGE.size {
        return None;
      }
      StampedUsed(disk, freeblock, freeblock);
      StampNext(disk, freeblock);
      r := Some(freeblock);
      freeblock := freeblock + 1;
    }

    /** Only blocks that were handed out have a place. */
    lemma Placed(r: Ref)
      requires Sound() && PtrAt(Vol(), r) != 0
      ensures IMAGE.datastart <= PtrAt(Vol(), r) < freeblock
    {
      hide PtrAt, Used, Stamped;
      OneOwner(IMAGE, Vol(), owner, {}, r, r);
      StampedUsed(disk, freeblock, PtrAt(Vol(), r));
    }

    /** The block at an inode's own slot, a fresh one if the slot is empty. */
    method RootBlock(ino: nat, i: nat, ghost place: Place, ghost path: set<Place>) returns (r: Option<nat>)
      requires Sound() && RefOk(Vol(), Ref(ino, place)) && place in path
      requires (place.Direct? || place.Ind? || place.Dbl?) && i == RootSlot(place)
      modifies this`inodes, this`freeblock, this`owner
      ensures Sound() && Grew(old(Vol()), old(owner), Vol(), owner, ino, path)
      ensures r.None? ==> freeblock == IMAGE.size
      ensures r.Some? ==> r.value == PtrAt(Vol(), Ref(ino, place)) != 0 && InData(IMAGE, r.value)
    {
      hide PtrAt, Used, SetUsed, Owned, Linked, Grew, Stamped;
      ghost var at, v, own := Ref(ino, place), Vol(), owner;
      SoundParts(IMAGE, v, owner, at);
      RootIs(v, at);
      GrewNothing(v, owner, ino, path);
      var addr := inodes[ino].addrs[i];
      if addr == 0 {
        r := Fresh();
        if r.None? {
          return;
        }
        AllocOwned(IMAGE, v, own, {}, r.value);
        ghost var v1 := Vol();
        LinkRoot(IMAGE, v1, own, {} + {r.value}, at, r.value);
        inodes := inodes[ino := inodes[ino].(addrs := inodes[ino].addrs[i := r.value])];
        assert Vol() == WithAddr(v1, ino, i, r.value);
        owner := owner[r.value := at];
        LinkDone(IMAGE, v, own, v1, Vol(), at, r.value, path);
      } else {
        r := Some(addr);
      }
    }

    /** The block at entry j of the table in sector t, a fresh one if the entry is empty. */
    method EntryBlock(ino: nat, t: nat, j: nat, ghost place: Place, ghost path: set<Place>) returns (r: Option<nat>)
      requires Sound() && RefOk(Vol(), Ref(ino, place)) && place in path
      requires (place.IndEntry? || place.DblTable? || place.DblEntry?) && j == TableSlot(place)
      requires t == PtrAt(Vol(), Ref(ino, TablePlace(place))) && InData(IMAGE, t)
      modifies this`disk, this`freeblock, this`owner
      ensures Sound() && Grew(old(Vol()), old(owner), Vol(), owner, ino, path)
      ensures r.None? ==> freeblock == IMAGE.size
      ensures r.Some? ==> r.value == PtrAt(Vol(), Ref(ino, place)) != 0 && InData(IMAGE, r.value)
    {
      hide PtrAt, Used, SetUsed, Owned, Linked, Grew, Stamped;
      ghost var at, v, own := Ref(ino, place), Vol(), owner;
      SoundParts(IMAGE, v, owner, at);
      PtrIsEntry(v, at);
      TableOwned(IMAGE, v, owner, Ref(ino, TablePlace(place)));
      GrewNothing(v, owner, ino, path);
      StampedData(disk, freeblock, t, ZEROBLOCK);
      Placed(Ref(ino, TablePlace(place)));
      var addr := GetWord(disk[t].bytes, j);
      if addr == 0 {
        r := Fresh();
        if r.None? {
          return;
        }
        AllocOwned(IMAGE, v, own, {}, r.value);
        ghost var v1 := Vol();
        LinkEntry(IMAGE, v1, own, {} + {r.value}, at, t, r.value);
        StampedData(disk, freeblock, t, Block(PutWord(disk[t].bytes, j, r.value)));
        disk := disk[t := Block(PutWord(disk[t].bytes, j, r.value))];
        assert Vol() == WithEntry(v1, t, j, r.value);
        owner := owner[r.value := at];
        LinkDone(IMAGE, v, own, v1, Vol(), at, r.value, path);
      } else {
        r := Some(addr);
      }
    }

    /** The sector of block fbn of a file, with the tables above it. None is mkfs giving up. */
    method FileBlock(ino: nat, fbn: nat) returns (r: Option<nat>)
      requires Sound() && ino in inodes && fbn < MAXFILE
      modifies this`disk, this`inodes, this`freeblock, this`owner
      ensures Sound() && Grew(old(Vol()), old(owner), Vol(), owner, ino, Path(fbn))
      ensures r.None? ==> freeblock == IMAGE.size
      ensures r.Some? ==> r.value == PtrAt(Vol(), Ref(ino, DataPlace(fbn))) != 0 && InData(IMAGE, r.value)
    {
      hide PtrAt, Owned, Grew, Stamped;
      ghost var v, own := Vol(), owner;
      if fbn < NDIRECT {
        r := RootBlock(ino, fbn, Direct(fbn), Path(fbn));
      } else if fbn < NDIRECT + NINDIRECT {
        r := RootBlock(ino, NDIRECT, Ind, Path(fbn));
        if r.Some? {
          ghost var v1, own1 := Vol(), owner;
          GrewKeys(v, own, v1, own1, ino, Path(fbn));
          r := EntryBlock(ino, r.value, fbn - NDIRECT, IndEntry(fbn - NDIRECT), Path(fbn));
          GrewChain(v, own, v1, own1, Vol(), owner, ino, Path(fbn));
        }
      } else {
        r := RootBlock(ino, NDIRECT + 1, Dbl, Path(fbn));
        if r.Some? {
          ghost var v1, own1 := Vol(), owner;
          GrewKeys(v, own, v1, own1, ino, Path(fbn));
          r := DoubleBlock(ino, fbn, fbn - NDIRECT - NINDIRECT, r.value);
          GrewChain(v, own, v1, own1, Vol(), owner, ino, Path(fbn));
        }
      }
    }

    method DoubleBlock(ino: nat, ghost fbn: nat, dfbn: nat, t: nat) returns (r: Option<nat>)
      requires Sound() && ino in inodes && fbn < MAXFILE && fbn == NDIRECT + NINDIRECT + dfbn
      requires t == PtrAt(Vol(), Ref(ino, Dbl)) && InData(IMAGE, t)
      modifies this`disk, this`freeblock, this`owner
      ensures Sound() && Grew(old(Vol()), old(owner), Vol(), owner, ino, Path(fbn))
      ensures r.None? ==> freeblock == IMAGE.size
      ensures r.Some? ==> r.value == PtrAt(Vol(), Ref(ino, DataPlace(fbn))) != 0 && InData(IMAGE, r.value)
    {
      hide PtrAt, Owned, Grew, Stamped;
      ghost var v, own := Vol(), owner;
      r := EntryBlock(ino, t, dfbn / NINDIRECT, DblTable(dfbn / NINDIRECT), Path(fbn));
      if r.Some? {
        ghost var v1, own1 := Vol(), owner;
        GrewKeys(v, own, v1, own1, ino, Path(fbn));
        r := EntryBlock(ino, r.value, dfbn % NINDIRECT, DblEntry(dfbn / NINDIRECT, dfbn % NINDIRECT), Path(fbn));
        GrewChain(v, own, v1, own1, Vol(), owner, ino, Path(fbn));
      }
    }

    /** One turn of iappend's loop: m bytes into the block that holds offset hi. */
    method AppendChunk(ino: nat, data: seq<Byte>, lo: nat, hi: nat, m: nat, ghost v0: Volume) returns (ok: bool)
      requires Sound() && ino in inodes && Wrote(v0, Vol(), ino, lo, hi, data)
      requires lo <= hi && 0 < m <= BSIZE - hi % BSIZE && hi + m <= lo + |data| && hi + m <= MAXSIZE
      modifies this`disk, this`inodes, this`freeblock, this`owner
      ensures Sound() && (if ok then Wrote(v0, Vol(), ino, lo, hi + m, data) else freeblock == IMAGE.size)
    {
      hide PtrAt, Owned, Grew, Wrote, ByteAt, Stamped;
      ghost var v, own := Vol(), owner;
      var x := FileBlock(ino, hi / BSIZE);
      ghost var v1 := Vol();
      WroteGrew(IMAGE, v0, v, own, v1, owner, ino, Path(hi / BSIZE), lo, hi, data);
      if x.None? {
        return false;
      }
      Placed(Ref(ino, DataPlace(hi / BSIZE)));
      WroteStored(IMAGE, v0, v1, owner, ino, lo, hi, data, m);
      StoredOwned(IMAGE, v1, owner, ino, hi / BSIZE, hi % BSIZE, data[hi - lo..hi - lo + m]);
      var buf := Block(Splice(disk[x.value].bytes, hi % BSIZE, data[hi - lo..hi - lo + m]));
      StampedData(disk, freeblock, x.value, buf);
      disk := disk[x.value := buf];
      assert Vol() == Stored(v1, x.value, hi % BSIZE, data[hi - lo..hi - lo + m]);
      ok := true;
    }

    /**
     iappend: data is put after the bytes the file has, and no other file changes.
     false is mkfs giving up, with no image: it has no blocks left, or the file is too long.
     */
    method Iappend(ino: nat, data: seq<Byte>) returns (ok: bool)
      requires Valid() && ino in inodes
      modifies this`disk, this`inodes, this`freeblock, this`owner
      ensures ok ==> Valid() && inodes.Keys == old(inodes.Keys)
      ensures ok ==> Contents(Vol(), ino) == old(Contents(Vol(), ino)) + data
      ensures ok ==> forall n :: n in inodes && n != ino ==> Contents(Vol(), n) == old(Contents(Vol(), n))
      ensures !ok ==> freeblock == IMAGE.size || old(inodes[ino].size) + |data| > MAXSIZE
    {
      hide PtrAt, Owned, Wrote, Rewritten, Stamped, FilesOk, Contents, ByteAt;
      ghost var v0 := Vol();
      var off := inodes[ino].size;
      SizesAre(v0, ino);
      WroteNothing(v0, ino, off, data);
      var done := 0;
      while done < |data|
        invariant 0 <= done <= |data| && Sound() && Wrote(v0, Vol(), ino, off, off + done, data)
        invariant off + done <= MAXSIZE
      {
        WroteKeys(v0, Vol(), ino, off, off + done, data);
        var at := off + done;
        if at / BSIZE >= MAXFILE {
          return false;
        }
        var m := if |data| - done < BSIZE - at % BSIZE then |data| - done else BSIZE - at % BSIZE;
        ok := AppendChunk(ino, data, off, at, m, v0);
        if !ok {
          return;
        }
        done := done + m;
      }
      WroteKeys(v0, Vol(), ino, off, off + done, data);
      WroteContents(v0, Vol(), ino, off, data);
      ghost var v := Vol();
      SizeOwned(IMAGE, v, owner, ino, off + |data|);
      inodes := inodes[ino := inodes[ino].(size := off + |data|)];
      assert Vol() == WithSize(v, ino, off + |data|);
      Appended(v0, Vol(), ino, data);
      ok := true;
    }

    /** balloc: the bitmap, once every file is in place. None is its assertion on a full image. */
    method Balloc() returns (r: Option<FileSystem>)
      requires Valid()
      modifies this`disk
      ensures r.Some? <==> freeblock < IMAGE.size
      ensures r.Some? ==> r.value.Sound() && FilesOk(r.value.Vol()) && r.value.Vol() == old(Vol()) && r.value.g == IMAGE
      ensures r.Some? ==> fresh(r.value)
    {
      hide PtrAt, Owned, FilesOk, Marked, FirstBits;
      if freeblock >= BPB {
        return None;
      }
      var buf := FreeMap(freeblock);
      disk := disk[IMAGE.bmapstart := buf];
      var fs := new FileSystem.Mount(IMAGE, disk, inodes, owner);
      r := Some(fs);
    }
  }

  /** The bitmap block with the first bits set, and no others. */
  method FreeMap(used: nat) returns (buf: Block)
    requires used <= BPB
    ensures buf == FirstBits(used) && forall c: nat :: c < BPB ==> (Marked(buf, c) <==> c < used)
  {
    hide Marked;
    buf := ZEROBLOCK;
    var i := 0;
    while i < used
      invariant 0 <= i <= used && buf == FirstBits(i)
    {
      buf := Block(buf.bytes[i / 8 := ByteWithBit(buf.bytes[i / 8], i % 8, true)]);
      i := i + 1;
    }
    forall c: nat | c < BPB
      ensures Marked(buf, c) <==> c < used
    {
      FirstBitsAre(used, c);
    }
  }

  /** What iappend put into a file the kernel reads from it, whatever else mkfs wrote. */
  method AppendThenRead(image: Image, ino: nat, data: seq<Byte>) returns (made: bool, back: Option<seq<Byte>>)
    requires image.Valid() && ino in image.inodes
    modifies image`disk, image`inodes, image`freeblock, image`owner
    ensures made ==> back == Some(data)
    ensures !made ==> image.freeblock == IMAGE.size || old(image.inodes[ino].size) + |data| > MAXSIZE
  {
    hide PtrAt, Owned, FilesOk, Contents, Stamped;
    ghost var v0 := image.Vol();
    SizesAre(v0, ino);
    var off := image.inodes[ino].size;
    back := None;
    made := image.Iappend(ino, data);
    if made {
      SizesAre(image.Vol(), ino);
      var fs := image.Balloc();
      if fs.None? {
        return false, None;
      }
      ghost var s := Contents(fs.value.Vol(), ino);
      back := Readi(fs.value, ino, off, |data|);
      assert s[off..off + |data|] == data;
    }
  }

  /** An empty inode has no place for any block. */
  lemma Born(v: Volume, v': Volume, owner: map<nat, Ref>, inum: nat)
    requires Owned(IMAGE, v, owner, {}) && FilesOk(v) && inum !in v.inodes
    requires v' == v.(inodes := v.inodes[inum := Inode(seq(NDIRECT + 2, _ => 0), 0)])
    ensures Owned(IMAGE, v', owner, {}) && FilesOk(v') && Contents(v', inum) == []
    ensures forall n :: n in v.inodes ==> Contents(v', n) == Contents(v, n)
  {
    hide PtrAt, Used, Contents, BitOk;
    forall r
      ensures PtrAt(v', r) == PtrAt(v, r)
    {
      BornPtr(v, v', inum, r);
    }
    forall b | b in owner
      ensures OwnedOk(IMAGE, v', owner, b)
    {
      assert OwnedOk(IMAGE, v, owner, b);
    }
    forall r
      ensures PointsOk(v', owner, r)
    {
      assert PointsOk(v, owner, r);
    }
    forall b: nat | b < IMAGE.size
      ensures BitOk(IMAGE, v'.disk, owner, {}, b)
    {
      assert BitOk(IMAGE, v.disk, owner, {}, b);
    }
    forall n | n in v.inodes
      ensures Contents(v', n) == Contents(v, n)
    {
      assert Filled(v, n, v.inodes[n].size);
      assert |Contents(v', n)| == |Contents(v, n)|;
    }
    forall n | n in v'.inodes
      ensures Filled(v', n, v'.inodes[n].size)
    {
      forall bn: nat | bn < MAXFILE && bn * BSIZE < v'.inodes[n].size
        ensures BlockOf(v', n, bn) != 0
      {
        assert Filled(v, n, v.inodes[n].size) && BlockOf(v, n, bn) != 0;
      }
    }
  }

  lemma BornPtr(v: Volume, v': Volume, inum: nat, r: Ref)
    requires inum !in v.inodes && v' == v.(inodes := v.inodes[inum := Inode(seq(NDIRECT + 2, _ => 0), 0)])
    ensures PtrAt(v', r) == PtrAt(v, r)
  {
  }

  lemma Appended(v0: Volume, v: Volume, ino: nat, data: seq<Byte>)
    requires ino in v0.inodes && Rewritten(v0, v, ino, v0.inodes[ino].size, data)
    ensures FilesOk(v) && v.inodes.Keys == v0.inodes.Keys && Contents(v, ino) == Contents(v0, ino) + data
    ensures forall n :: n in v0.inodes && n != ino ==> Contents(v, n) == Contents(v0, n)
  {
    hide PtrAt, ByteAt, Contents;
    SizesAre(v0, ino);
  }
}
