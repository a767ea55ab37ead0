/**
 kern/fs.c on its cached disk: balloc and bfree over the on-disk bitmap, and bmap
 over an inode's block tree. Every operation keeps each used block owned by one
 place.
 */
module Fs {
  import opened Bytes
  import opened Bitmap
  import opened FsBlocks
  import opened Basics

  /** Where the number of the bn-th data block of a file is stored. */
  function DataPlace(bn: nat): (p: Place)
    requires bn < MAXFILE
    ensures PlaceOk(p) && !IsTable(p)
  {
    if bn < NDIRECT then Direct(bn)
    else if bn < NDIRECT + NINDIRECT then IndEntry(bn - NDIRECT)
    else DblEntry((bn - NDIRECT - NINDIRECT) / NINDIRECT, (bn - NDIRECT - NINDIRECT) % NINDIRECT)
  }

  lemma DataPlaceInjective(a: nat, b: nat)
    requires a < MAXFILE && b < MAXFILE && DataPlace(a) == DataPlace(b)
    ensures a == b
  {
  }

  /** The pointer at DataPlace(bn) is the bn-th of the file's block numbers. */
  lemma BlockInOrder(v: Volume, ino: nat, bn: nat)
    requires bn < MAXFILE
    ensures FileBlocks(v, ino)[bn] == PtrAt(v, Ref(ino, DataPlace(bn)))
  {
    hide Entry, Listed;
    if ino in v.inodes && |v.inodes[ino].addrs| == NDIRECT + 2 && bn >= NDIRECT + NINDIRECT {
      var n := bn - NDIRECT - NINDIRECT;
      ListedAt(v, TableWords(v, v.inodes[ino].addrs[NDIRECT + 1]), n / NINDIRECT, n % NINDIRECT);
    }
  }

  /** The data place and the tables above it. */
  function Path(bn: nat): set<Place>
    requires bn < MAXFILE
  {
    match DataPlace(bn)
    case Direct(i) => {Direct(i)}
    case IndEntry(j) => {Ind, IndEntry(j)}
    case DblEntry(j, k) => {Dbl, DblTable(j), DblEntry(j, k)}
  }

  ghost predicate Full(g: Geometry, disk: seq<Block>)
    requires GeometryOk(g) && |disk| == g.size
  {
    forall b: nat :: b < g.size ==> Used(g, disk, b)
  }

  // ---------------------------------------------------- balloc and bfree

  lemma AllocOwned(g: Geometry, v: Volume, owner: map<nat, Ref>, held: set<nat>, b: nat)
    requires Owned(g, v, owner, held) && b < g.size && !Used(g, v.disk, b)
    ensures InData(g, b) && b !in owner && b !in held
    ensures var v' := v.(disk := SetUsed(g, v.disk, b, true)[b := ZEROBLOCK]);
            Owned(g, v', owner, held + {b}) && forall r :: PtrAt(v', r) == PtrAt(v, r)
  {
    hide PtrAt, Used, SetUsed;
    var d1 := SetUsed(g, v.disk, b, true);
    var v' := v.(disk := d1[b := ZEROBLOCK]);
    assert BitOk(g, v.disk, owner, held, b);
    forall c | c in owner
      ensures InData(g, c)
    {
      assert OwnedOk(g, v, owner, c);
    }
    forall r
      ensures PtrAt(v', r) == PtrAt(v, r)
    {
      PtrKept(g, v, v', owner, held, r);
    }
    forall c: nat | c < g.size
      ensures BitOk(g, v'.disk, owner, held + {b}, c)
    {
      assert BitOk(g, v.disk, owner, held, c);
      UsedFrame(g, d1, v'.disk, c);
    }
    OwnedAgain(g, v, v', owner, held, held + {b});
  }

  lemma FreeOwned(g: Geometry, v: Volume, owner: map<nat, Ref>, held: set<nat>, b: nat)
    requires Owned(g, v, owner, held) && b in held
    ensures Used(g, v.disk, b)
    ensures var v' := v.(disk := SetUsed(g, v.disk, b, false));
            Owned(g, v', owner, held - {b}) && forall r :: PtrAt(v', r) == PtrAt(v, r)
  {
    hide PtrAt, Used, SetUsed;
    var v' := v.(disk := SetUsed(g, v.disk, b, false));
    assert BitOk(g, v.disk, owner, held, b);
    forall c | c in owner
      ensures InData(g, c)
    {
      assert OwnedOk(g, v, owner, c);
    }
    forall r
      ensures PtrAt(v', r) == PtrAt(v, r)
    {
      PtrKept(g, v, v', owner, held, r);
    }
    forall c: nat | c < g.size
      ensures BitOk(g, v'.disk, owner, held - {b}, c)
    {
      assert BitOk(g, v.disk, owner, held, c);
    }
    OwnedAgain(g, v, v', owner, held, held - {b});
  }

  /** Ownership only looks at pointers and bits. */
  lemma OwnedAgain(g: Geometry, v: Volume, v': Volume, owner: map<nat, Ref>, held: set<nat>, held': set<nat>)
    requires Owned(g, v, owner, held) && |v'.disk| == g.size && InodesOk(v') && v'.inodes.Keys == v.inodes.Keys
    requires forall r :: PtrAt(v', r) == PtrAt(v, r)
    requires forall b :: b in held' ==> InData(g, b) && b !in owner
    requires forall b: nat :: b < g.size ==> BitOk(g, v'.disk, owner, held', b)
    ensures Owned(g, v', owner, held')
  {
    hide PtrAt, BitOk;
    forall b | b in owner
      ensures OwnedOk(g, v', owner, b)
    {
      assert OwnedOk(g, v, owner, b);
    }
    forall r
      ensures PointsOk(v', owner, r)
    {
      assert PointsOk(v, owner, r);
    }
  }

  // ---------------------------------------------------------------- bmap

  /** What allocating blocks for the places in path of one inode may change. */
  ghost predicate Grew(v: Volume, owner: map<nat, Ref>, v': Volume, owner': map<nat, Ref>, ino: nat, path: set<Place>) {
    && v'.inodes.Keys == v.inodes.Keys && |v'.disk| == |v.disk|
    && (forall n :: n in v.inodes ==> v'.inodes[n].size == v.inodes[n].size)
    && (forall r :: PtrAt(v, r) != 0 || r.ino != ino || r.place !in path ==> PtrAt(v', r) == PtrAt(v, r))
    && (forall b :: b in owner ==> b in owner' && owner'[b] == owner[b])
    && (forall b :: b in owner && !IsTable(owner[b].place) && b < |v.disk| ==> v'.disk[b] == v.disk[b])
    && (forall b :: b in owner' && b !in owner && !IsTable(owner'[b].place) && b < |v.disk| ==> v'.disk[b] == ZEROBLOCK)
  }

  lemma GrewNothing(v: Volume, owner: map<nat, Ref>, ino: nat, path: set<Place>)
    ensures Grew(v, owner, v, owner, ino, path)
  {
    hide PtrAt;
  }

  lemma GrewChain(v: Volume, owner: map<nat, Ref>, v1: Volume, owner1: map<nat, Ref>, v2: Volume, owner2: map<nat, Ref>,
                  ino: nat, path: set<Place>)
    requires Grew(v, owner, v1, owner1, ino, path) && Grew(v1, owner1, v2, owner2, ino, path)
    ensures Grew(v, owner, v2, owner2, ino, path)
  {
    hide PtrAt;
  }

  /** One block allocated and linked at a place of the path. */
  lemma GrewLink(g: Geometry, v: Volume, owner: map<nat, Ref>, v1: Volume, v2: Volume, at: Ref, b: nat,
                 path: set<Place>)
    requires Owned(g, v, owner, {}) && b < g.size && !Used(g, v.disk, b) && b !in owner
    requires v1 == v.(disk := SetUsed(g, v.disk, b, true)[b := ZEROBLOCK])
    requires (forall r :: PtrAt(v1, r) == PtrAt(v, r)) && Linked(v1, v2, at, b) && PtrAt(v, at) == 0 && at.place in path
    requires v2.inodes.Keys == v.inodes.Keys && |v2.disk| == g.size
    requires forall n :: n in v.inodes ==> v2.inodes[n].size == v.inodes[n].size
    requires forall c: nat :: c < g.size && v2.disk[c] != v1.disk[c] ==> c in owner && IsTable(owner[c].place)
    ensures Grew(v, owner, v2, owner[b := at], at.ino, path)
  {
    hide PtrAt, Used, SetUsed, BitOk, PointsOk;
    forall c | c in owner
      ensures InData(g, c)
    {
      assert OwnedOk(g, v, owner, c);
    }
  }

  class FileSystem {
    const g: Geometry
    var disk: seq<Block>
    var inodes: map<nat, Inode>
    ghost var owner: map<nat, Ref>

    /** A disk on which just the blocks below the data area are in use, and no inode has a block. */
    constructor (g: Geometry, disk: seq<Block>, inodes: map<nat, Inode>)
      requires GeometryOk(g) && |disk| == g.size
      requires forall b: nat :: b < g.size ==> (Used(g, disk, b) <==> b < g.datastart)
      requires forall n :: n in inodes ==> inodes[n].addrs == seq(NDIRECT + 2, _ => 0)
      ensures this.g == g && Vol() == Volume(disk, inodes) && owner == map[] && Sound()
    {
      this.g, this.disk, this.inodes, owner := g, disk, inodes, map[];
      new;
      hide Used, GeometryOk;
    }

    /** A disk made by mkfs, as it is found at boot. */
    constructor Mount(g: Geometry, disk: seq<Block>, inodes: map<nat, Inode>, ghost owner: map<nat, Ref>)
      requires Owned(g, Volume(disk, inodes), owner, {})
      ensures this.g == g && Vol() == Volume(disk, inodes) && this.owner == owner && Sound()
    {
      this.g, this.disk, this.inodes, this.owner := g, disk, inodes, owner;
    }

    function Vol(): Volume
      reads this
    {
      Volume(disk, inodes)
    }

    ghost predicate Sound()
      reads this
    {
      Owned(g, Vol(), owner, {})
    }

    /** balloc's inner loop: the first free block of one bitmap block. */
    method FirstFree(b: nat) returns (r: Option<nat>)
      requires GeometryOk(g) && |disk| == g.size && b < g.size && b % BPB == 0
      ensures r.None? ==> forall c: nat :: b <= c < b + BPB && c < g.size ==> Used(g, disk, c)
      ensures r.Some? ==> && b <= r.value < b + BPB && r.value < g.size && !Used(g, disk, r.value)
                          && forall c: nat :: b <= c < r.value ==> Used(g, disk, c)
    {
      var bp := disk[g.bmapstart + b / BPB];
      var bi := 0;
      while bi < BPB && b + bi < g.size
        invariant 0 <= bi <= BPB
        invariant forall c: nat :: b <= c < b + bi && c < g.size ==> Used(g, disk, c)
      {
        assert (b + bi) / BPB == b / BPB && (b + bi) % BPB == bi;
        if !Marked(bp, bi) {
          return Some(b + bi);
        }
        bi := bi + 1;
      }
      return None;
    }

    /** balloc: the first free block, marked and zeroed. None is its panic. */
    method Balloc() returns (r: Option<nat>)
      requires GeometryOk(g) && |disk| == g.size
      modifies this`disk
      ensures r.None? ==> disk == old(disk) && Full(g, disk)
      ensures r.Some? ==> && r.value < g.size && !Used(g, old(disk), r.value)
                          && (forall c: nat :: c < r.value ==> Used(g, old(disk), c))
                          && disk == SetUsed(g, old(disk), r.value, true)[r.value := ZEROBLOCK]
    {
      hide Used, SetUsed;
      var b := 0;
      while b < g.size
        invariant 0 <= b && b % BPB == 0 && disk == old(disk)
        invariant forall c: nat :: c < b && c < g.size ==> Used(g, disk, c)
      {
        r := FirstFree(b);
        if r.Some? {
          disk := SetUsed(g, disk, r.value, true);
          disk := disk[r.value := ZEROBLOCK];
          return;
        }
        b := b + BPB;
      }
      r := None;
    }

    /** bfree. Its panic is ok == false. */
    method Bfree(b: nat) returns (ok: bool)
      requires GeometryOk(g) && |disk| == g.size && b < g.size
      modifies this`disk
      ensures ok == Used(g, old(disk), b)
      ensures disk == if ok then SetUsed(g, old(disk), b, false) else old(disk)
    {
      var n := g.bmapstart + b / BPB;
      ok := Marked(disk[n], b % BPB);
      if ok {
        disk := disk[n := Mark(disk[n], b % BPB, false)];
      }
    }

    /** The block at an inode's own slot, allocated if the slot is empty. None is balloc's panic. */
    method RootBlock(ino: nat, i: nat, ghost place: Place, ghost path: set<Place>) returns (r: Option<nat>)
      requires Sound() && RefOk(Vol(), Ref(ino, place)) && place in path
      requires (place.Direct? || place.Ind? || place.Dbl?) && i == RootSlot(place)
      modifies this`disk, this`inodes, this`owner
      ensures Sound() && Grew(old(Vol()), old(owner), Vol(), owner, ino, path)
      ensures r.None? ==> Full(g, disk)
      ensures r.Some? ==> r.value == PtrAt(Vol(), Ref(ino, place)) != 0 && InData(g, r.value)
      ensures PtrAt(old(Vol()), Ref(ino, place)) != 0 ==> r.Some? && Vol() == old(Vol()) && owner == old(owner)
    {
      hide PtrAt, Used, SetUsed, Owned, Linked, Grew, Full;
      ghost var at, v, own := Ref(ino, place), Vol(), owner;
      SoundParts(g, v, owner, at);
      RootIs(v, at);
      GrewNothing(v, owner, ino, path);
      var addr := inodes[ino].addrs[i];
      if addr == 0 {
        r := Balloc();
        if r.None? {
          return;
        }
        AllocOwned(g, v, own, {}, r.value);
        ghost var v1 := Vol();
        LinkRoot(g, v1, own, {} + {r.value}, at, r.value);
        inodes := inodes[ino := inodes[ino].(addrs := inodes[ino].addrs[i := r.value])];
        assert Vol() == WithAddr(v1, ino, i, r.value);
        owner := owner[r.value := at];
        LinkDone(g, v, own, v1, Vol(), at, r.value, path);
      } else {
        r := Some(addr);
      }
    }

    /** The block at entry j of the table in block t, allocated if the entry is empty. None is balloc's panic. */
    method EntryBlock(ino: nat, t: nat, j: nat, ghost place: Place, ghost path: set<Place>) returns (r: Option<nat>)
      requires Sound() && RefOk(Vol(), Ref(ino, place)) && place in path
      requires (place.IndEntry? || place.DblTable? || place.DblEntry?) && j == TableSlot(place)
      requires t == PtrAt(Vol(), Ref(ino, TablePlace(place))) && 0 < t < g.size
      modifies this`disk, this`inodes, this`owner
      ensures Sound() && Grew(old(Vol()), old(owner), Vol(), owner, ino, path)
      ensures r.None? ==> Full(g, disk)
      ensures r.Some? ==> r.value == PtrAt(Vol(), Ref(ino, place)) != 0 && InData(g, r.value)
      ensures PtrAt(old(Vol()), Ref(ino, place)) != 0 ==> r.Some? && Vol() == old(Vol()) && owner == old(owner)
    {
      hide PtrAt, Used, SetUsed, Owned, Linked, Grew, Full;
      ghost var at, v, own := Ref(ino, place), Vol(), owner;
      SoundParts(g, v, owner, at);
      PtrIsEntry(v, at);
      TableOwned(g, v, owner, Ref(ino, TablePlace(place)));
      GrewNothing(v, owner, ino, path);
      var addr := GetWord(disk[t].bytes, j);
      if addr == 0 {
        r := Balloc();
        if r.None? {
          return;
        }
        AllocOwned(g, v, own, {}, r.value);
        ghost var v1 := Vol();
        LinkEntry(g, v1, own, {} + {r.value}, at, t, r.value);
        disk := disk[t := Block(PutWord(disk[t].bytes, j, r.value))];
        assert Vol() == WithEntry(v1, t, j, r.value);
        owner := owner[r.value := at];
        LinkDone(g, v, own, v1, Vol(), at, r.value, path);
      } else {
        r := Some(addr);
      }
    }

    /**
     bmap: the number of the bn-th block of a file, allocating it and the tables
     above it where missing. None is a panic: bn out of range, or no free block.
     */
    method Bmap(ino: nat, bn: nat) returns (r: Option<nat>)
      requires Sound() && ino in inodes
      modifies this`disk, this`inodes, this`owner
      ensures Sound()
      ensures r.None? ==> bn >= MAXFILE || Full(g, disk)
      ensures r.Some? ==> bn < MAXFILE && r.value == PtrAt(Vol(), Ref(ino, DataPlace(bn))) != 0 && InData(g, r.value)
      ensures r.Some? ==> r.value == FileBlocks(Vol(), ino)[bn]
      ensures if bn < MAXFILE then Grew(old(Vol()), old(owner), Vol(), owner, ino, Path(bn))
              else Vol() == old(Vol()) && owner == old(owner)
      ensures bn < MAXFILE && PtrAt(old(Vol()), Ref(ino, DataPlace(bn))) != 0 ==>
          r.Some? && Vol() == old(Vol()) && owner == old(owner)
    {
      hide PtrAt, Sound, Grew, Full, FileBlocks;
      ghost var v, own := Vol(), owner;
      Known();
      if bn < NDIRECT {
        r := RootBlock(ino, bn, Direct(bn), Path(bn));
        BlockInOrder(Vol(), ino, bn);
        return;
      }
      var n := bn - NDIRECT;
      if n < NINDIRECT {
        TablesThere(v, ino, bn);
        r := RootBlock(ino, NDIRECT, Ind, Path(bn));
        if r.Some? {
          ghost var v1, own1 := Vol(), owner;
          Known();
          GrewKeys(v, own, v1, own1, ino, Path(bn));
          r := EntryBlock(ino, r.value, n, IndEntry(n), Path(bn));
          GrewChain(v, own, v1, own1, Vol(), owner, ino, Path(bn));
          BlockInOrder(Vol(), ino, bn);
        }
        return;
      }
      n := n - NINDIRECT;
      if n < NINDIRECT * NINDIRECT {
        TablesThere(v, ino, bn);
        r := RootBlock(ino, NDIRECT + 1, Dbl, Path(bn));
        if r.Some? {
          ghost var v1, own1 := Vol(), owner;
          GrewKeys(v, own, v1, own1, ino, Path(bn));
          r := DoubleEntry(ino, bn, n, r.value);
          GrewChain(v, own, v1, own1, Vol(), owner, ino, Path(bn));
          BlockInOrder(Vol(), ino, bn);
        }
        return;
      }
      r := None;
    }

    /** The two lower levels of a double-indirect lookup. */
    method DoubleEntry(ino: nat, ghost bn: nat, n: nat, t: nat) returns (r: Option<nat>)
      requires Sound() && ino in inodes && bn < MAXFILE && bn == NDIRECT + NINDIRECT + n
      requires t == PtrAt(Vol(), Ref(ino, Dbl)) && InData(g, t) && t != 0
      modifies this`disk, this`inodes, this`owner
      ensures Sound() && Grew(old(Vol()), old(owner), Vol(), owner, ino, Path(bn))
      ensures r.None? ==> Full(g, disk)
      ensures r.Some? ==> r.value == PtrAt(Vol(), Ref(ino, DataPlace(bn))) != 0 && InData(g, r.value)
      ensures r.Some? ==> r.value == FileBlocks(Vol(), ino)[bn]
      ensures PtrAt(old(Vol()), Ref(ino, DataPlace(bn))) != 0 ==> r.Some? && Vol() == old(Vol()) && owner == old(owner)
    {
      hide PtrAt, Sound, Grew, Full, FileBlocks;
      ghost var v, own := Vol(), owner;
      Known();
      TablesThere(v, ino, bn);
      r := EntryBlock(ino, t, n / NINDIRECT, DblTable(n / NINDIRECT), Path(bn));
      if r.Some? {
        ghost var v1, own1 := Vol(), owner;
        Known();
        GrewKeys(v, own, v1, own1, ino, Path(bn));
        r := EntryBlock(ino, r.value, n % NINDIRECT, DblEntry(n / NINDIRECT, n % NINDIRECT), Path(bn));
        GrewChain(v, own, v1, own1, Vol(), owner, ino, Path(bn));
        BlockInOrder(Vol(), ino, bn);
      }
    }

    lemma Known()
      requires Sound()
      ensures GeometryOk(g) && |disk| == g.size && InodesOk(Vol())
    {
    }
  }

  /** A data block is only reachable through its tables. */
  lemma TablesThere(v: Volume, ino: nat, bn: nat)
    requires bn < MAXFILE
    ensures PtrAt(v, Ref(ino, DataPlace(bn))) != 0 ==>
              match DataPlace(bn)
              case IndEntry(j) => PtrAt(v, Ref(ino, Ind)) != 0
              case DblEntry(j, k) => PtrAt(v, Ref(ino, Dbl)) != 0 && PtrAt(v, Ref(ino, DblTable(j))) != 0
              case _ => true
  {
  }

  lemma GrewKeys(v: Volume, owner: map<nat, Ref>, v': Volume, owner': map<nat, Ref>, ino: nat, path: set<Place>)
    requires Grew(v, owner, v', owner', ino, path)
    ensures v'.inodes.Keys == v.inodes.Keys
  {
  }

  lemma SoundParts(g: Geometry, v: Volume, owner: map<nat, Ref>, r: Ref)
    requires Owned(g, v, owner, {})
    ensures GeometryOk(g) && |v.disk| == g.size && InodesOk(v)
    ensures PtrAt(v, r) != 0 ==> InData(g, PtrAt(v, r))
  {
    hide PtrAt, Used;
    assert PointsOk(v, owner, r);
    if PtrAt(v, r) != 0 {
      assert OwnedOk(g, v, owner, PtrAt(v, r));
    }
  }

  lemma RootIs(v: Volume, r: Ref)
    requires RefOk(v, r) && InodesOk(v) && (r.place.Direct? || r.place.Ind? || r.place.Dbl?)
    ensures PtrAt(v, r) == v.inodes[r.ino].addrs[RootSlot(r.place)]
  {
  }

  lemma TableOwned(g: Geometry, v: Volume, owner: map<nat, Ref>, r: Ref)
    requires Owned(g, v, owner, {}) && PtrAt(v, r) != 0 && IsTable(r.place)
    ensures var t := PtrAt(v, r); t in owner && IsTable(owner[t].place) && InData(g, t)
  {
    hide PtrAt, Used;
    assert PointsOk(v, owner, r);
    assert OwnedOk(g, v, owner, PtrAt(v, r));
  }

  /** Allocating b and linking it at an empty place. */
  lemma LinkDone(g: Geometry, v: Volume, owner: map<nat, Ref>, v1: Volume, v2: Volume, at: Ref, b: nat,
                 path: set<Place>)
    requires Owned(g, v, owner, {}) && b < g.size && !Used(g, v.disk, b) && RefOk(v, at) && PtrAt(v, at) == 0
    requires at.place in path
    requires v1 == v.(disk := SetUsed(g, v.disk, b, true)[b := ZEROBLOCK]) && Linked(v1, v2, at, b)
    requires v2.inodes.Keys == v.inodes.Keys && InodesOk(v2) && |v2.disk| == g.size
    requires forall n :: n in v.inodes ==> v2.inodes[n].size == v.inodes[n].size
    requires forall c: nat :: c < g.size && v2.disk[c] != v1.disk[c] ==> c in owner && IsTable(owner[c].place)
    ensures Owned(g, v2, owner[b := at], {}) && Grew(v, owner, v2, owner[b := at], at.ino, path)
    ensures PtrAt(v2, at) == b && b != 0 && InData(g, b)
  {
    hide PtrAt, Used, SetUsed, BitOk, PointsOk, Grew;
    AllocOwned(g, v, owner, {}, b);
    GrewLink(g, v, owner, v1, v2, at, b, path);
    forall c: nat | c < g.datastart
      ensures v2.disk[c] == v1.disk[c]
    {
      assert c in owner ==> OwnedOk(g, v, owner, c);
    }
    LinkOwned(g, v1, v2, owner, {} + {b}, at, b);
    assert {} + {b} - {b} == {};
  }
}
