/**
 itrunc (kern/fs.c): it frees a file's blocks while the pointers to them are still
 in place, so the proof follows how far it has got through the places in order.
 */
module FsTrunc {
  import opened Bytes
  import opened FsBlocks
  import opened Fs
  import opened FsFile

  const END: nat := 16653

  /** The order in which itrunc comes to the places of an inode. */
  function Rank(p: Place): nat {
    match p
    case Direct(i) => i
    case IndEntry(j) => NDIRECT + j
    case Ind => NDIRECT + NINDIRECT
    case DblEntry(j, k) => 140 + 129 * j + k
    case DblTable(j) => 140 + 129 * j + 128
    case Dbl => 140 + 129 * 128
  }

  lemma RankInjective(p: Place, q: Place)
    requires PlaceOk(p) && PlaceOk(q) && Rank(p) == Rank(q)
    ensures p == q
  {
  }

  lemma RankBound(p: Place)
    requires PlaceOk(p)
    ensures Rank(p) < END
  {
  }

  /** A file's blocks lie in the order in which itrunc comes to them, and there is no other place for data. */
  lemma DataInRankOrder(a: nat, b: nat)
    requires a < b < MAXFILE
    ensures Rank(DataPlace(a)) < Rank(DataPlace(b))
  {
    var x, y := a - NDIRECT - NINDIRECT, b - NDIRECT - NINDIRECT;
    if x >= 0 {
      assert 129 * (x / NINDIRECT) + x % NINDIRECT == x + x / NINDIRECT;
      assert 129 * (y / NINDIRECT) + y % NINDIRECT == y + y / NINDIRECT;
    }
  }

  lemma DataPlaceOnto(p: Place) returns (bn: nat)
    requires PlaceOk(p) && !IsTable(p)
    ensures bn < MAXFILE && DataPlace(bn) == p
  {
    bn := match p
      case Direct(i) => i
      case IndEntry(j) => NDIRECT + j
      case DblEntry(j, k) => NDIRECT + NINDIRECT + NINDIRECT * j + k;
  }

  /** The blocks of ino at places from rank c on. */
  ghost function Left(owner: map<nat, Ref>, ino: nat, c: nat): set<nat> {
    set b | b in owner && owner[b].ino == ino && c <= Rank(owner[b].place)
  }

  /** The owners without those of ino. */
  ghost function Others(owner: map<nat, Ref>, ino: nat): map<nat, Ref> {
    map b | b in owner && owner[b].ino != ino :: owner[b]
  }

  function NoAddrs(): (a: seq<Word>)
    ensures |a| == NDIRECT + 2 && forall i :: 0 <= i < |a| ==> a[i] == 0
  {
    [0, 0, 0, 0, 0, 0, 0, 0, 0, 0, 0, 0, 0]
  }

  /** The volume as if ino had no blocks. */
  function Bare(v: Volume, ino: nat): (v': Volume)
    ensures v'.disk == v.disk
  {
    Volume(v.disk, v.inodes[ino := Inode(NoAddrs(), 0)])
  }

  lemma BarePtr(v: Volume, ino: nat, r: Ref)
    requires ino in v.inodes
    ensures PtrAt(Bare(v, ino), r) == if r.ino == ino then 0 else PtrAt(v, r)
  {
  }

  /** Taking a file's pointers away leaves its blocks held. */
  lemma Detach(g: Geometry, v: Volume, owner: map<nat, Ref>, ino: nat)
    requires Owned(g, v, owner, {}) && ino in v.inodes
    ensures Owned(g, Bare(v, ino), Others(owner, ino), Left(owner, ino, 0))
  {
    hide PtrAt, Used, Rank;
    var v', o', h' := Bare(v, ino), Others(owner, ino), Left(owner, ino, 0);
    forall b | b in h'
      ensures InData(g, b) && b !in o'
    {
      assert OwnedOk(g, v, owner, b);
    }
    forall b: nat | b < g.size
      ensures BitOk(g, v'.disk, o', h', b)
    {
      assert BitOk(g, v.disk, owner, {}, b);
    }
    forall b | b in o'
      ensures OwnedOk(g, v', o', b)
    {
      assert OwnedOk(g, v, owner, b);
      BarePtr(v, ino, owner[b]);
    }
    forall r
      ensures PointsOk(v', o', r)
    {
      assert PointsOk(v, owner, r);
      BarePtr(v, ino, r);
    }
  }

  /** Passing place p takes its block, if any, off what is left. */
  lemma LeftStep(g: Geometry, v: Volume, owner: map<nat, Ref>, ino: nat, p: Place)
    requires Owned(g, v, owner, {}) && ino in v.inodes && PlaceOk(p)
    ensures var b := PtrAt(v, Ref(ino, p));
            && Left(owner, ino, Rank(p) + 1) == Left(owner, ino, Rank(p)) - {b}
            && (b != 0 ==> b in Left(owner, ino, Rank(p)) && InData(g, b))
            && 0 !in Left(owner, ino, Rank(p))
  {
    hide PtrAt, Used, Rank;
    var b := PtrAt(v, Ref(ino, p));
    assert PointsOk(v, owner, Ref(ino, p));
    forall c | c in owner
      ensures OwnedOk(g, v, owner, c) && PlaceOk(owner[c].place) && c > 0
      ensures owner[c].ino == ino && Rank(owner[c].place) == Rank(p) ==> c == b
    {
      assert OwnedOk(g, v, owner, c);
      if Rank(owner[c].place) == Rank(p) {
        RankInjective(owner[c].place, p);
      }
    }
  }

  /** Places that hold nothing can be passed over. */
  lemma LeftSkip(g: Geometry, v: Volume, owner: map<nat, Ref>, ino: nat, c: nat, c': nat)
    requires Owned(g, v, owner, {}) && c <= c'
    requires forall p :: PlaceOk(p) && c <= Rank(p) < c' ==> PtrAt(v, Ref(ino, p)) == 0
    ensures Left(owner, ino, c') == Left(owner, ino, c)
  {
    hide PtrAt, Used, Rank;
    forall b | b in owner && owner[b].ino == ino && c <= Rank(owner[b].place)
      ensures c' <= Rank(owner[b].place)
    {
      assert OwnedOk(g, v, owner, b);
      assert owner[b] == Ref(ino, owner[b].place);
    }
  }

  /** Where itrunc of ino stands: everything before rank c is free again, the data blocks are untouched. */
  ghost predicate Truncating(g: Geometry, v0: Volume, owner: map<nat, Ref>, v: Volume, ino: nat, c: nat) {
    && Owned(g, v0, owner, {}) && ino in v0.inodes && |v.disk| == g.size
    && Owned(g, Bare(v, ino), Others(owner, ino), Left(owner, ino, c))
    && (forall b: nat :: InData(g, b) ==> v.disk[b] == v0.disk[b])
  }

  lemma PassPlace(g: Geometry, v0: Volume, owner: map<nat, Ref>, v: Volume, ino: nat, p: Place)
    requires Truncating(g, v0, owner, v, ino, Rank(p)) && PlaceOk(p)
    ensures var b := PtrAt(v0, Ref(ino, p));
            if b == 0 then Truncating(g, v0, owner, v, ino, Rank(p) + 1)
            else
              && InData(g, b) && Used(g, v.disk, b)
              && Truncating(g, v0, owner, v.(disk := SetUsed(g, v.disk, b, false)), ino, Rank(p) + 1)
  {
    hide PtrAt, Used, Rank, Left, Owned, SetUsed;
    LeftStep(g, v0, owner, ino, p);
    SoundParts(g, v0, owner, Ref(ino, p));
    var b := PtrAt(v0, Ref(ino, p));
    if b == 0 {
      assert Left(owner, ino, Rank(p)) - {0} == Left(owner, ino, Rank(p));
    } else {
      FreeOwned(g, Bare(v, ino), Others(owner, ino), Left(owner, ino, Rank(p)), b);
      assert Bare(v.(disk := SetUsed(g, v.disk, b, false)), ino) == Bare(v, ino).(disk := SetUsed(g, v.disk, b, false));
    }
  }

  /** Nothing hangs below an empty indirect, double-indirect or second-level slot. */
  lemma EmptyBelow(v: Volume, ino: nat, p: Place)
    requires IsTable(p) && PlaceOk(p) && PtrAt(v, Ref(ino, p)) == 0
    ensures p.Ind? ==> forall q :: PlaceOk(q) && NDIRECT <= Rank(q) < 140 ==> PtrAt(v, Ref(ino, q)) == 0
    ensures p.Dbl? ==> forall q :: PlaceOk(q) && 140 <= Rank(q) < END ==> PtrAt(v, Ref(ino, q)) == 0
    ensures p.DblTable? ==> forall q :: PlaceOk(q) && 140 + 129 * p.j <= Rank(q) < 140 + 129 * (p.j + 1) ==>
        PtrAt(v, Ref(ino, q)) == 0
  {
  }

  lemma SkipBelow(g: Geometry, v0: Volume, owner: map<nat, Ref>, v: Volume, ino: nat, p: Place, c: nat)
    requires Truncating(g, v0, owner, v, ino, c) && IsTable(p) && PlaceOk(p) && PtrAt(v0, Ref(ino, p)) == 0
    requires c == if p.Ind? then NDIRECT else if p.Dbl? then 140 else 140 + 129 * p.j
    ensures Truncating(g, v0, owner, v, ino, Rank(p) + 1)
  {
    hide PtrAt, Owned, Left;
    EmptyBelow(v0, ino, p);
    LeftSkip(g, v0, owner, ino, c, Rank(p) + 1);
  }

  /** if (b) bfree(b): the panic in bfree cannot happen. */
  method FreePtr(fs: FileSystem, ino: nat, b: nat, ghost p: Place, ghost v0: Volume)
    requires Truncating(fs.g, v0, fs.owner, fs.Vol(), ino, Rank(p)) && PlaceOk(p) && b == PtrAt(v0, Ref(ino, p))
    modifies fs`disk
    ensures Truncating(fs.g, v0, fs.owner, fs.Vol(), ino, Rank(p) + 1)
  {
    hide PtrAt, Owned, Left, Rank, Used, SetUsed;
    PassPlace(fs.g, v0, fs.owner, fs.Vol(), ino, p);
    SoundParts(fs.g, v0, fs.owner, Ref(ino, p));
    if b != 0 {
      ghost var v := fs.Vol();
      var ok := fs.Bfree(b);
      assert ok;
      assert fs.Vol() == v.(disk := SetUsed(fs.g, v.disk, b, false));
    }
  }

  /** The loop over the entries of the table in block t at place p. */
  method FreeEntries(fs: FileSystem, ino: nat, t: nat, ghost p: Place, ghost v0: Volume)
    requires PlaceOk(p) && (p.Ind? || p.DblTable?) && Truncating(fs.g, v0, fs.owner, fs.Vol(), ino, FirstRank(p))
    requires t == PtrAt(v0, Ref(ino, p)) != 0
    modifies fs`disk
    ensures Truncating(fs.g, v0, fs.owner, fs.Vol(), ino, Rank(p))
  {
    hide Truncating, PtrAt;
    TableSame(fs.g, v0, fs.owner, fs.Vol(), ino, p, FirstRank(p));
    var a := fs.disk[t];
    for j := 0 to NINDIRECT
      invariant Truncating(fs.g, v0, fs.owner, fs.Vol(), ino, FirstRank(p) + j)
    {
      EntryIs(v0, ino, p, j, a);
      FreePtr(fs, ino, GetWord(a.bytes, j), Child(p, j), v0);
    }
  }

  /** The first place below a table, and its j-th. */
  function FirstRank(p: Place): nat
    requires p.Ind? || p.DblTable?
  {
    if p.Ind? then NDIRECT else 140 + 129 * p.j
  }

  function Child(p: Place, j: nat): (q: Place)
    requires PlaceOk(p) && (p.Ind? || p.DblTable?) && j < NINDIRECT
    ensures PlaceOk(q) && Rank(q) == FirstRank(p) + j
  {
    if p.Ind? then IndEntry(j) else DblEntry(p.j, j)
  }

  /** The table is still as it was before itrunc began. */
  lemma TableSame(g: Geometry, v0: Volume, owner: map<nat, Ref>, v: Volume, ino: nat, p: Place, c: nat)
    requires Truncating(g, v0, owner, v, ino, c) && PtrAt(v0, Ref(ino, p)) != 0
    ensures var t := PtrAt(v0, Ref(ino, p));
            t < |v.disk| == |v0.disk| && v.disk[t] == v0.disk[t] && InodesOk(v0) && ino in v0.inodes
  {
    hide PtrAt, Owned, Left;
    SoundParts(g, v0, owner, Ref(ino, p));
  }

  lemma EntryIs(v0: Volume, ino: nat, p: Place, j: nat, a: Block)
    requires ino in v0.inodes && InodesOk(v0) && PlaceOk(p) && (p.Ind? || p.DblTable?) && j < NINDIRECT
    requires 0 < PtrAt(v0, Ref(ino, p)) < |v0.disk| && a == v0.disk[PtrAt(v0, Ref(ino, p))]
    ensures GetWord(a.bytes, j) == PtrAt(v0, Ref(ino, Child(p, j)))
  {
  }

  /** ip->addrs[i] = 0 */
  method ClearSlot(fs: FileSystem, ino: nat, i: nat, ghost v0: Volume, ghost c: nat)
    requires Truncating(fs.g, v0, fs.owner, fs.Vol(), ino, c) && ino in fs.inodes && i < |fs.inodes[ino].addrs|
    modifies fs`inodes
    ensures Truncating(fs.g, v0, fs.owner, fs.Vol(), ino, c)
    ensures fs.inodes == old(fs.inodes)[ino := old(fs.inodes)[ino].(addrs := old(fs.inodes)[ino].addrs[i := 0])]
  {
    hide Owned, Left;
    ghost var v := fs.Vol();
    fs.inodes := fs.inodes[ino := fs.inodes[ino].(addrs := fs.inodes[ino].addrs[i := 0])];
    assert Bare(fs.Vol(), ino) == Bare(v, ino);
  }

  /** The slots of ino before i are cleared, the rest of the inodes are as they were. */
  ghost predicate Cleared(v0: Volume, inodes: map<nat, Inode>, ino: nat, i: nat) {
    && ino in v0.inodes && ino in inodes && |v0.inodes[ino].addrs| == NDIRECT + 2 && |inodes[ino].addrs| == NDIRECT + 2
    && inodes.Keys == v0.inodes.Keys && (forall n :: n in inodes && n != ino ==> inodes[n] == v0.inodes[n])
    && forall k :: 0 <= k < NDIRECT + 2 ==> inodes[ino].addrs[k] == if k < i then 0 else v0.inodes[ino].addrs[k]
  }

  /** The direct blocks. */
  method FreeDirect(fs: FileSystem, ino: nat, ghost v0: Volume)
    requires Truncating(fs.g, v0, fs.owner, fs.Vol(), ino, 0) && Cleared(v0, fs.inodes, ino, 0)
    modifies fs`disk, fs`inodes
    ensures Truncating(fs.g, v0, fs.owner, fs.Vol(), ino, NDIRECT) && Cleared(v0, fs.inodes, ino, NDIRECT)
  {
    hide Truncating, PtrAt;
    for i := 0 to NDIRECT
      invariant Truncating(fs.g, v0, fs.owner, fs.Vol(), ino, i) && Cleared(v0, fs.inodes, ino, i)
    {
      SlotIs(v0, ino, Direct(i));
      if fs.inodes[ino].addrs[i] != 0 {
        FreePtr(fs, ino, fs.inodes[ino].addrs[i], Direct(i), v0);
        ClearSlot(fs, ino, i, v0, i + 1);
      } else {
        FreePtr(fs, ino, 0, Direct(i), v0);
      }
    }
  }

  lemma SlotIs(v0: Volume, ino: nat, p: Place)
    requires ino in v0.inodes && |v0.inodes[ino].addrs| == NDIRECT + 2 && PlaceOk(p) && (p.Direct? || p.Ind? || p.Dbl?)
    ensures PtrAt(v0, Ref(ino, p)) == v0.inodes[ino].addrs[RootSlot(p)]
  {
  }

  /** The indirect block and what it lists. */
  method FreeIndirect(fs: FileSystem, ino: nat, ghost v0: Volume)
    requires Truncating(fs.g, v0, fs.owner, fs.Vol(), ino, NDIRECT) && Cleared(v0, fs.inodes, ino, NDIRECT)
    modifies fs`disk, fs`inodes
    ensures Truncating(fs.g, v0, fs.owner, fs.Vol(), ino, 140) && Cleared(v0, fs.inodes, ino, NDIRECT + 1)
  {
    hide Truncating, PtrAt;
    SlotIs(v0, ino, Ind);
    var t := fs.inodes[ino].addrs[NDIRECT];
    if t != 0 {
      FreeEntries(fs, ino, t, Ind, v0);
      FreePtr(fs, ino, t, Ind, v0);
      ClearSlot(fs, ino, NDIRECT, v0, 140);
    } else {
      SkipBelow(fs.g, v0, fs.owner, fs.Vol(), ino, Ind, NDIRECT);
    }
  }

  /** The double-indirect block and what it lists. */
  method FreeDouble(fs: FileSystem, ino: nat, ghost v0: Volume)
    requires Truncating(fs.g, v0, fs.owner, fs.Vol(), ino, 140) && Cleared(v0, fs.inodes, ino, NDIRECT + 1)
    modifies fs`disk, fs`inodes
    ensures Truncating(fs.g, v0, fs.owner, fs.Vol(), ino, END) && Cleared(v0, fs.inodes, ino, NDIRECT + 2)
  {
    hide Truncating, PtrAt;
    SlotIs(v0, ino, Dbl);
    var t := fs.inodes[ino].addrs[NDIRECT + 1];
    if t != 0 {
      TableSame(fs.g, v0, fs.owner, fs.Vol(), ino, Dbl, 140);
      var a := fs.disk[t];
      for j := 0 to NINDIRECT
        invariant Truncating(fs.g, v0, fs.owner, fs.Vol(), ino, 140 + 129 * j)
        invariant Cleared(v0, fs.inodes, ino, NDIRECT + 1)
      {
        TableEntryIs(v0, ino, j, a);
        var u := GetWord(a.bytes, j);
        if u != 0 {
          FreeEntries(fs, ino, u, DblTable(j), v0);
          FreePtr(fs, ino, u, DblTable(j), v0);
        } else {
          SkipBelow(fs.g, v0, fs.owner, fs.Vol(), ino, DblTable(j), 140 + 129 * j);
        }
      }
      FreePtr(fs, ino, t, Dbl, v0);
      ClearSlot(fs, ino, NDIRECT + 1, v0, END);
    } else {
      SkipBelow(fs.g, v0, fs.owner, fs.Vol(), ino, Dbl, 140);
    }
  }

  lemma TableEntryIs(v0: Volume, ino: nat, j: nat, a: Block)
    requires ino in v0.inodes && InodesOk(v0) && j < NINDIRECT
    requires 0 < PtrAt(v0, Ref(ino, Dbl)) < |v0.disk| && a == v0.disk[PtrAt(v0, Ref(ino, Dbl))]
    ensures GetWord(a.bytes, j) == PtrAt(v0, Ref(ino, DblTable(j)))
  {
  }

  lemma TruncStart(g: Geometry, v: Volume, owner: map<nat, Ref>, ino: nat)
    requires Owned(g, v, owner, {}) && ino in v.inodes
    ensures Truncating(g, v, owner, v, ino, 0) && Cleared(v, v.inodes, ino, 0)
  {
    Detach(g, v, owner, ino);
  }

  lemma NothingLeft(g: Geometry, v: Volume, owner: map<nat, Ref>, ino: nat)
    requires Owned(g, v, owner, {})
    ensures Left(owner, ino, END) == {}
  {
    hide PtrAt, Used, Rank;
    forall b | b in owner
      ensures Rank(owner[b].place) < END
    {
      assert OwnedOk(g, v, owner, b);
      RankBound(owner[b].place);
    }
  }

  /** The bit of b once the blocks of ino are free: as before, or clear if b was one of them. */
  lemma BitAfter(g: Geometry, v: Volume, owner: map<nat, Ref>, v': Volume, ino: nat, b: nat)
    requires Owned(g, v, owner, {}) && Owned(g, v', Others(owner, ino), {}) && b < g.size
    ensures Used(g, v'.disk, b) <==> Used(g, v.disk, b) && !(b in owner && owner[b].ino == ino)
  {
    hide PtrAt, Used, OwnedOk, PointsOk;
    assert BitOk(g, v.disk, owner, {}, b) && BitOk(g, v'.disk, Others(owner, ino), {}, b);
    assert b in owner ==> InData(g, b) by {
      if b in owner { OwnedInData(g, v, owner, b); }
    }
  }

  lemma OwnedInData(g: Geometry, v: Volume, owner: map<nat, Ref>, b: nat)
    requires Owned(g, v, owner, {}) && b in owner
    ensures InData(g, b)
  {
    hide PtrAt, Used;
    assert OwnedOk(g, v, owner, b);
  }

  /** Byte i of another file, after the blocks of ino were freed. */
  lemma OtherByte(g: Geometry, v: Volume, owner: map<nat, Ref>, v': Volume, ino: nat, n: nat, i: nat)
    requires Owned(g, v, owner, {}) && ino in v.inodes && n != ino && n in v.inodes && i < MAXSIZE
    requires v'.inodes == v.inodes[ino := Inode(NoAddrs(), 0)] && |v'.disk| == g.size
    requires forall b: nat :: InData(g, b) ==> v'.disk[b] == v.disk[b]
    ensures BlockOf(v', n, i / BSIZE) == BlockOf(v, n, i / BSIZE) && ByteAt(v', n, i) == ByteAt(v, n, i)
  {
    hide PtrAt, Used, PointsOk;
    forall b | b in owner
      ensures InData(g, b)
    {
      OwnedInData(g, v, owner, b);
    }
    PtrKept(g, v, v', owner, {}, Ref(n, DataPlace(i / BSIZE)));
    SoundParts(g, v, owner, Ref(n, DataPlace(i / BSIZE)));
  }

  /** Files other than ino keep their bytes, and no file has a hole. */
  lemma OthersKept(g: Geometry, v: Volume, owner: map<nat, Ref>, v': Volume, ino: nat)
    requires Owned(g, v, owner, {}) && ino in v.inodes && FilesOk(v)
    requires v'.inodes == v.inodes[ino := Inode(NoAddrs(), 0)] && |v'.disk| == g.size
    requires forall b: nat :: InData(g, b) ==> v'.disk[b] == v.disk[b]
    ensures FilesOk(v') && forall n :: n in v.inodes && n != ino ==> Contents(v', n) == Contents(v, n)
  {
    hide PtrAt, Owned, ByteAt, BlockOf;
    forall n | n in v.inodes && n != ino
      ensures Filled(v', n, v.inodes[n].size) && Contents(v', n) == Contents(v, n)
    {
      forall i: nat | i < v.inodes[n].size
        ensures BlockOf(v', n, i / BSIZE) == BlockOf(v, n, i / BSIZE) && ByteAt(v', n, i) == ByteAt(v, n, i)
      {
        OtherByte(g, v, owner, v', ino, n, i);
      }
      forall bn: nat | bn < MAXFILE && bn * BSIZE < v.inodes[n].size
        ensures BlockOf(v', n, bn) != 0
      {
        OtherByte(g, v, owner, v', ino, n, bn * BSIZE);
        assert bn * BSIZE / BSIZE == bn;
      }
    }
  }

  /**
   itrunc: the file is empty, exactly its blocks are free again, and every other
   file keeps its blocks and its bytes.
   */
  method Itrunc(fs: FileSystem, ino: nat)
    requires fs.Sound() && ino in fs.inodes && FilesOk(fs.Vol())
    modifies fs
    ensures fs.Sound() && fs.owner == Others(old(fs.owner), ino)
    ensures fs.inodes == old(fs.inodes)[ino := Inode(NoAddrs(), 0)]
    ensures |fs.disk| == old(|fs.disk|) == fs.g.size && GeometryOk(fs.g)
    ensures FilesOk(fs.Vol())
    ensures forall n :: n in fs.inodes && n != ino ==> Contents(fs.Vol(), n) == Contents(old(fs.Vol()), n)
    ensures forall b: nat :: b < fs.g.size ==>
      (Used(fs.g, fs.disk, b) <==> Used(fs.g, old(fs.disk), b) && !(b in old(fs.owner) && old(fs.owner)[b].ino == ino))
  {
    hide Owned, PtrAt, Used, Others, FilesOk, Contents, Truncating, Bare, NoAddrs;
    ghost var v0, own := fs.Vol(), fs.owner;
    fs.Known();
    TruncStart(fs.g, v0, own, ino);
    FreeDirect(fs, ino, v0);
    FreeIndirect(fs, ino, v0);
    FreeDouble(fs, ino, v0);
    ghost var v := fs.Vol();
    fs.inodes := fs.inodes[ino := fs.inodes[ino].(size := 0)];
    fs.owner := Others(own, ino);
    TruncDone(fs.g, v0, own, v, fs.Vol(), ino);
  }

  /** All slots cleared and all blocks passed: the file is gone, the rest is as it was. */
  lemma TruncDone(g: Geometry, v0: Volume, owner: map<nat, Ref>, v: Volume, v': Volume, ino: nat)
    requires Truncating(g, v0, owner, v, ino, END) && Cleared(v0, v.inodes, ino, NDIRECT + 2) && FilesOk(v0)
    requires v' == Volume(v.disk, v.inodes[ino := v.inodes[ino].(size := 0)])
    ensures Owned(g, v', Others(owner, ino), {}) && v'.inodes == v0.inodes[ino := Inode(NoAddrs(), 0)]
    ensures FilesOk(v') && forall n :: n in v'.inodes && n != ino ==> Contents(v', n) == Contents(v0, n)
    ensures |v'.disk| == |v0.disk| == g.size && GeometryOk(g)
    ensures forall b: nat :: b < g.size ==>
      (Used(g, v'.disk, b) <==> Used(g, v0.disk, b) && !(b in owner && owner[b].ino == ino))
  {
    hide Owned, PtrAt, Used, Left, Others, FilesOk, Contents;
    NothingLeft(g, v0, owner, ino);
    SoundParts(g, v0, owner, Ref(ino, Ind));
    assert v.inodes[ino].addrs == NoAddrs();
    assert v' == Bare(v, ino);
    assert v'.inodes == v0.inodes[ino := Inode(NoAddrs(), 0)];
    OthersKept(g, v0, owner, v', ino);
    forall b: nat | b < g.size
      ensures Used(g, v'.disk, b) <==> Used(g, v0.disk, b) && !(b in owner && owner[b].ino == ino)
    {
      BitAfter(g, v0, owner, v', ino, b);
    }
  }
}
