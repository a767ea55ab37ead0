/**
 The native file system's blocks (kern/fs.c): which places point to which block,
 and the one-owner invariant that ties them to the free bitmap. The disk is the
 current contents of its blocks as bread sees them.
 */
module FsBlocks {
  import opened Bytes
  import opened Bitmap

  const NDIRECT: nat := 11
  const NINDIRECT: nat := 128
  const MAXFILE: nat := 16523  // NDIRECT + NINDIRECT + NINDIRECT * NINDIRECT
  const ZEROBLOCK: Block := Block(Zeros(512))

  /** From the super block: size blocks, the bitmap at bmapstart, file data from datastart on. */
  datatype Geometry = Geometry(size: nat, bmapstart: nat, datastart: nat)

  /** addrs[NDIRECT] is the indirect block, addrs[NDIRECT + 1] the double-indirect one. */
  datatype Inode = Inode(addrs: seq<Word>, size: nat)

  /** The cached disk and the inodes. */
  datatype Volume = Volume(disk: seq<Block>, inodes: map<nat, Inode>)

  /** Where a block number can be stored. */
  datatype Place = Direct(i: nat) | Ind | IndEntry(j: nat) | Dbl | DblTable(j: nat) | DblEntry(j: nat, k: nat)
  datatype Ref = Ref(ino: nat, place: Place)

  predicate PlaceOk(p: Place) {
    match p
    case Direct(i) => i < NDIRECT
    case Ind => true
    case IndEntry(j) => j < NINDIRECT
    case Dbl => true
    case DblTable(j) => j < NINDIRECT
    case DblEntry(j, k) => j < NINDIRECT && k < NINDIRECT
  }

  predicate RefOk(v: Volume, r: Ref) {
    r.ino in v.inodes && PlaceOk(r.place)
  }

  /** Blocks at these places hold block numbers, not file data. */
  predicate IsTable(p: Place) {
    p.Ind? || p.Dbl? || p.DblTable?
  }

  /** Entry j of the table in block t; no table, no entry. */
  function Entry(v: Volume, t: nat, j: nat): Word
    requires j < NINDIRECT
  {
    if 0 < t < |v.disk| then GetWord(v.disk[t].bytes, j) else 0
  }

  /** The block number stored at r, 0 for none. */
  function PtrAt(v: Volume, r: Ref): Word {
    if !RefOk(v, r) || |v.inodes[r.ino].addrs| != NDIRECT + 2 then 0 else
      var a := v.inodes[r.ino].addrs;
      match r.place
      case Direct(i) => a[i]
      case Ind => a[NDIRECT]
      case IndEntry(j) => Entry(v, a[NDIRECT], j)
      case Dbl => a[NDIRECT + 1]
      case DblTable(j) => Entry(v, a[NDIRECT + 1], j)
      case DblEntry(j, k) => Entry(v, Entry(v, a[NDIRECT + 1], j), k)
  }

  predicate GeometryOk(g: Geometry) {
    && g.bmapstart <= g.datastart <= g.size < 0x1_0000_0000
    && g.size <= (g.datastart - g.bmapstart) * BPB && 0 < g.bmapstart
  }

  predicate InData(g: Geometry, b: nat) {
    g.datastart <= b < g.size
  }

  /** The bit of block b in the on-disk bitmap. */
  predicate Used(g: Geometry, disk: seq<Block>, b: nat)
    requires GeometryOk(g) && |disk| == g.size && b < g.size
  {
    Marked(disk[g.bmapstart + b / BPB], b % BPB)
  }

  /** The disk with the bit of block b changed. */
  function SetUsed(g: Geometry, disk: seq<Block>, b: nat, on: bool): (r: seq<Block>)
    requires GeometryOk(g) && |disk| == g.size && b < g.size
    ensures |r| == g.size && forall c: nat :: c < g.size ==> Used(g, r, c) == if c == b then on else Used(g, disk, c)
    ensures forall c: nat :: InData(g, c) ==> r[c] == disk[c]
  {
    var n := g.bmapstart + b / BPB;
    disk[n := Mark(disk[n], b % BPB, on)]
  }

  lemma UsedFrame(g: Geometry, d0: seq<Block>, d1: seq<Block>, b: nat)
    requires GeometryOk(g) && |d0| == |d1| == g.size && b < g.size
    requires forall c: nat :: c < g.datastart ==> d1[c] == d0[c]
    ensures Used(g, d1, b) == Used(g, d0, b)
  {
  }

  // ------------------------------------------------------------ ownership

  /** Block b belongs where owner says. */
  predicate OwnedOk(g: Geometry, v: Volume, owner: map<nat, Ref>, b: nat)
    requires b in owner
  {
    InData(g, b) && RefOk(v, owner[b]) && PtrAt(v, owner[b]) == b
  }

  /** The block stored at r belongs to r. */
  predicate PointsOk(v: Volume, owner: map<nat, Ref>, r: Ref) {
    PtrAt(v, r) != 0 ==> PtrAt(v, r) in owner && owner[PtrAt(v, r)] == r
  }

  /** Bitmap and owners agree; the blocks in held are in use though no place points to them (yet, or any more). */
  predicate BitOk(g: Geometry, disk: seq<Block>, owner: map<nat, Ref>, held: set<nat>, b: nat)
    requires GeometryOk(g) && |disk| == g.size && b < g.size
  {
    Used(g, disk, b) <==> b < g.datastart || b in owner || b in held
  }

  predicate InodesOk(v: Volume) {
    forall n :: n in v.inodes ==> |v.inodes[n].addrs| == NDIRECT + 2
  }

  /** Every block in use has one owner, and only those. */
  ghost predicate Owned(g: Geometry, v: Volume, owner: map<nat, Ref>, held: set<nat>) {
    && GeometryOk(g) && |v.disk| == g.size && InodesOk(v)
    && (forall b :: b in held ==> InData(g, b) && b !in owner)
    && (forall b: nat :: b < g.size ==> BitOk(g, v.disk, owner, held, b))
    && (forall b :: b in owner ==> OwnedOk(g, v, owner, b))
    && forall r :: PointsOk(v, owner, r)
  }

  /** No block is reachable from two places, and every reachable block is marked in the bitmap. */
  lemma OneOwner(g: Geometry, v: Volume, owner: map<nat, Ref>, held: set<nat>, r: Ref, s: Ref)
    requires Owned(g, v, owner, held) && PtrAt(v, r) != 0
    ensures InData(g, PtrAt(v, r)) && Used(g, v.disk, PtrAt(v, r))
    ensures PtrAt(v, s) == PtrAt(v, r) ==> s == r
  {
    hide PtrAt, Used;
    assert PointsOk(v, owner, r) && PointsOk(v, owner, s);
    assert OwnedOk(g, v, owner, PtrAt(v, r));
    assert BitOk(g, v.disk, owner, held, PtrAt(v, r));
  }

  /** A pointer depends on its inode's addrs and on the tables it goes through. */
  lemma PtrFrame(v: Volume, v': Volume, r: Ref)
    requires |v'.disk| == |v.disk|
    requires r.ino in v.inodes <==> r.ino in v'.inodes
    requires r.ino in v.inodes ==> v'.inodes[r.ino].addrs == v.inodes[r.ino].addrs
    requires 0 < PtrAt(v, Ref(r.ino, Ind)) < |v.disk| ==>
        v'.disk[PtrAt(v, Ref(r.ino, Ind))] == v.disk[PtrAt(v, Ref(r.ino, Ind))]
    requires 0 < PtrAt(v, Ref(r.ino, Dbl)) < |v.disk| ==>
        v'.disk[PtrAt(v, Ref(r.ino, Dbl))] == v.disk[PtrAt(v, Ref(r.ino, Dbl))]
    requires r.place.DblEntry? ==> var t := PtrAt(v, Ref(r.ino, DblTable(r.place.j))); 0 < t < |v.disk| ==>
        v'.disk[t] == v.disk[t]
    ensures PtrAt(v', r) == PtrAt(v, r)
  {
  }

  /** The owned tables of v are the same in v'. */
  ghost predicate TablesKept(v: Volume, v': Volume, owner: map<nat, Ref>) {
    && |v'.disk| == |v.disk|
    && forall b :: b in owner && IsTable(owner[b].place) && b < |v.disk| ==> v'.disk[b] == v.disk[b]
  }

  /** What is not a table can be overwritten without moving any pointer. */
  lemma PtrKept(g: Geometry, v: Volume, v': Volume, owner: map<nat, Ref>, held: set<nat>, r: Ref)
    requires Owned(g, v, owner, held) && TablesKept(v, v', owner)
    requires r.ino in v.inodes <==> r.ino in v'.inodes
    requires r.ino in v.inodes ==> v'.inodes[r.ino].addrs == v.inodes[r.ino].addrs
    ensures PtrAt(v', r) == PtrAt(v, r)
  {
    hide PtrAt, BitOk, OwnedOk;
    assert PointsOk(v, owner, Ref(r.ino, Ind)) && PointsOk(v, owner, Ref(r.ino, Dbl));
    if r.place.DblEntry? {
      assert PointsOk(v, owner, Ref(r.ino, DblTable(r.place.j)));
    }
    PtrFrame(v, v', r);
  }

  // ------------------------------------------------------------- linking

  /** v' is v with block b stored at place r and nothing else moved. */
  ghost predicate Linked(v: Volume, v': Volume, at: Ref, b: nat) {
    forall r :: PtrAt(v', r) == if r == at then b else PtrAt(v, r)
  }

  lemma LinkOwned(g: Geometry, v: Volume, v': Volume, owner: map<nat, Ref>, held: set<nat>, at: Ref, b: nat)
    requires Owned(g, v, owner, held) && b in held && RefOk(v, at) && PtrAt(v, at) == 0 && Linked(v, v', at, b)
    requires |v'.disk| == g.size && v'.inodes.Keys == v.inodes.Keys && InodesOk(v')
    requires forall c: nat :: c < g.datastart ==> v'.disk[c] == v.disk[c]
    ensures Owned(g, v', owner[b := at], held - {b})
  {
    hide PtrAt, Used;
    var owner' := owner[b := at];
    forall c: nat | c < g.size
      ensures BitOk(g, v'.disk, owner', held - {b}, c)
    {
      UsedFrame(g, v.disk, v'.disk, c);
      assert BitOk(g, v.disk, owner, held, c);
    }
    forall c | c in owner'
      ensures OwnedOk(g, v', owner', c)
    {
      if c != b {
        assert OwnedOk(g, v, owner, c);
      }
    }
    forall r
      ensures PointsOk(v', owner', r)
    {
      assert PointsOk(v, owner, r);
    }
  }

  /** The inode slot that holds the pointer at p. */
  function RootSlot(p: Place): (i: nat)
    requires PlaceOk(p) && (p.Direct? || p.Ind? || p.Dbl?)
    ensures i < NDIRECT + 2
  {
    match p
    case Direct(i) => i
    case Ind => NDIRECT
    case Dbl => NDIRECT + 1
  }

  function WithAddr(v: Volume, ino: nat, i: nat, b: Word): (v': Volume)
    requires ino in v.inodes && i < |v.inodes[ino].addrs|
    ensures v'.inodes.Keys == v.inodes.Keys
  {
    v.(inodes := v.inodes[ino := v.inodes[ino].(addrs := v.inodes[ino].addrs[i := b])])
  }

  /** Storing a zeroed block in an empty slot of the inode. */
  lemma LinkRoot(g: Geometry, v: Volume, owner: map<nat, Ref>, held: set<nat>, at: Ref, b: nat)
    requires Owned(g, v, owner, held) && b in held && RefOk(v, at)
    requires (at.place.Direct? || at.place.Ind? || at.place.Dbl?)
    requires PtrAt(v, at) == 0 && v.disk[b] == ZEROBLOCK
    ensures Linked(v, WithAddr(v, at.ino, RootSlot(at.place), b), at, b)
  {
    hide PointsOk, BitOk, OwnedOk;
    forall r
      ensures PtrAt(WithAddr(v, at.ino, RootSlot(at.place), b), r) == if r == at then b else PtrAt(v, r)
    {
      LinkRootAt(g, v, at, b, r);
    }
  }

  lemma LinkRootAt(g: Geometry, v: Volume, at: Ref, b: nat, r: Ref)
    requires |v.disk| == g.size < 0x1_0000_0000 && InData(g, b) && b > 0 && RefOk(v, at) && InodesOk(v)
    requires at.place.Direct? || at.place.Ind? || at.place.Dbl?
    requires PtrAt(v, at) == 0 && v.disk[b] == ZEROBLOCK
    ensures PtrAt(WithAddr(v, at.ino, RootSlot(at.place), b), r) == if r == at then b else PtrAt(v, r)
  {
    ZeroEntries(v, b);
  }

  lemma ZeroEntries(v: Volume, b: nat)
    requires b < |v.disk| && v.disk[b] == ZEROBLOCK
    ensures forall j: nat :: j < NINDIRECT ==> Entry(v, b, j) == 0
  {
  }

  /** The table entry that holds the pointer at p: the place of its table and the index. */
  function TablePlace(p: Place): Place
    requires p.IndEntry? || p.DblTable? || p.DblEntry?
  {
    if p.IndEntry? then Ind else if p.DblTable? then Dbl else DblTable(p.j)
  }

  function TableSlot(p: Place): (j: nat)
    requires PlaceOk(p) && (p.IndEntry? || p.DblTable? || p.DblEntry?)
    ensures j < NINDIRECT
  {
    match p
    case IndEntry(j) => j
    case DblTable(j) => j
    case DblEntry(j, k) => k
  }

  lemma PtrIsEntry(v: Volume, r: Ref)
    requires RefOk(v, r) && InodesOk(v) && (r.place.IndEntry? || r.place.DblTable? || r.place.DblEntry?)
    ensures PtrAt(v, r) == Entry(v, PtrAt(v, Ref(r.ino, TablePlace(r.place))), TableSlot(r.place))
  {
  }

  function WithEntry(v: Volume, t: nat, j: nat, b: Word): (v': Volume)
    requires t < |v.disk| && j < NINDIRECT
    ensures |v'.disk| == |v.disk| && v'.inodes == v.inodes
    ensures forall u: nat, k: nat :: k < NINDIRECT && 0 < t ==>
        Entry(v', u, k) == if u == t && k == j then b else Entry(v, u, k)
  {
    v.(disk := v.disk[t := Block(PutWord(v.disk[t].bytes, j, b))])
  }

  /** Storing a zeroed block in an empty entry of a table. */
  lemma LinkEntry(g: Geometry, v: Volume, owner: map<nat, Ref>, held: set<nat>, at: Ref, t: nat, b: nat)
    requires Owned(g, v, owner, held) && b in held && RefOk(v, at)
    requires (at.place.IndEntry? || at.place.DblTable? || at.place.DblEntry?)
    requires PtrAt(v, at) == 0 && v.disk[b] == ZEROBLOCK && t == PtrAt(v, Ref(at.ino, TablePlace(at.place)))
    requires 0 < t < g.size
    ensures Linked(v, WithEntry(v, t, TableSlot(at.place), b), at, b)
  {
    hide PtrAt, Entry, BitOk, WithEntry;
    forall r
      ensures PtrAt(WithEntry(v, t, TableSlot(at.place), b), r) == if r == at then b else PtrAt(v, r)
    {
      LinkEntryAt(g, v, owner, held, at, t, b, r);
    }
  }

  lemma {:induction false} LinkEntryAt(g: Geometry, v: Volume, owner: map<nat, Ref>, held: set<nat>, at: Ref, t: nat,
                                       b: nat, r: Ref)
    requires Owned(g, v, owner, held) && b in held && RefOk(v, at)
    requires (at.place.IndEntry? || at.place.DblTable? || at.place.DblEntry?)
    requires PtrAt(v, at) == 0 && v.disk[b] == ZEROBLOCK && t == PtrAt(v, Ref(at.ino, TablePlace(at.place)))
    requires 0 < t < g.size
    ensures PtrAt(WithEntry(v, t, TableSlot(at.place), b), r) == if r == at then b else PtrAt(v, r)
    decreases if r.place.DblEntry? then 2 else if r.place.DblTable? || r.place.IndEntry? then 1 else 0
  {
    hide BitOk, OwnedOk, WithEntry, Entry, PtrAt;
    var v' := WithEntry(v, t, TableSlot(at.place), b);
    if !RefOk(v, r) || r.place.Direct? || r.place.Ind? || r.place.Dbl? {
      NoPtr(v, v', r);
      return;
    }
    var tr := Ref(r.ino, TablePlace(r.place));
    LinkEntryAt(g, v, owner, held, at, t, b, tr);
    PtrIsEntry(v, r);
    PtrIsEntry(v', r);
    PtrIsEntry(v, at);
    ZeroEntries(v, b);
    NoEntries(v, TableSlot(r.place));
    assert PointsOk(v, owner, Ref(at.ino, TablePlace(at.place))) && PointsOk(v, owner, tr);
  }

  lemma NoPtr(v: Volume, v': Volume, r: Ref)
    requires v'.inodes == v.inodes && (!RefOk(v, r) || r.place.Direct? || r.place.Ind? || r.place.Dbl?)
    ensures PtrAt(v', r) == PtrAt(v, r)
  {
  }

  lemma NoEntries(v: Volume, j: nat)
    requires j < NINDIRECT
    ensures Entry(v, 0, j) == 0
  {
  }

  // ------------------------------------------------- the blocks of a file

  /** The words of the table in block t; no table, no entries. */
  function TableWords(v: Volume, t: nat): (s: seq<Word>)
    ensures |s| == NINDIRECT && forall j: nat :: j < NINDIRECT ==> s[j] == Entry(v, t, j)
  {
    seq(NINDIRECT, j requires 0 <= j < NINDIRECT => Entry(v, t, j))
  }

  /** The words of one table after the other. */
  function Listed(v: Volume, tables: seq<Word>): (s: seq<Word>)
    ensures |s| == NINDIRECT * |tables|
  {
    if tables == [] then [] else TableWords(v, tables[0]) + Listed(v, tables[1..])
  }

  /** All block numbers of a file in order: its direct ones, the indirect block's, those of the tables of the last. */
  function FileBlocks(v: Volume, ino: nat): (s: seq<Word>)
    ensures |s| == MAXFILE
  {
    if ino !in v.inodes || |v.inodes[ino].addrs| != NDIRECT + 2 then seq(MAXFILE, _ => 0) else
      var a := v.inodes[ino].addrs;
      a[..NDIRECT] + TableWords(v, a[NDIRECT]) + Listed(v, TableWords(v, a[NDIRECT + 1]))
  }

  lemma {:induction false} ListedAt(v: Volume, tables: seq<Word>, j: nat, k: nat)
    requires j < |tables| && k < NINDIRECT
    ensures NINDIRECT * j + k < NINDIRECT * |tables| && Listed(v, tables)[NINDIRECT * j + k] == Entry(v, tables[j], k)
  {
    hide Entry;
    if j > 0 {
      ListedAt(v, tables[1..], j - 1, k);
    }
  }
}
