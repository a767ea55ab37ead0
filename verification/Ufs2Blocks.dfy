/**
 Which UFS2 blocks belong to which file (kern/ufs2.c): allocation hands out blocks
 that are wholly free, every live block has one owner, and data blocks, maps and
 metadata never overlap in the volume's bytes.
 */
module Ufs2Blocks {
  import opened Arith
  import opened Bytes
  import opened Bitmap
  import Blockdev
  import opened Ufs2Maps
  import opened Basics

  const DIRECTS: nat := 12  // UFS2_DIRECT_BLOCKS

  /** struct ufs2_inode, as far as file contents go. */
  datatype Inode = Inode(size: nat, direct: seq<nat>)
  datatype Ref = Ref(ino: nat, i: nat)
  datatype Disk = Disk(v: seq<Byte>, inodes: map<nat, Inode>)

  // ------------------------------------------------------------ arithmetic

  /** The bytes of a block lie in its fragments. */
  lemma InBlock(u: Ufs, f: nat, j: nat)
    requires UfsOk(u) && j < u.bsize
    ensures f <= FragOf(f * u.fsize + j, u.fsize) < f + u.fpb
  {
    hide BitOk;
    Distribute(f, u.fpb, u.fsize);
    Between(f * u.fsize + j, f, f + u.fpb, u.fsize);
  }

  lemma Aligned(u: Ufs, f: nat, q: nat)
    requires u.fpb > 0 && f % u.fpb == 0 && f <= q < f + u.fpb
    ensures f == q / u.fpb * u.fpb
  {
    var c := f / u.fpb;
    assert f == c * u.fpb;
    DivIs(c, q - f, u.fpb);
  }

  /** Different blocks share no byte. */
  lemma BlocksApart(u: Ufs, f: nat, h: nat, i: nat, j: nat)
    requires UfsOk(u) && f % u.fpb == 0 && h % u.fpb == 0 && i < u.bsize && j < u.bsize
    requires f * u.fsize + i == h * u.fsize + j
    ensures f == h && i == j
  {
    hide BitOk;
    InBlock(u, f, i);
    InBlock(u, h, j);
    var q := FragOf(f * u.fsize + i, u.fsize);
    Aligned(u, f, q);
    Aligned(u, h, q);
  }

  /** Bit bit of group g is fragment g * fpg + bit. */
  lemma FragmentBit(u: Ufs, g: nat, bit: nat)
    requires bit < u.fpg
    ensures GroupOf(g * u.fpg + bit, u.fpg) == g && BitIn(g * u.fpg + bit, u.fpg) == bit
  {
    DivIs(g, bit, u.fpg);
  }

  /** Blocks within a group start at multiples of fpb. */
  lemma GroupAligned(u: Ufs, g: nat, q: nat)
    requires u.fpb > 0 && u.fpg % u.fpb == 0
    ensures (g * u.fpg + q * u.fpb) % u.fpb == 0
  {
    var k := u.fpg / u.fpb;
    assert u.fpg == k * u.fpb;
    Regroup(g, k, u.fpb);
    Distribute(g * k, q, u.fpb);
    DivIs(g * k + q, 0, u.fpb);
  }

  // ------------------------------------------------------------- map bits

  lemma SameGroup(u: Ufs, g: nat, bit: nat, f: nat)
    requires u.fpg > 0 && bit + u.fpb <= u.fpg
    ensures g * u.fpg + bit <= f < g * u.fpg + bit + u.fpb <==>
        GroupOf(f, u.fpg) == g && bit <= BitIn(f, u.fpg) < bit + u.fpb
  {
    assert f == f / u.fpg * u.fpg + f % u.fpg;
    if g * u.fpg + bit <= f < g * u.fpg + bit + u.fpb {
      FragmentBit(u, g, f - g * u.fpg);
    }
  }

  /** Setting the bits of one block frees or allocates exactly its fragments. */
  lemma SetBlockFree(u: Ufs, v: seq<Byte>, g: nat, bit: nat, free: bool, f: nat)
    requires UfsOk(u) && |v| == u.size && HasBit(u, g, bit + u.fpb - 1) && u.maps[g].off + (bit + u.fpb - 1) / 8 < |v|
    ensures var w := SetRange(v, u.maps[g].off, bit, u.fpb, free);
            Free(u, w, f) == if g * u.fpg + bit <= f < g * u.fpg + bit + u.fpb then free else Free(u, v, f)
  {
    hide SetRange, UfsOk, FreeAt, GroupOf, BitIn;
    Positive(u);
    HasByte(u, g, bit + u.fpb - 1);
    SameGroup(u, g, bit, f);
    BitOfBlock(u, v, g, bit, free, GroupOf(f, u.fpg), BitIn(f, u.fpg));
  }

  lemma Positive(u: Ufs)
    requires UfsOk(u)
    ensures u.fsize > 0 && u.fpb > 0 && u.fpg > 0
  {
  }

  lemma UfsBasics(u: Ufs)
    requires UfsOk(u)
    ensures u.fsize > 0 && u.fpb > 0 && u.fpg > 0 && u.bsize == u.fpb * u.fsize && u.bsize > 0 && 0 in u.meta
    ensures u.fpg % u.fpb == 0
  {
  }

  lemma BitOfBlock(u: Ufs, v: seq<Byte>, g: nat, bit: nat, free: bool, h: nat, b: nat)
    requires UfsOk(u) && |v| == u.size && u.fpb > 0 && HasBit(u, g, bit + u.fpb - 1)
    requires u.maps[g].off + (bit + u.fpb - 1) / 8 < |v|
    ensures FreeAt(u, SetRange(v, u.maps[g].off, bit, u.fpb, free), h, b) ==
            if h == g && bit <= b < bit + u.fpb then free else FreeAt(u, v, h, b)
  {
    hide SetRange, UfsOk;
    if HasBit(u, h, b) {
      HasByte(u, h, b);
      SetRangeFree(u, v, g, bit, u.fpb, free, h, b);
    }
  }

  lemma UfsBit(u: Ufs, g: nat, bit: nat)
    requires UfsOk(u)
    ensures BitOk(u, g, bit)
  {
  }

  lemma HasByte(u: Ufs, g: nat, bit: nat)
    requires UfsOk(u) && HasBit(u, g, bit)
    ensures MapByte(u, g, bit) < u.size && FragOf(MapByte(u, g, bit), u.fsize) in u.meta
    ensures (g * u.fpg + bit + 1) * u.fsize <= u.size
    ensures bit < u.fpg
  {
    UfsBit(u, g, bit);
  }

  lemma SetBlockBit(u: Ufs, v: seq<Byte>, g: nat, bit: nat, free: bool, k: nat, j: nat)
    requires UfsOk(u) && |v| == u.size && HasBit(u, g, bit + u.fpb - 1) && u.maps[g].off + (bit + u.fpb - 1) / 8 < |v|
    requires k < |v| && FragOf(k, u.fsize) !in u.meta && j < 8
    ensures Bit(SetRange(v, u.maps[g].off, bit, u.fpb, free)[k], j) == Bit(v[k], j)
  {
    hide SetRange, UfsOk, Bit;
    SetRangeBit(v, u.maps[g].off, bit, u.fpb, free, k, j);
    if u.maps[g].off <= k && bit <= (k - u.maps[g].off) * 8 + j < bit + u.fpb {
      HasByte(u, g, (k - u.maps[g].off) * 8 + j);
    }
  }

  /** Map bits are metadata: no byte of another fragment changes. */
  lemma SetBlockData(u: Ufs, v: seq<Byte>, g: nat, bit: nat, free: bool, k: nat)
    requires UfsOk(u) && |v| == u.size && HasBit(u, g, bit + u.fpb - 1) && u.maps[g].off + (bit + u.fpb - 1) / 8 < |v|
    requires k < |v| && FragOf(k, u.fsize) !in u.meta
    ensures SetRange(v, u.maps[g].off, bit, u.fpb, free)[k] == v[k]
  {
    hide SetRange, UfsOk;
    var w := SetRange(v, u.maps[g].off, bit, u.fpb, free);
    forall j: nat | j < 8
      ensures Bit(w[k], j) == Bit(v[k], j)
    {
      SetBlockBit(u, v, g, bit, free, k, j);
    }
    SameByte(w[k], v[k]);
  }

  // ------------------------------------------------------------ ownership

  /** Block f is aligned, inside the volume, no metadata, and none of its fragments is free. */
  predicate BlockOk(u: Ufs, v: seq<Byte>, f: nat)
    requires u.fpb > 0 && u.fpg > 0
  {
    && f % u.fpb == 0 && f * u.fsize + u.bsize <= |v|
    && forall q :: f <= q < f + u.fpb ==> !Free(u, v, q) && q !in u.meta
  }

  /** The map of f's group covers the whole block. */
  predicate IsMapped(u: Ufs, f: nat)
    requires u.fpg > 0 && u.fpb > 0
  {
    HasBit(u, GroupOf(f, u.fpg), BitIn(f, u.fpg) + u.fpb - 1)
  }

  predicate RefOk(d: Disk, r: Ref) {
    r.ino in d.inodes && r.i < DIRECTS && |d.inodes[r.ino].direct| == DIRECTS
  }

  function PtrAt(d: Disk, r: Ref): nat {
    if RefOk(d, r) then d.inodes[r.ino].direct[r.i] else 0
  }

  predicate OwnedOk(u: Ufs, d: Disk, owner: map<nat, Ref>, f: nat)
    requires u.fpb > 0 && u.fpg > 0 && f in owner
  {
    f != 0 && BlockOk(u, d.v, f) && IsMapped(u, f) && PtrAt(d, owner[f]) == f
  }

  predicate PointsOk(d: Disk, owner: map<nat, Ref>, r: Ref) {
    PtrAt(d, r) != 0 ==> PtrAt(d, r) in owner && owner[PtrAt(d, r)] == r
  }

  /** Every live block has one owner; free fragments are nobody's and no metadata. */
  ghost predicate Owned(u: Ufs, d: Disk, owner: map<nat, Ref>) {
    && UfsOk(u) && |d.v| == u.size
    && (forall q: nat :: Free(u, d.v, q) ==> q !in u.meta)
    && (forall f :: f in owner ==> OwnedOk(u, d, owner, f))
    && (forall r :: PointsOk(d, owner, r))
    && forall n :: n in d.inodes ==> |d.inodes[n].direct| == DIRECTS
  }

  /** A block whose fragments are all free, so nobody's. */
  ghost predicate WhollyFree(u: Ufs, v: seq<Byte>, f: nat)
    requires u.fpg > 0
  {
    forall q: nat :: f <= q < f + u.fpb ==> Free(u, v, q)
  }

  lemma FreeIsNobodys(u: Ufs, d: Disk, owner: map<nat, Ref>, f: nat)
    requires Owned(u, d, owner) && WhollyFree(u, d.v, f)
    ensures f !in owner && f != 0 && f !in u.meta
  {
    hide UfsOk, Free, PtrAt;
    UfsBasics(u);
    assert Free(u, d.v, f);
    assert f in owner ==> OwnedOk(u, d, owner, f);
  }

  /** The volume with block f allocated: its map bits cleared. */
  ghost predicate Allocated(u: Ufs, v: seq<Byte>, w: seq<Byte>, f: nat, free: bool)
    requires u.fpg > 0 && u.fsize > 0
  {
    && |w| == |v|
    && (forall q: nat :: Free(u, w, q) == if f <= q < f + u.fpb then free else Free(u, v, q))
    && forall k: nat :: k < |v| && FragOf(k, u.fsize) !in u.meta ==> w[k] == v[k]
  }

  lemma SetBlock(u: Ufs, v: seq<Byte>, g: nat, bit: nat, free: bool)
    requires UfsOk(u) && |v| == u.size && HasBit(u, g, bit + u.fpb - 1) && u.maps[g].off + (bit + u.fpb - 1) / 8 < |v|
    ensures u.fpg > 0 && Allocated(u, v, SetRange(v, u.maps[g].off, bit, u.fpb, free), g * u.fpg + bit, free)
  {
    hide UfsOk, Free, SetRange, FragOf;
    Positive(u);
    var w := SetRange(v, u.maps[g].off, bit, u.fpb, free);
    forall q: nat
      ensures Free(u, w, q) == if g * u.fpg + bit <= q < g * u.fpg + bit + u.fpb then free else Free(u, v, q)
    {
      SetBlockFree(u, v, g, bit, free, q);
    }
    forall k: nat | k < |v| && FragOf(k, u.fsize) !in u.meta
      ensures w[k] == v[k]
    {
      SetBlockData(u, v, g, bit, free, k);
    }
  }

  // ------------------------------------------------- allocating, freeing

  lemma InMap(u: Ufs, g: nat, bit: nat, i: nat)
    requires UfsOk(u) && i < u.fpb && HasBit(u, g, bit + u.fpb - 1)
    ensures HasBit(u, g, bit + i) && u.maps[g].off + (bit + i) / 8 < u.size && bit + u.fpb <= u.fpg
  {
    hide UfsOk;
    HasByte(u, g, bit + i);
    HasByte(u, g, bit + u.fpb - 1);
  }

  lemma BitIsFree(u: Ufs, v: seq<Byte>, g: nat, bit: nat)
    requires UfsOk(u) && |v| == u.size && HasBit(u, g, bit) && u.maps[g].off + bit / 8 < u.size
    ensures u.fpg > 0 && (Free(u, v, g * u.fpg + bit) <==> Bit(v[u.maps[g].off + bit / 8], bit % 8))
  {
    hide UfsOk, GroupOf, BitIn;
    Positive(u);
    HasByte(u, g, bit);
    FragmentBit(u, g, bit);
  }

  /** The store has the bytes of the volume. */
  ghost predicate Holds(u: Ufs, s: Blockdev.Store)
    reads s.dev
  {
    s.Valid() && s.size == u.size
  }

  lemma HoldsBytes(u: Ufs, s: Blockdev.Store)
    requires Holds(u, s)
    ensures |s.Bytes()| == u.size
  {
    hide Blockdev.ByteAt;
  }

  /** alloc_block's test of one block. */
  method IsWhollyFree(u: Ufs, s: Blockdev.Store, g: nat, bit: nat) returns (r: bool)
    requires UfsOk(u) && Holds(u, s) && HasBit(u, g, bit + u.fpb - 1)
    ensures u.fpg > 0 && (r <==> WhollyFree(u, s.Bytes(), g * u.fpg + bit))
  {
    hide UfsOk, Free;
    Positive(u);
    ghost var v := s.Bytes();
    HoldsBytes(u, s);
    var i := 0;
    while i < u.fpb
      invariant 0 <= i <= u.fpb
      invariant forall q: nat :: g * u.fpg + bit <= q < g * u.fpg + bit + i ==> Free(u, v, q)
    {
      InMap(u, g, bit, i);
      BitIsFree(u, v, g, bit + i);
      var value := s.Get(u.maps[g].off + (bit + i) / 8, 1);
      if !Bit(value[0], (bit + i) % 8) {
        assert !Free(u, v, g * u.fpg + bit + i);
        return false;
      }
      i := i + 1;
    }
    r := true;
  }

  /** The bits of the block at bit of group g, and no others, are set to free. */
  ghost predicate BitsSet(u: Ufs, v: seq<Byte>, w: seq<Byte>, g: nat, bit: nat, free: bool) {
    && u.fpb > 0 && u.fpg > 0 && u.fsize > 0 && HasBit(u, g, bit + u.fpb - 1)
    && u.maps[g].off + (bit + u.fpb - 1) / 8 < |v| && w == SetRange(v, u.maps[g].off, bit, u.fpb, free)
    && Allocated(u, v, w, g * u.fpg + bit, free)
  }

  /** ufs2_set_fragment for the fragments of one block. */
  method SetFragments(u: Ufs, s: Blockdev.Store, g: nat, bit: nat, free: bool)
    requires UfsOk(u) && Holds(u, s) && HasBit(u, g, bit + u.fpb - 1)
    modifies s.dev
    ensures Holds(u, s) && BitsSet(u, old(s.Bytes()), s.Bytes(), g, bit, free)
  {
    hide UfsOk, Free, Allocated, SetRange, Blockdev.Reaches, Blockdev.Store.Bytes;
    Positive(u);
    HoldsBytes(u, s);
    InMap(u, g, bit, u.fpb - 1);
    SetBits(s, u.maps[g].off, bit, u.fpb, free);
    SetBlock(u, old(s.Bytes()), g, bit, free);
  }

  method SetBits(s: Blockdev.Store, off: nat, bit: nat, n: nat, free: bool)
    requires s.Valid() && n > 0 && off + (bit + n - 1) / 8 < s.size
    modifies s.dev
    ensures s.Valid() && |s.Bytes()| == |old(s.Bytes())| == s.size
    ensures s.Bytes() == SetRange(old(s.Bytes()), off, bit, n, free)
  {
    hide SetRange, ByteWithBit, Blockdev.Reaches, Blockdev.Store.Bytes, Splice;
    assert |s.Bytes()| == s.size by { StoreSize(s); }
    ghost var v := s.Bytes();
    NoneSet(v, off, bit, free);
    var i := 0;
    while i < n
      invariant 0 <= i <= n && off + (bit + n - 1) / 8 < |v| == s.size && s.Valid()
      invariant s.Bytes() == SetRange(v, off, bit, i, free)
    {
      var k := off + (bit + i) / 8;
      OneMoreSet(v, off, bit, i, free);
      ghost var w := s.Bytes();
      var value := s.Get(k, 1);
      s.Put(k, [ByteWithBit(value[0], (bit + i) % 8, free)]);
      SpliceOne(w, k, ByteWithBit(value[0], (bit + i) % 8, free));
      i := i + 1;
    }
  }

  lemma StoreSize(s: Blockdev.Store)
    requires s.Valid()
    ensures |s.Bytes()| == s.size
  {
    hide Blockdev.ByteAt;
  }

  lemma SpliceOne(w: seq<Byte>, k: nat, b: Byte)
    requires k < |w|
    ensures Splice(w, k, [b]) == w[k := b]
  {
  }

  lemma NoneSet(v: seq<Byte>, off: nat, bit: nat, free: bool)
    ensures SetRange(v, off, bit, 0, free) == v
  {
  }

  lemma OneMoreSet(v: seq<Byte>, off: nat, bit: nat, i: nat, free: bool)
    requires off + (bit + i) / 8 < |v|
    ensures var w, k := SetRange(v, off, bit, i, free), off + (bit + i) / 8;
            SetRange(v, off, bit, i + 1, free) == w[k := ByteWithBit(w[k], (bit + i) % 8, free)]
  {
  }

  /** Where the blocks of group g start. */
  predicate IsSlot(u: Ufs, g: nat, q: nat) {
    u.fpb > 0 && HasBit(u, g, q * u.fpb + u.fpb - 1)
  }

  /** No block of group g is wholly free. */
  ghost predicate NoneIn(u: Ufs, v: seq<Byte>, g: nat)
    requires u.fpg > 0
  {
    forall q: nat :: IsSlot(u, g, q) ==> !WhollyFree(u, v, g * u.fpg + q * u.fpb)
  }

  /** No block of the volume is wholly free. */
  ghost predicate NoBlock(u: Ufs, v: seq<Byte>)
    requires u.fpg > 0
  {
    forall g: nat :: NoneIn(u, v, g)
  }

  lemma NoMap(u: Ufs, v: seq<Byte>, g: nat)
    requires u.fpg > 0 && (g >= |u.maps| || !u.maps[g].CgMap?)
    ensures NoneIn(u, v, g)
  {
  }

  lemma NoGroup(u: Ufs, v: seq<Byte>)
    requires u.fpg > 0 && forall g: nat :: g < |u.maps| ==> NoneIn(u, v, g)
    ensures NoBlock(u, v)
  {
    hide NoneIn;
    forall g: nat
      ensures NoneIn(u, v, g)
    {
      if g >= |u.maps| { NoMap(u, v, g); }
    }
  }

  lemma MappedThere(u: Ufs, g: nat, bit: nat)
    requires UfsOk(u) && u.fpg > 0 && u.fpb > 0 && HasBit(u, g, bit + u.fpb - 1)
    ensures IsMapped(u, g * u.fpg + bit)
  {
    hide UfsOk;
    InMap(u, g, bit, 0);
    FragmentBit(u, g, bit);
  }

  /** ufs2_alloc_block: the first block whose fragments are all free, now allocated. */
  method AllocBlock(u: Ufs, s: Blockdev.Store) returns (r: Option<nat>)
    requires UfsOk(u) && Holds(u, s)
    modifies s.dev
    ensures Holds(u, s) && u.fpg > 0 && u.fsize > 0
    ensures r.None? ==> s.Bytes() == old(s.Bytes()) && NoBlock(u, s.Bytes())
    ensures r.Some? ==> && u.fpb > 0 && r.value % u.fpb == 0 && r.value * u.fsize + u.bsize <= u.size
                        && WhollyFree(u, old(s.Bytes()), r.value) && IsMapped(u, r.value)
                        && Allocated(u, old(s.Bytes()), s.Bytes(), r.value, false)
  {
    hide UfsOk, WhollyFree, Allocated, Free, NoneIn, NoBlock, IsMapped, Blockdev.Reaches, Blockdev.Store.Bytes;
    Positive(u);
    ghost var v := s.Bytes();
    for g := 0 to |u.maps|
      invariant Holds(u, s) && s.Bytes() == v
      invariant forall h: nat :: h < g ==> NoneIn(u, v, h)
    {
      if u.maps[g].CgMap? {
        var found := InGroup(u, s, g);
        if found.Some? {
          SetFragments(u, s, g, found.value, false);
          MappedThere(u, g, found.value);
          r := Some(g * u.fpg + found.value);
          return;
        }
      } else {
        NoMap(u, v, g);
      }
    }
    NoGroup(u, v);
    r := None;
  }

  /** The scan of one group. */
  method InGroup(u: Ufs, s: Blockdev.Store, g: nat) returns (r: Option<nat>)
    requires UfsOk(u) && Holds(u, s) && g < |u.maps| && u.maps[g].CgMap?
    ensures u.fpg > 0
    ensures r.None? ==> NoneIn(u, s.Bytes(), g)
    ensures r.Some? ==> && HasBit(u, g, r.value + u.fpb - 1) && WhollyFree(u, s.Bytes(), g * u.fpg + r.value)
                        && u.fpb > 0 && (g * u.fpg + r.value) % u.fpb == 0
                            && (g * u.fpg + r.value) * u.fsize + u.bsize <= u.size
  {
    hide UfsOk, WhollyFree, Free, Blockdev.Reaches, Blockdev.Store.Bytes;
    Positive(u);
    ghost var v := s.Bytes();
    var bit: nat := 0;
    ghost var q: nat := 0;
    while bit + u.fpb <= u.maps[g].entries
      invariant bit == q * u.fpb
      invariant forall p: nat :: p < q && IsSlot(u, g, p) ==> !WhollyFree(u, v, g * u.fpg + p * u.fpb)
      decreases u.maps[g].entries - bit
    {
      var free := IsWhollyFree(u, s, g, bit);
      if free {
        BlockPlace(u, g, q);
        return Some(bit);
      }
      bit := bit + u.fpb;
      q := q + 1;
      assert q * u.fpb == bit by { Distribute(q - 1, 1, u.fpb); }
    }
    forall p: nat | IsSlot(u, g, p)
      ensures !WhollyFree(u, v, g * u.fpg + p * u.fpb)
    {
      if p >= q { MulMono(q, p, u.fpb); }
    }
    r := None;
  }

  lemma BlockPlace(u: Ufs, g: nat, q: nat)
    requires UfsOk(u) && HasBit(u, g, q * u.fpb + u.fpb - 1)
    ensures u.fpb > 0 && (g * u.fpg + q * u.fpb) % u.fpb == 0 && (g * u.fpg + q * u.fpb) * u.fsize + u.bsize <= u.size
  {
    hide UfsOk;
    UfsBasics(u);
    GroupAligned(u, g, q);
    HasByte(u, g, q * u.fpb + u.fpb - 1);
    Distribute(g * u.fpg + q * u.fpb, u.fpb, u.fsize);
  }

  /** ufs2_free_block: false is -1, with nothing changed; otherwise exactly the block's fragments are free. */
  method FreeBlock(u: Ufs, s: Blockdev.Store, f: nat) returns (ok: bool)
    requires UfsOk(u) && Holds(u, s)
    modifies s.dev
    ensures Holds(u, s) && u.fpg > 0 && u.fpb > 0 && u.fsize > 0
    ensures ok <==> f % u.fpb == 0 && IsMapped(u, f)
    ensures if ok then Allocated(u, old(s.Bytes()), s.Bytes(), f, true) else s.Bytes() == old(s.Bytes())
    ensures ok ==> BitsSet(u, old(s.Bytes()), s.Bytes(), GroupOf(f, u.fpg), BitIn(f, u.fpg), true)
  {
    hide UfsOk, Allocated, GroupOf, BitIn, SetRange, Blockdev.Reaches, Blockdev.Store.Bytes;
    Positive(u);
    var g, bit := GroupOf(f, u.fpg), BitIn(f, u.fpg);
    if f % u.fpb != 0 || !HasBit(u, g, bit + u.fpb - 1) {
      return false;
    }
    Compose(u, f);
    SetFragments(u, s, g, bit, true);
    ok := true;
  }

  lemma Compose(u: Ufs, f: nat)
    requires u.fpg > 0
    ensures f == GroupOf(f, u.fpg) * u.fpg + BitIn(f, u.fpg)
  {
  }

  // --------------------------------------------- what they do to ownership

  /** A block linked at an empty place. */
  lemma LinkOwned(u: Ufs, d: Disk, owner: map<nat, Ref>, e: Disk, at: Ref, f: nat)
    requires Owned(u, d, owner) && u.fpg > 0 && u.fpb > 0 && u.fsize > 0 && RefOk(d, at) && PtrAt(d, at) == 0
    requires f % u.fpb == 0 && f * u.fsize + u.bsize <= u.size && WhollyFree(u, d.v, f) && IsMapped(u, f)
    requires |e.v| == u.size
    requires forall q: nat :: Free(u, e.v, q) == if f <= q < f + u.fpb then false else Free(u, d.v, q)
    requires e.inodes == d.inodes[at.ino := Inode(d.inodes[at.ino].size, d.inodes[at.ino].direct[at.i := f])]
    ensures f !in owner && Owned(u, e, owner[f := at])
  {
    hide UfsOk, Free;
    FreeIsNobodys(u, d, owner, f);
    var owner' := owner[f := at];
    forall h | h in owner'
      ensures OwnedOk(u, e, owner', h)
    {
      if h != f {
        assert OwnedOk(u, d, owner, h);
      } else {
        assert forall q: nat :: f <= q < f + u.fpb ==> Free(u, d.v, q);
      }
    }
    forall r
      ensures PointsOk(e, owner', r)
    {
      assert PointsOk(d, owner, r);
    }
  }

  lemma BlockParts(u: Ufs, v: seq<Byte>, f: nat)
    requires u.fpg > 0 && u.fpb > 0 && BlockOk(u, v, f)
    ensures f % u.fpb == 0 && f * u.fsize + u.bsize <= |v| && forall q: nat :: f <= q < f + u.fpb ==> q !in u.meta
  {
  }

  /** Freeing block f leaves the fragments of another block as they are. */
  lemma StillBlock(u: Ufs, v: seq<Byte>, w: seq<Byte>, f: nat, h: nat)
    requires u.fpg > 0 && u.fpb > 0 && f % u.fpb == 0 && f != h && BlockOk(u, v, h) && |w| == |v|
    requires forall q: nat :: Free(u, w, q) == if f <= q < f + u.fpb then true else Free(u, v, q)
    ensures BlockOk(u, w, h)
  {
    hide Free;
    forall q: nat | h <= q < h + u.fpb
      ensures !Free(u, w, q) && q !in u.meta
    {
      assert !Free(u, v, q);
      Elsewhere(u, f, h, q);
    }
  }

  lemma Elsewhere(u: Ufs, f: nat, h: nat, q: nat)
    requires u.fpb > 0 && f % u.fpb == 0 && h % u.fpb == 0 && f != h && h <= q < h + u.fpb
    ensures !(f <= q < f + u.fpb)
  {
    Aligned(u, h, q);
    if f <= q < f + u.fpb {
      Aligned(u, f, q);
    }
  }

  /** A block taken from its place and freed. */
  lemma UnlinkOwned(u: Ufs, d: Disk, owner: map<nat, Ref>, e: Disk, at: Ref, f: nat)
    requires Owned(u, d, owner) && u.fpg > 0 && u.fpb > 0 && u.fsize > 0 && RefOk(d, at) && PtrAt(d, at) == f != 0
    requires |e.v| == u.size && forall q: nat :: Free(u, e.v, q) == if f <= q < f + u.fpb then true else Free(u, d.v, q)
    requires e.inodes.Keys == d.inodes.Keys
    requires forall n :: n in d.inodes ==>
        e.inodes[n].direct == if n == at.ino then d.inodes[n].direct[at.i := 0] else d.inodes[n].direct
    ensures f in owner && Owned(u, e, owner - {f})
  {
    hide UfsOk, Free, BlockOk;
    assert PointsOk(d, owner, at);
    assert OwnedOk(u, d, owner, f);
    BlockParts(u, d.v, f);
    var owner' := owner - {f};
    forall q: nat | Free(u, e.v, q)
      ensures q !in u.meta
    {
      if !(f <= q < f + u.fpb) {
        assert Free(u, d.v, q);
      }
    }
    forall h | h in owner'
      ensures OwnedOk(u, e, owner', h)
    {
      assert OwnedOk(u, d, owner, h);
      StillBlock(u, d.v, e.v, f, h);
    }
    forall r
      ensures PointsOk(e, owner', r)
    {
      assert PointsOk(d, owner, r);
    }
  }
}
