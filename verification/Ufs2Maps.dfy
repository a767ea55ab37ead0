/**
 UFS2 fragment bitmaps (kern/ufs2.c): ufs2_set_fragment, ufs2_alloc_block and
 ufs2_free_block on the flat bytes of a volume. A one bit is a free fragment.
 */
module Ufs2Maps {
  import opened Bytes
  import opened Bitmap

  /** What ufs2_cg_free_map finds in a cylinder group's header: nothing usable, or where its map is. */
  datatype CgMap = NoMap | CgMap(off: nat, entries: nat)

  /** The volume's shape; meta are the fragments that hold headers, maps, inodes and the boot area. */
  datatype Ufs = Ufs(fsize: nat, fpb: nat, bsize: nat, fpg: nat, maps: seq<CgMap>, size: nat, meta: set<nat>)

  predicate HasBit(u: Ufs, g: nat, bit: nat) {
    g < |u.maps| && u.maps[g].CgMap? && bit < u.maps[g].entries
  }

  /** The byte of the volume that holds bit of group g. */
  function MapByte(u: Ufs, g: nat, bit: nat): nat
    requires HasBit(u, g, bit)
  {
    u.maps[g].off + bit / 8
  }

  /** The fragment of a byte of the volume. */
  function FragOf(k: nat, fsize: nat): nat
    requires fsize > 0
  {
    k / fsize
  }

  /** Map bytes lie in metadata fragments; fragments lie in the volume. */
  predicate BitOk(u: Ufs, g: nat, bit: nat)
    requires u.fsize > 0
  {
    HasBit(u, g, bit) ==>
      && MapByte(u, g, bit) < u.size && FragOf(MapByte(u, g, bit), u.fsize) in u.meta
      && (g * u.fpg + bit + 1) * u.fsize <= u.size
  }

  /** The maps of two groups share no byte. */
  predicate MapsApart(u: Ufs, g: nat, h: nat)
    requires g < |u.maps| && h < |u.maps|
  {
    u.maps[g].CgMap? && u.maps[h].CgMap? ==>
      || u.maps[g].off + (u.maps[g].entries + 7) / 8 <= u.maps[h].off
      || u.maps[h].off + (u.maps[h].entries + 7) / 8 <= u.maps[g].off
  }

  ghost predicate UfsOk(u: Ufs) {
    && u.fsize > 0 && u.fpb > 0 && u.fpg > 0 && u.fpg % u.fpb == 0 && u.bsize == u.fpb * u.fsize && u.bsize > 0
        && u.bsize % 512 == 0 && u.bsize <= 65536 && 0 in u.meta
    && (forall g :: 0 <= g < |u.maps| && u.maps[g].CgMap? ==> u.maps[g].entries <= u.fpg)
    && (forall g: nat, bit: nat :: BitOk(u, g, bit))
    && forall g, h :: 0 <= g < h < |u.maps| ==> MapsApart(u, g, h)
  }

  predicate FreeBit(u: Ufs, v: seq<Byte>, g: nat, bit: nat)
    requires HasBit(u, g, bit) && MapByte(u, g, bit) < |v|
  {
    Bit(v[MapByte(u, g, bit)], bit % 8)
  }

  /** The group of a fragment and its bit there. */
  function GroupOf(f: nat, fpg: nat): nat
    requires fpg > 0
  {
    f / fpg
  }

  function BitIn(f: nat, fpg: nat): (b: nat)
    requires fpg > 0
    ensures b < fpg
  {
    f % fpg
  }

  predicate FreeAt(u: Ufs, v: seq<Byte>, g: nat, bit: nat) {
    HasBit(u, g, bit) && MapByte(u, g, bit) < |v| && FreeBit(u, v, g, bit)
  }

  /** Fragment f is marked free in its group's map. */
  predicate Free(u: Ufs, v: seq<Byte>, f: nat)
    requires u.fpg > 0
  {
    FreeAt(u, v, GroupOf(f, u.fpg), BitIn(f, u.fpg))
  }

  // ----------------------------------------------------- setting map bits

  /** ufs2_set_fragment on n bits from bit on, in a map at off. */
  function SetRange(v: seq<Byte>, off: nat, bit: nat, n: nat, free: bool): (r: seq<Byte>)
    requires n > 0 ==> off + (bit + n - 1) / 8 < |v|
    ensures |r| == |v|
  {
    if n == 0 then v else
      var w := SetRange(v, off, bit, n - 1, free);
      var k := off + (bit + n - 1) / 8;
      w[k := ByteWithBit(w[k], (bit + n - 1) % 8, free)]
  }

  /** Exactly the bits [bit, bit + n) of the map are set; every other bit of the volume is as before. */
  lemma {:induction false} SetRangeBit(v: seq<Byte>, off: nat, bit: nat, n: nat, free: bool, k: nat, j: nat)
    requires (n > 0 ==> off + (bit + n - 1) / 8 < |v|) && k < |v| && j < 8
    ensures Bit(SetRange(v, off, bit, n, free)[k], j) == if off <= k && bit <= (k - off) * 8 + j < bit + n then free
        else Bit(v[k], j)
  {
    if n > 0 {
      SetRangeBit(v, off, bit, n - 1, free, k, j);
      assert (bit + n - 1) / 8 == k - off && (bit + n - 1) % 8 == j <==> (k - off) * 8 + j == bit + n - 1;
    }
  }

  /** Bytes with the same bits are the same. */
  lemma {:induction false} BitsDetermine(x: nat, y: nat, n: nat)
    requires x < Pow2(n) && y < Pow2(n) && forall k: nat :: k < n ==> Bit(x, k) == Bit(y, k)
    ensures x == y
  {
    if n > 0 {
      assert Bit(x, 0) == Bit(y, 0);
      forall k: nat | k < n - 1
        ensures Bit(x / 2, k) == Bit(y / 2, k)
      {
        assert Bit(x, k + 1) == Bit(y, k + 1);
      }
      BitsDetermine(x / 2, y / 2, n - 1);
    }
  }

  lemma SameByte(x: Byte, y: Byte)
    requires forall k: nat :: k < 8 ==> Bit(x, k) == Bit(y, k)
    ensures x == y
  {
    Pow8();
    BitsDetermine(x, y, 8);
  }

  /** Freeing what was allocated from free bits restores every byte. */
  lemma FreeUndoesAlloc(v: seq<Byte>, off: nat, bit: nat, n: nat)
    requires n > 0 && off + (bit + n - 1) / 8 < |v|
    requires forall b: nat :: bit <= b < bit + n ==> off + b / 8 < |v| && Bit(v[off + b / 8], b % 8)
    ensures SetRange(SetRange(v, off, bit, n, false), off, bit, n, true) == v
  {
    hide SetRange;
    var w := SetRange(v, off, bit, n, false);
    var r := SetRange(w, off, bit, n, true);
    forall k | 0 <= k < |v|
      ensures r[k] == v[k]
    {
      forall j: nat | j < 8
        ensures Bit(r[k], j) == Bit(v[k], j)
      {
        SetRangeBit(v, off, bit, n, false, k, j);
        SetRangeBit(w, off, bit, n, true, k, j);
        if off <= k && bit <= (k - off) * 8 + j < bit + n {
          var b := (k - off) * 8 + j;
          assert b / 8 == k - off && b % 8 == j;
        }
      }
      SameByte(r[k], v[k]);
    }
  }

  /** The bit of one group after bits of another, or others of the same, were set. */
  lemma SetRangeFree(u: Ufs, v: seq<Byte>, g: nat, bit: nat, n: nat, free: bool, h: nat, b: nat)
    requires UfsOk(u) && |v| == u.size && n > 0 && HasBit(u, g, bit + n - 1) && HasBit(u, h, b)
    requires u.maps[g].off + (bit + n - 1) / 8 < |v| && MapByte(u, h, b) < |v|
    ensures FreeBit(u, SetRange(v, u.maps[g].off, bit, n, free), h, b) == if h == g && bit <= b < bit + n then free
        else FreeBit(u, v, h, b)
  {
    hide SetRange, BitOk;
    var k, j := MapByte(u, h, b), b % 8;
    SetRangeBit(v, u.maps[g].off, bit, n, free, k, j);
    if h != g {
      assert MapsApart(u, if g < h then g else h, if g < h then h else g);
    }
  }

  /** Which of fragments 8 * q to 8 * q + 7 of a group are free. */
  function FreeBits(u: Ufs, v: seq<Byte>, g: nat, q: nat): (s: seq<bool>)
    ensures |s| == 8 && forall k: nat :: k < 8 ==> s[k] == FreeAt(u, v, g, 8 * q + k)
  {
    seq(8, k requires 0 <= k < 8 => FreeAt(u, v, g, 8 * q + k))
  }

  /** A byte of a group's map is the binary number they write, the first one lowest. */
  lemma MapIsBits(u: Ufs, v: seq<Byte>, g: nat, q: nat)
    requires HasBit(u, g, 8 * q + 7) && u.maps[g].off + q < |v|
    ensures v[u.maps[g].off + q] == Value(FreeBits(u, v, g, q))
  {
    var x := v[u.maps[g].off + q];
    Pow8();
    ValueOfBits(x, 8);
    forall k: nat | k < 8
      ensures FreeBits(u, v, g, q)[k] == BitsOf(x, 8)[k]
    {
      BitPlace(q, k);
    }
    assert FreeBits(u, v, g, q) == BitsOf(x, 8);
  }
}
