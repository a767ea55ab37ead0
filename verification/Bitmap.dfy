/**
 Bits of a byte and the free-block bitmap of kern/fs.c: one bit per disk block,
 BPB bits to a bitmap block.
 */
module Bitmap {
  import opened Bytes

  const BPB: nat := 4096

  function Pow2(n: nat): (p: nat)
    ensures p > 0
  {
    if n == 0 then 1 else 2 * Pow2(n - 1)
  }

  /** x & (1 << k) */
  predicate Bit(x: nat, k: nat) {
    if k == 0 then x % 2 == 1 else Bit(x / 2, k - 1)
  }

  /** x | (1 << k), or x & ~(1 << k) */
  function WithBit(x: nat, k: nat, on: bool): nat {
    if k == 0 then x - x % 2 + (if on then 1 else 0) else 2 * WithBit(x / 2, k - 1, on) + x % 2
  }

  lemma {:induction false} WithBitAt(x: nat, k: nat, on: bool, j: nat)
    ensures Bit(WithBit(x, k, on), j) == if j == k then on else Bit(x, j)
  {
    if k == 0 {
      assert WithBit(x, k, on) / 2 == x / 2;
    } else {
      assert WithBit(x, k, on) / 2 == WithBit(x / 2, k - 1, on);
      if j > 0 {
        WithBitAt(x / 2, k - 1, on, j - 1);
      }
    }
  }

  lemma {:induction false} WithBitBound(x: nat, k: nat, on: bool, n: nat)
    requires x < Pow2(n) && k < n
    ensures WithBit(x, k, on) < Pow2(n)
  {
    if k > 0 {
      WithBitBound(x / 2, k - 1, on, n - 1);
    }
  }

  lemma Pow8()
    ensures Pow2(8) == 256
  {
    assert Pow2(4) == 16;
    assert Pow2(8) == 16 * Pow2(4);
  }

  function ByteWithBit(x: Byte, k: nat, on: bool): (r: Byte)
    requires k < 8
    ensures forall j: nat :: Bit(r, j) == if j == k then on else Bit(x, j)
  {
    Pow8();
    WithBitBound(x, k, on, 8);
    assert forall j: nat :: Bit(WithBit(x, k, on), j) == if j == k then on else Bit(x, j) by {
      forall j: nat
        ensures Bit(WithBit(x, k, on), j) == if j == k then on else Bit(x, j)
      {
        WithBitAt(x, k, on, j);
      }
    }
    WithBit(x, k, on)
  }

  /** Is bit bi of a bitmap block set? */
  predicate Marked(block: Block, bi: nat)
    requires bi < BPB
  {
    Bit(block.bytes[bi / 8], bi % 8)
  }

  /** A bitmap block with bit bi changed. */
  function Mark(block: Block, bi: nat, on: bool): (r: Block)
    requires bi < BPB
    ensures forall c: nat :: c < BPB ==> Marked(r, c) == if c == bi then on else Marked(block, c)
  {
    Block(block.bytes[bi / 8 := ByteWithBit(block.bytes[bi / 8], bi % 8, on)])
  }

  // ------------------------------------------------ bytes are their bits

  /** A binary number, its least significant digit first. */
  function Value(bits: seq<bool>): nat {
    if bits == [] then 0 else (if bits[0] then 1 else 0) + 2 * Value(bits[1..])
  }

  function BitsOf(x: nat, n: nat): (s: seq<bool>)
    ensures |s| == n && forall k: nat :: k < n ==> s[k] == Bit(x, k)
  {
    seq(n, k requires 0 <= k < n => Bit(x, k))
  }

  lemma {:induction false} ValueOfBits(x: nat, n: nat)
    requires x < Pow2(n)
    ensures Value(BitsOf(x, n)) == x
  {
    if n > 0 {
      assert BitsOf(x, n)[1..] == BitsOf(x / 2, n - 1);
      ValueOfBits(x / 2, n - 1);
    }
  }

  /** The marks of blocks 8 * q to 8 * q + 7. */
  function Marks(block: Block, q: nat): (s: seq<bool>)
    requires q < BSIZE
    ensures |s| == 8 && forall k: nat :: k < 8 ==> s[k] == Marked(block, 8 * q + k)
  {
    seq(8, k requires 0 <= k < 8 => Marked(block, 8 * q + k))
  }

  /** Byte q of a bitmap block is the binary number they write, the first one lowest. */
  lemma BitmapByte(block: Block, q: nat)
    requires q < BSIZE
    ensures block.bytes[q] == Value(Marks(block, q))
  {
    var x := block.bytes[q];
    Pow8();
    ValueOfBits(x, 8);
    forall k: nat | k < 8
      ensures Marks(block, q)[k] == BitsOf(x, 8)[k]
    {
      BitPlace(q, k);
    }
    assert Marks(block, q) == BitsOf(x, 8);
  }

  lemma BitPlace(q: nat, k: nat)
    requires k < 8
    ensures (8 * q + k) / 8 == q && (8 * q + k) % 8 == k
  {
  }
}
