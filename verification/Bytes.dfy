/**
 Bytes, little-endian words and 512-byte blocks: the vocabulary shared by every
 module that touches a disk block.
 */
module Bytes {
  const BSIZE: nat := 512

  type Byte = b: int | 0 <= b < 0x100
  type Word = w: int | 0 <= w < 0x1_0000_0000
  type Sector = s: seq<Byte> | |s| == 512 witness Zeros(512)

  /** One disk block. */
  datatype Block = Block(bytes: Sector)

  function Zeros(n: nat): (s: seq<Byte>)
    ensures |s| == n
    ensures forall i :: 0 <= i < n ==> s[i] == 0
  {
    seq(n, _ => 0)
  }

  /** memmove(s + off, t, |t|): bytes [off, off+|t|) become t, the others stay. */
  function Splice(s: seq<Byte>, off: nat, t: seq<Byte>): (r: seq<Byte>)
    requires off + |t| <= |s|
    ensures |r| == |s|
    ensures forall i :: 0 <= i < |s| ==> r[i] == if off <= i < off + |t| then t[i - off] else s[i]
  {
    s[..off] + t + s[off + |t|..]
  }

  function ReadLe16(s: seq<Byte>, off: nat): (w: nat)
    requires off + 2 <= |s|
    ensures w < 0x1_0000
  {
    s[off] as int + 0x100 * (s[off + 1] as int)
  }

  function ReadLe32(s: seq<Byte>, off: nat): (w: Word)
    requires off + 4 <= |s|
  {
    s[off] as int + 0x100 * (s[off + 1] as int) +
    0x1_0000 * (s[off + 2] as int) + 0x100_0000 * (s[off + 3] as int)
  }

  function Le16(w: nat): (t: seq<Byte>)
    requires w < 0x1_0000
    ensures |t| == 2
    ensures ReadLe16(t, 0) == w
  {
    [w % 0x100, w / 0x100]
  }

  function Le32(w: Word): (t: seq<Byte>)
    ensures |t| == 4
    ensures ReadLe32(t, 0) == w
  {
    [w % 0x100, w / 0x100 % 0x100, w / 0x100 / 0x100 % 0x100, w / 0x100 / 0x100 / 0x100]
  }

  function WriteLe16(s: seq<Byte>, off: nat, w: nat): (r: seq<Byte>)
    requires off + 2 <= |s| && w < 0x1_0000
    ensures |r| == |s| && ReadLe16(r, off) == w
    ensures forall i :: 0 <= i < |s| && (i < off || off + 2 <= i) ==> r[i] == s[i]
  {
    Splice(s, off, Le16(w))
  }

  function WriteLe32(s: seq<Byte>, off: nat, w: Word): (r: seq<Byte>)
    requires off + 4 <= |s|
    ensures |r| == |s| && ReadLe32(r, off) == w
    ensures forall i :: 0 <= i < |s| && (i < off || off + 4 <= i) ==> r[i] == s[i]
  {
    Splice(s, off, Le32(w))
  }

  /** ((uint *)data)[j] */
  function GetWord(s: seq<Byte>, j: nat): (w: Word)
    requires 4 * j + 4 <= |s|
  {
    ReadLe32(s, 4 * j)
  }

  /** ((uint *)data)[j] = w */
  function PutWord(s: seq<Byte>, j: nat, w: Word): (r: seq<Byte>)
    requires 4 * j + 4 <= |s|
    ensures |r| == |s|
    ensures forall k: nat :: 4 * k + 4 <= |s| ==> GetWord(r, k) == if k == j then w else GetWord(s, k)
  {
    WriteLe32(s, 4 * j, w)
  }

  /** The bytes of one block after the other. */
  function Concat(blocks: seq<Block>): (s: seq<Byte>)
    ensures |s| == BSIZE * |blocks|
  {
    if blocks == [] then [] else blocks[0].bytes + Concat(blocks[1..])
  }

  lemma {:induction false} ConcatAt(blocks: seq<Block>, k: nat, j: nat)
    requires k < |blocks| && j < BSIZE
    ensures BSIZE * k + j < BSIZE * |blocks| && Concat(blocks)[BSIZE * k + j] == blocks[k].bytes[j]
  {
    if k > 0 {
      ConcatAt(blocks[1..], k - 1, j);
    }
  }
}
