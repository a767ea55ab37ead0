/**
 Pipes (kern/pipe.c): a 512-byte ring with free-running 32-bit counters, and every
 interleaving of pipewrite, piperead and pipeclose over it.
 */
module Pipe {
  import opened Bytes

  const PIPESIZE: nat := 512
  const TWO32: nat := 0x1_0000_0000

  // ------------------------------------------------------------- the ring

  datatype Ring = Ring(data: seq<Byte>, nread: Word, nwrite: Word)

  /** nwrite - nread as unsigned 32-bit subtraction. */
  function Count(r: Ring): (n: nat)
    ensures n < TWO32
  {
    (r.nwrite - r.nread) % TWO32
  }

  predicate RingOk(r: Ring) {
    |r.data| == PIPESIZE && Count(r) <= PIPESIZE
  }

  /** p->nwrite == p->nread + PIPESIZE, which may wrap. */
  predicate IsFull(r: Ring) {
    r.nwrite == (r.nread + PIPESIZE) % TWO32
  }

  predicate IsEmpty(r: Ring) {
    r.nread == r.nwrite
  }

  /** The bytes in the pipe, oldest first. */
  function Contents(r: Ring): (s: seq<Byte>)
    requires RingOk(r)
    ensures |s| == Count(r)
    ensures forall k :: 0 <= k < |s| ==> s[k] == r.data[(r.nread + k) % PIPESIZE]
  {
    seq(Count(r), k requires 0 <= k => r.data[(r.nread + k) % PIPESIZE])
  }

  /** p->data[p->nwrite++ % PIPESIZE] = b */
  function Put(r: Ring, b: Byte): Ring
    requires |r.data| == PIPESIZE
  {
    Ring(r.data[r.nwrite % PIPESIZE := b], r.nread, (r.nwrite + 1) % TWO32)
  }

  /** p->nread++ */
  function Skip(r: Ring): Ring {
    r.(nread := (r.nread + 1) % TWO32)
  }

  /** The tests on the counters are exact, however often they have wrapped. */
  lemma Tests(r: Ring)
    requires RingOk(r)
    ensures IsFull(r) <==> |Contents(r)| == PIPESIZE
    ensures IsEmpty(r) <==> |Contents(r)| == 0
  {
  }

  /** Slots for different offsets below PIPESIZE differ, also across a wrap of the counters: 512 divides 2^32. */
  lemma SlotsDiffer(x: Word, j: nat, k: nat)
    requires j < k < PIPESIZE
    ensures (x + j) % PIPESIZE != (x + k) % PIPESIZE
  {
  }

  lemma WrapSlot(x: nat)
    ensures x % TWO32 % PIPESIZE == x % PIPESIZE
  {
  }

  lemma PutAppends(r: Ring, b: Byte)
    requires RingOk(r) && !IsFull(r)
    ensures RingOk(Put(r, b)) && Contents(Put(r, b)) == Contents(r) + [b]
  {
    hide Count, IsFull;
    var n, r' := Count(r), Put(r, b);
    Tests(r);
    PutCount(r, b);
    WriteSlot(r);
    forall k | 0 <= k <= n
      ensures Contents(r')[k] == (Contents(r) + [b])[k]
    {
      if k < n {
        SlotsDiffer(r.nread, k, n);
      }
    }
  }

  lemma PutCount(r: Ring, b: Byte)
    requires RingOk(r) && !IsFull(r)
    ensures Count(Put(r, b)) == Count(r) + 1
  {
  }

  lemma WriteSlot(r: Ring)
    ensures r.nwrite % PIPESIZE == (r.nread + Count(r)) % PIPESIZE
  {
    WrapSlot(r.nread + Count(r));
    assert (r.nread + Count(r)) % TWO32 == r.nwrite;
  }

  lemma SkipDrops(r: Ring)
    requires RingOk(r) && !IsEmpty(r)
    ensures RingOk(Skip(r)) && Contents(r) == [r.data[r.nread % PIPESIZE]] + Contents(Skip(r))
  {
    hide Count, IsEmpty;
    var n, r' := Count(r), Skip(r);
    Tests(r);
    SkipCount(r);
    forall k | 0 <= k < n - 1
      ensures Contents(r')[k] == Contents(r)[k + 1]
    {
      ReadSlot(r, k);
    }
  }

  lemma SkipCount(r: Ring)
    requires RingOk(r) && !IsEmpty(r)
    ensures Count(Skip(r)) == Count(r) - 1
  {
  }

  lemma ReadSlot(r: Ring, k: nat)
    ensures ((r.nread + 1) % TWO32 + k) % PIPESIZE == (r.nread + (k + 1)) % PIPESIZE
  {
    WrapSlot(r.nread + 1);
    assert ((r.nread + 1) % TWO32) % PIPESIZE == (r.nread + 1) % PIPESIZE;
  }

  /** struct pipe's buffer and counters. */
  class PipeBuffer {
    var data: seq<Byte>
    var nread: Word
    var nwrite: Word

    /** pipealloc: the page is not cleared, but holds no bytes yet. */
    constructor (page: seq<Byte>)
      requires |page| == PIPESIZE
      ensures Valid() && data == page && Contents(AsRing()) == []
    {
      data, nread, nwrite := page, 0, 0;
    }

    function AsRing(): Ring
      reads this
    {
      Ring(data, nread, nwrite)
    }

    ghost predicate Valid()
      reads this
    {
      RingOk(AsRing())
    }

    /** p->data[p->nwrite++ % PIPESIZE] = b */
    method StoreByte(b: Byte)
      requires Valid() && nwrite != (nread + PIPESIZE) % TWO32
      modifies this`data, this`nwrite
      ensures Valid() && Contents(AsRing()) == old(Contents(AsRing())) + [b]
    {
      hide Contents, Count;
      PutAppends(AsRing(), b);
      data := data[nwrite % PIPESIZE := b];
      nwrite := (nwrite + 1) % TWO32;
    }

    /** p->data[p->nread++ % PIPESIZE] */
    method TakeByte() returns (b: Byte)
      requires Valid() && nread != nwrite
      modifies this`nread
      ensures Valid() && old(Contents(AsRing())) == [b] + Contents(AsRing())
    {
      hide Contents, Count;
      SkipDrops(AsRing());
      b := data[nread % PIPESIZE];
      nread := (nread + 1) % TWO32;
    }

    /** pipewrite's loop from byte i on, up to the point where it is done or must sleep. */
    method Store(addr: seq<Byte>, from: nat) returns (i: nat)
      requires Valid() && from <= |addr|
      modifies this`data, this`nwrite
      ensures Valid() && from <= i <= |addr|
      ensures Contents(AsRing()) == old(Contents(AsRing())) + addr[from..i]
      ensures i == |addr| || |Contents(AsRing())| == PIPESIZE
    {
      hide RingOk, Contents;
      i := from;
      ghost var was := Contents(AsRing());
      assert addr[from..i] == [] && was + [] == was;
      while i < |addr| && nwrite != (nread + PIPESIZE) % TWO32
        invariant from <= i <= |addr| && Valid() && Contents(AsRing()) == was + addr[from..i]
      {
        StoreByte(addr[i]);
        Extend(was, addr, from, i);
        i := i + 1;
      }
      if i < |addr| {
        Tests(AsRing());
      }
    }

    /** piperead's copying loop: up to n bytes, fewer if the pipe runs empty. */
    method Take(n: nat) returns (got: seq<Byte>)
      requires Valid()
      modifies this`nread
      ensures Valid() && old(Contents(AsRing())) == got + Contents(AsRing())
      ensures |got| == if n < |old(Contents(AsRing()))| then n else |old(Contents(AsRing()))|
    {
      hide RingOk, Contents, Count;
      got := [];
      ghost var was := Contents(AsRing());
      assert [] + was == was;
      while |got| < n && nread != nwrite
        invariant |got| <= n && Valid() && was == got + Contents(AsRing())
        decreases n - |got|
      {
        var b := TakeByte();
        Shift(got, b, Contents(AsRing()));
        got := got + [b];
      }
      if |got| < n {
        Tests(AsRing());
      }
    }
  }

  lemma Extend(was: seq<Byte>, addr: seq<Byte>, from: nat, i: nat)
    requires from <= i < |addr|
    ensures was + addr[from..i] + [addr[i]] == was + addr[from..i + 1]
  {
  }

  lemma Shift(got: seq<Byte>, b: Byte, rest: seq<Byte>)
    ensures got + ([b] + rest) == (got + [b]) + rest
  {
  }
}
