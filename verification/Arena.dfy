/**
 The console's arena (kern/kalloc.c): vmem_alloc splits and vmem_free merges blocks
 whose headers form a list through the arena. The blocks tile it and freed
 neighbours never stay apart, unless a request near 2^64 bytes makes the size sum
 wrap to zero; then the list may be bent into a loop.
 */
module Arena {
  import opened Basics

  const HDR: nat := 64      // VMEM_HDR
  const ALIGN: nat := 4096  // VMEM_ALIGN
  const TWO64: nat := 0x1_0000_0000_0000_0000

  /** struct vmem_block at some address; next is 0 at the end. */
  datatype Header = Header(next: nat, size: nat, used: bool)

  /** A block of the arena. */
  datatype Blk = Blk(addr: nat, size: nat, used: bool)

  /** The 64-bit block size vmem_alloc computes; the sum wraps. */
  function Need(bytes: nat): (n: nat)
    ensures n % ALIGN == 0 && n < TWO64
  {
    (HDR + bytes + ALIGN - 1) % TWO64 / ALIGN * ALIGN
  }

  predicate Fits(bytes: nat) {
    HDR + bytes + ALIGN - 1 < TWO64
  }

  /** The computed size covers header and request exactly when the sum does not wrap. */
  lemma NeedCovers(bytes: nat)
    requires 0 < bytes < TWO64
    ensures Need(bytes) >= HDR + bytes <==> Fits(bytes)
    ensures Fits(bytes) ==> Need(bytes) < HDR + bytes + ALIGN
    ensures !Fits(bytes) ==> Need(bytes) <= ALIGN
  {
  }

  /** The requests whose size sum wraps to less than one block. */
  predicate WrapsToZero(bytes: nat) {
    TWO64 - HDR - ALIGN < bytes <= TWO64 - HDR
  }

  lemma NeedIsZero(bytes: nat)
    requires 0 < bytes < TWO64
    ensures Need(bytes) == 0 <==> WrapsToZero(bytes)
  {
  }

  // -------------------------------------------------------------- tilings

  predicate Joined(bs: seq<Blk>, i: nat)
    requires i + 1 < |bs|
  {
    bs[i + 1].addr == bs[i].addr + bs[i].size
  }

  /** The blocks fill [base, base + cap) one after the other. */
  predicate Tiles(bs: seq<Blk>, base: nat, cap: nat) {
    && |bs| > 0 && bs[0].addr == base && bs[|bs| - 1].addr + bs[|bs| - 1].size == base + cap
    && (forall i :: 0 <= i < |bs| ==> bs[i].size > 0 && bs[i].size % ALIGN == 0)
    && forall i :: 0 <= i < |bs| - 1 ==> Joined(bs, i)
  }

  predicate Split(bs: seq<Blk>, i: nat)
    requires i + 1 < |bs|
  {
    bs[i].used || bs[i + 1].used
  }

  /** No two neighbours before place n are both free. */
  predicate Merged(bs: seq<Blk>, n: nat) {
    forall i :: 0 <= i < n && i + 1 < |bs| ==> Split(bs, i)
  }

  lemma {:induction false} Apart(bs: seq<Blk>, base: nat, cap: nat, i: nat, j: nat)
    requires Tiles(bs, base, cap) && i < j < |bs|
    ensures bs[i].addr + bs[i].size <= bs[j].addr
    decreases j
  {
    assert Joined(bs, j - 1);
    if i < j - 1 {
      Apart(bs, base, cap, i, j - 1);
    }
  }

  /** Blocks do not overlap and lie inside the arena. */
  lemma Disjoint(bs: seq<Blk>, base: nat, cap: nat, i: nat, j: nat)
    requires Tiles(bs, base, cap) && i < |bs| && j < |bs|
    ensures base <= bs[i].addr && bs[i].addr + bs[i].size <= base + cap
    ensures i != j ==> bs[i].addr + bs[i].size <= bs[j].addr || bs[j].addr + bs[j].size <= bs[i].addr
  {
    if i > 0 { Apart(bs, base, cap, 0, i); }
    if i < |bs| - 1 { Apart(bs, base, cap, i, |bs| - 1); }
    if i < j { Apart(bs, base, cap, i, j); }
    if j < i { Apart(bs, base, cap, j, i); }
  }

  /** The live blocks determine the whole list: what lies between them is one free block each. */
  lemma LiveDetermines(bs: seq<Blk>, cs: seq<Blk>, base: nat, cap: nat)
    requires Tiles(bs, base, cap) && Merged(bs, |bs|) && Tiles(cs, base, cap) && Merged(cs, |cs|)
    requires Live(bs) == Live(cs)
    ensures bs == cs
  {
    var n := if |bs| < |cs| then |bs| else |cs|;
    SamePrefix(bs, cs, base, cap, n);
    SameLength(bs, cs, base, cap);
    SameLength(cs, bs, base, cap);
  }

  lemma SameLength(bs: seq<Blk>, cs: seq<Blk>, base: nat, cap: nat)
    requires Tiles(bs, base, cap) && Tiles(cs, base, cap) && forall i :: 0 <= i < |bs| && i < |cs| ==> bs[i] == cs[i]
    ensures |bs| >= |cs|
  {
    if |bs| < |cs| {
      var n := |bs|;
      assert bs[n - 1] == cs[n - 1] && Joined(cs, n - 1);
      Disjoint(cs, base, cap, n, n);
    }
  }

  lemma {:induction false} SamePrefix(bs: seq<Blk>, cs: seq<Blk>, base: nat, cap: nat, n: nat)
    requires Tiles(bs, base, cap) && Merged(bs, |bs|) && Tiles(cs, base, cap) && Merged(cs, |cs|)
    requires Live(bs) == Live(cs) && n <= |bs| && n <= |cs|
    ensures forall i :: 0 <= i < n ==> bs[i] == cs[i]
  {
    if n > 0 {
      SamePrefix(bs, cs, base, cap, n - 1);
      assert n > 1 ==> Joined(bs, n - 2) && Joined(cs, n - 2);
      SameLive(bs, cs, base, cap, n - 1);
      SameLive(cs, bs, base, cap, n - 1);
      if !bs[n - 1].used {
        NotShorter(bs, cs, base, cap, n - 1);
        NotShorter(cs, bs, base, cap, n - 1);
      }
    }
  }

  /** A live block is the same block in both. */
  lemma SameLive(bs: seq<Blk>, cs: seq<Blk>, base: nat, cap: nat, i: nat)
    requires Tiles(cs, base, cap) && Live(bs) == Live(cs) && i < |bs| && i < |cs| && bs[i].addr == cs[i].addr
    ensures bs[i].used ==> bs[i] == cs[i]
  {
    if bs[i].used {
      assert bs[i] in Live(cs);
      var j :| 0 <= j < |cs| && cs[j] == bs[i];
      Disjoint(cs, base, cap, j, i);
    }
  }

  /** A free block does not end before the other list's does: the next one would be live inside it. */
  lemma NotShorter(bs: seq<Blk>, cs: seq<Blk>, base: nat, cap: nat, i: nat)
    requires Tiles(bs, base, cap) && Merged(bs, |bs|) && Tiles(cs, base, cap) && Live(bs) == Live(cs)
    requires i < |bs| && i < |cs| && bs[i].addr == cs[i].addr && !bs[i].used
    ensures bs[i].size >= cs[i].size
  {
    if bs[i].size < cs[i].size {
      Disjoint(cs, base, cap, i, i);
      assert i + 1 < |bs|;
      assert Split(bs, i) && Joined(bs, i);
      assert bs[i + 1] in Live(cs);
      var j :| 0 <= j < |cs| && cs[j] == bs[i + 1];
      Disjoint(cs, base, cap, j, i);
    }
  }

  /** With nothing live the arena is one free block again. */
  lemma AllFreeIsOne(bs: seq<Blk>, base: nat, cap: nat)
    requires Tiles(bs, base, cap) && Merged(bs, |bs|) && forall i :: 0 <= i < |bs| ==> !bs[i].used
    ensures bs == [Blk(base, cap, false)]
  {
    assert |bs| > 1 ==> Split(bs, 0);
  }

  /** The live blocks. */
  ghost function Live(bs: seq<Blk>): (s: set<Blk>) {
    set b | b in bs && b.used
  }

  // -------------------------------------------------- splitting, merging

  /** Block k replaced by a and b. */
  function Cut(bs: seq<Blk>, k: nat, a: Blk, b: Blk): (r: seq<Blk>)
    requires k < |bs|
    ensures |r| == |bs| + 1 && r[k] == a && r[k + 1] == b
    ensures forall i :: 0 <= i < k ==> r[i] == bs[i]
    ensures forall i :: k + 1 < i < |r| ==> r[i] == bs[i - 1]
  {
    bs[..k] + [a, b] + bs[k + 1..]
  }

  /** Blocks k and k + 1 replaced by a. */
  function Join(bs: seq<Blk>, k: nat, a: Blk): (r: seq<Blk>)
    requires k + 1 < |bs|
    ensures |r| == |bs| - 1 && r[k] == a
    ensures forall i :: 0 <= i < k ==> r[i] == bs[i]
    ensures forall i :: k < i < |r| ==> r[i] == bs[i + 1]
  {
    bs[..k] + [a] + bs[k + 2..]
  }

  /** Marking block k used, whole. */
  lemma TakeWhole(bs: seq<Blk>, base: nat, cap: nat, k: nat)
    requires Tiles(bs, base, cap) && Merged(bs, |bs|) && k < |bs| && !bs[k].used
    ensures var r := bs[k := bs[k].(used := true)];
            Tiles(r, base, cap) && Merged(r, |r|) && Live(r) == Live(bs) + {bs[k].(used := true)}
  {
    var r := bs[k := bs[k].(used := true)];
    forall i | 0 <= i < |r| - 1
      ensures Joined(r, i) && Split(r, i)
    {
      assert Joined(bs, i) && Split(bs, i);
    }
    forall b | b in Live(bs) + {r[k]}
      ensures b in r
    {
      if b != r[k] {
        var i :| 0 <= i < |bs| && bs[i] == b;
        assert r[i] == b;
      }
    }
  }

  /** Splitting need bytes off free block k. */
  lemma TakePart(bs: seq<Blk>, base: nat, cap: nat, k: nat, need: nat)
    requires Tiles(bs, base, cap) && Merged(bs, |bs|) && k < |bs| && !bs[k].used
    requires 0 < need < bs[k].size && need % ALIGN == 0
    ensures var b := bs[k];
            var r := Cut(bs, k, Blk(b.addr, need, true), Blk(b.addr + need, b.size - need, false));
            Tiles(r, base, cap) && Merged(r, |r|) && Live(r) == Live(bs) + {Blk(b.addr, need, true)}
  {
    hide Cut, Live, Tiles, Merged;
    var b := bs[k];
    var r := Cut(bs, k, Blk(b.addr, need, true), Blk(b.addr + need, b.size - need, false));
    CutTiles(bs, base, cap, k, need);
    CutMerged(bs, k, r[k], r[k + 1]);
    CutLive(bs, k, r[k], r[k + 1]);
  }

  lemma Multiples(a: nat, b: nat)
    requires a % ALIGN == 0 && b % ALIGN == 0
    ensures (a - b) % ALIGN == 0
  {
  }

  lemma CutTiles(bs: seq<Blk>, base: nat, cap: nat, k: nat, need: nat)
    requires Tiles(bs, base, cap) && k < |bs| && 0 < need < bs[k].size && need % ALIGN == 0
    ensures Tiles(Cut(bs, k, Blk(bs[k].addr, need, true), Blk(bs[k].addr + need, bs[k].size - need, false)), base, cap)
  {
    hide Cut;
    var b := bs[k];
    var r := Cut(bs, k, Blk(b.addr, need, true), Blk(b.addr + need, b.size - need, false));
    Multiples(b.size, need);
    forall i | 0 <= i < |r|
      ensures r[i].size > 0 && r[i].size % ALIGN == 0
    {
      assert i < k ==> r[i] == bs[i];
      assert i > k + 1 ==> r[i] == bs[i - 1];
    }
    forall i | 0 <= i < |r| - 1
      ensures Joined(r, i)
    {
      if i != k {
        assert Joined(bs, if i < k then i else i - 1);
      }
    }
  }

  lemma CutMerged(bs: seq<Blk>, k: nat, a: Blk, b: Blk)
    requires Merged(bs, |bs|) && k < |bs| && !bs[k].used && a.used && !b.used
    ensures Merged(Cut(bs, k, a, b), |bs| + 1)
  {
    hide Cut;
    var r := Cut(bs, k, a, b);
    forall i | 0 <= i < |r| - 1
      ensures Split(r, i)
    {
      if i != k {
        assert Split(bs, if i < k then i else i - 1);
      }
    }
  }

  lemma CutLive(bs: seq<Blk>, k: nat, a: Blk, b: Blk)
    requires k < |bs| && !bs[k].used && a.used && !b.used
    ensures Live(Cut(bs, k, a, b)) == Live(bs) + {a}
  {
    hide Cut;
    var r := Cut(bs, k, a, b);
    forall x | x in Live(bs) + {a}
      ensures x in r
    {
      assert r[k] == a;
      if x != a {
        var i :| 0 <= i < |bs| && bs[i] == x;
        assert r[if i < k then i else i + 1] == x;
      }
    }
  }

  /** Merging free blocks k and k + 1. */
  lemma MergeTwo(bs: seq<Blk>, base: nat, cap: nat, k: nat)
    requires Tiles(bs, base, cap) && Merged(bs, k) && k + 1 < |bs| && !bs[k].used && !bs[k + 1].used
    ensures var r := Join(bs, k, Blk(bs[k].addr, bs[k].size + bs[k + 1].size, false));
            Tiles(r, base, cap) && Merged(r, k) && Live(r) == Live(bs)
  {
    hide Join, Live, Joined, Split;
    var r := Join(bs, k, Blk(bs[k].addr, bs[k].size + bs[k + 1].size, false));
    forall i | 0 <= i < |r|
      ensures r[i].size > 0 && r[i].size % ALIGN == 0
      ensures i + 1 < |r| ==> Joined(r, i) && (i < k ==> Split(r, i))
    {
      MergeAt(bs, base, cap, k, r, i);
    }
    assert Joined(bs, k);
    TopKept(bs, k, r);
    JoinLive(bs, k, r[k]);
  }

  lemma TopKept(bs: seq<Blk>, k: nat, r: seq<Blk>)
    requires k + 1 < |bs| && Joined(bs, k)
    requires r == Join(bs, k, Blk(bs[k].addr, bs[k].size + bs[k + 1].size, false))
    ensures r[|r| - 1].addr + r[|r| - 1].size == bs[|bs| - 1].addr + bs[|bs| - 1].size && r[0].addr == bs[0].addr
  {
    hide Join;
  }

  lemma MergeAt(bs: seq<Blk>, base: nat, cap: nat, k: nat, r: seq<Blk>, i: nat)
    requires Tiles(bs, base, cap) && Merged(bs, k) && k + 1 < |bs| && !bs[k].used && !bs[k + 1].used
    requires r == Join(bs, k, Blk(bs[k].addr, bs[k].size + bs[k + 1].size, false)) && i < |r|
    ensures r[i].size > 0 && r[i].size % ALIGN == 0
    ensures i + 1 < |r| ==> Joined(r, i) && (i < k ==> Split(r, i))
  {
    hide Join;
    assert Joined(bs, k);
    if i < k {
      assert Joined(bs, i) && Split(bs, i);
    } else if i + 1 < |r| {
      assert Joined(bs, i + 1);
    }
  }

  lemma JoinLive(bs: seq<Blk>, k: nat, a: Blk)
    requires k + 1 < |bs| && !bs[k].used && !bs[k + 1].used && !a.used
    ensures Live(Join(bs, k, a)) == Live(bs)
  {
    hide Join;
    var r := Join(bs, k, a);
    forall x | x in Live(bs)
      ensures x in r
    {
      var i :| 0 <= i < |bs| && bs[i] == x;
      assert r[if i < k then i else i - 1] == x;
    }
  }

  /** Marking block k free. */
  lemma Drop(bs: seq<Blk>, base: nat, cap: nat, k: nat)
    requires Tiles(bs, base, cap) && k < |bs| && bs[k].used
    ensures var r := bs[k := bs[k].(used := false)];
            Tiles(r, base, cap) && Live(r) == Live(bs) - {bs[k]}
  {
    var r := bs[k := bs[k].(used := false)];
    forall i | 0 <= i < |r| - 1
      ensures Joined(r, i)
    {
      assert Joined(bs, i);
    }
    forall x | x in Live(bs) - {bs[k]}
      ensures x in r
    {
      var i :| 0 <= i < |bs| && bs[i] == x;
      assert r[i] == x;
    }
    forall x | x in Live(r)
      ensures x != bs[k]
    {
      var i :| 0 <= i < |r| && r[i] == x;
      Disjoint(bs, base, cap, i, k);
    }
  }

  // ------------------------------------------------------------ the arena

  /** The header of block i, as the list has it. */
  predicate HeaderOk(mem: map<nat, Header>, bs: seq<Blk>, i: nat)
    requires i < |bs|
  {
    bs[i].addr in mem && mem[bs[i].addr] == Header(if i + 1 < |bs| then bs[i + 1].addr else 0, bs[i].size, bs[i].used)
  }

  /** Block k is the first that is free and large enough. */
  predicate FitsFirst(bs: seq<Blk>, need: nat, k: nat) {
    && k < |bs| && !bs[k].used && bs[k].size >= need
    && forall i :: 0 <= i < k ==> bs[i].used || bs[i].size < need
  }

  /** What a request takes of a block: what it needs, or all if less than two units would be left. */
  function Taken(size: nat, need: nat): nat {
    if size >= need + 2 * ALIGN then need else size
  }

  /** The headers form a list of blocks that tile the arena, no two free neighbours. */
  ghost predicate IsList(mem: map<nat, Header>, bs: seq<Blk>, base: nat, cap: nat) {
    && base > 0 && base + cap < TWO64 && Tiles(bs, base, cap) && Merged(bs, |bs|)
    && forall i :: 0 <= i < |bs| ==> HeaderOk(mem, bs, i)
  }

  /** Block k is the first that is free. */
  predicate FirstFree(bs: seq<Blk>, k: nat) {
    k < |bs| && !bs[k].used && forall i :: 0 <= i < k ==> bs[i].used
  }

  /** The size sum is zero and the first free block is large enough to be split. */
  ghost predicate Breaks(bs: seq<Blk>, bytes: nat) {
    WrapsToZero(bytes) && exists k: nat :: FirstFree(bs, k) && bs[k].size >= 2 * ALIGN
  }

  /** Where the walk along next stands after n steps; a walk that has ended stays at 0. */
  function Walk(mem: map<nat, Header>, at: nat, n: nat): nat {
    if n == 0 then at
    else
      var a := Walk(mem, at, n - 1);
      if a in mem then mem[a].next else 0
  }

  /** The list bent at block k: its header points at itself and has size zero. */
  function Bent(mem: map<nat, Header>, b: nat): map<nat, Header> {
    mem[b := Header(b, 0, true)]
  }

  lemma {:induction false} WalkIs(mem: map<nat, Header>, bs: seq<Blk>, base: nat, cap: nat, k: nat, n: nat)
    requires IsList(mem, bs, base, cap) && k < |bs|
    ensures Walk(Bent(mem, bs[k].addr), base, n) == if n < k then bs[n].addr else bs[k].addr
  {
    hide Tiles, Merged;
    FirstAddr(bs, base, cap);
    if n > 0 {
      WalkIs(mem, bs, base, cap, k, n - 1);
      if n <= k {
        assert HeaderOk(mem, bs, n - 1);
        SizeAt(bs, base, cap, n - 1);
        SizeAt(bs, base, cap, k);
        Disjoint(bs, base, cap, n - 1, k);
      }
    }
  }

  /** Every walk along the bent list goes on for ever. */
  lemma WalkNeverEnds(mem: map<nat, Header>, bs: seq<Blk>, base: nat, cap: nat, k: nat, n: nat)
    requires IsList(mem, bs, base, cap) && k < |bs|
    ensures Walk(Bent(mem, bs[k].addr), base, n) != 0
  {
    hide Tiles, Merged, Walk;
    WalkIs(mem, bs, base, cap, k, n);
    Disjoint(bs, base, cap, if n < k then n else k, k);
  }

  lemma {:induction false} SameStart(mem: map<nat, Header>, bs: seq<Blk>, cs: seq<Blk>, base: nat, cap: nat, k: nat,
                                     i: nat)
    requires IsList(mem, bs, base, cap) && k < |bs| && IsList(Bent(mem, bs[k].addr), cs, base, cap) && i <= k
    ensures i < |cs| && cs[i].addr == bs[i].addr
  {
    hide Tiles, Merged;
    FirstAddr(bs, base, cap);
    FirstAddr(cs, base, cap);
    if i > 0 {
      SameStart(mem, bs, cs, base, cap, k, i - 1);
      assert HeaderOk(mem, bs, i - 1) && HeaderOk(Bent(mem, bs[k].addr), cs, i - 1);
      SizeAt(bs, base, cap, i - 1);
      SizeAt(bs, base, cap, k);
      Disjoint(bs, base, cap, i - 1, k);
      Disjoint(bs, base, cap, i, i);
    }
  }

  /** No sequence of blocks is the bent list. */
  lemma BentIsNoList(mem: map<nat, Header>, bs: seq<Blk>, cs: seq<Blk>, base: nat, cap: nat, k: nat)
    requires IsList(mem, bs, base, cap) && k < |bs|
    ensures !IsList(Bent(mem, bs[k].addr), cs, base, cap)
  {
    hide Tiles, Merged;
    if IsList(Bent(mem, bs[k].addr), cs, base, cap) {
      SameStart(mem, bs, cs, base, cap, k, k);
      assert HeaderOk(Bent(mem, bs[k].addr), cs, k);
      SizeAt(cs, base, cap, k);
    }
  }

  class VmArena {
    const base: nat
    const cap: nat
    var mem: map<nat, Header>  // the headers written so far, by address
    ghost var blocks: seq<Blk>

    ghost predicate Linked()
      reads this
    {
      && base > 0 && base + cap < TWO64 && Tiles(blocks, base, cap)
      && forall i :: 0 <= i < |blocks| ==> HeaderOk(mem, blocks, i)
    }

    ghost predicate Valid()
      reads this
    {
      Linked() && Merged(blocks, |blocks|)
    }

    /** vmem_alloc and vmem_free walk the list to its end; here it has none, and no blocks explain it. */
    ghost predicate Endless()
      reads this
    {
      (forall n :: Walk(mem, base, n) != 0) && forall bs :: !IsList(mem, bs, base, cap)
    }

    /** vmem_init: the whole arena is one free block. */
    constructor (start: nat, size: nat)
      requires start > 0 && size > 0 && size % ALIGN == 0 && start + size < TWO64
      ensures Valid() && base == start && cap == size && blocks == [Blk(base, cap, false)]
    {
      base := start;
      cap := size;
      mem := map[start := Header(0, size, false)];
      blocks := [Blk(start, size, false)];
    }

    /** The first free block of at least need bytes, by its address and ghost place. */
    method FirstFit(need: nat) returns (b: Option<nat>, ghost k: nat)
      requires Valid()
      ensures b.None? ==> forall i :: 0 <= i < |blocks| ==> blocks[i].used || blocks[i].size < need
      ensures b.Some? ==> FitsFirst(blocks, need, k) && b.value == blocks[k].addr
    {
      hide Tiles, Merged;
      k := 0;
      var at := base;
      assert at == blocks[0].addr by { FirstAddr(blocks, base, cap); }
      while at != 0
        invariant k <= |blocks| && at == if k < |blocks| then blocks[k].addr else 0
        invariant forall i :: 0 <= i < k ==> blocks[i].used || blocks[i].size < need
        decreases |blocks| - k
      {
        assert k < |blocks| && HeaderOk(mem, blocks, k);
        if !mem[at].used && mem[at].size >= need {
          return Some(at), k;
        }
        at := mem[at].next;
        k := k + 1;
      }
      assert k == |blocks| by { if k < |blocks| { Disjoint(blocks, base, cap, k, k); } }
      b := None;
    }

    /**
     vmem_alloc: first fit; 0 if nothing fits. The block got is as large as asked,
     header and all, if and only if the size sum does not wrap. The arena stays
     well-formed, with exactly got live in addition, if and only if the sum is not
     zero or the first free block is too small to be split; otherwise the list
     becomes a loop.
     */
    method Alloc(bytes: nat) returns (r: nat, ghost got: Blk)
      requires Valid() && bytes < TWO64
      modifies this
      ensures r == 0 ==> mem == old(mem) && blocks == old(blocks)
      ensures r == 0 <==> bytes == 0 || forall i :: 0 <= i < |old(blocks)| ==>
          old(blocks)[i].used || old(blocks)[i].size < Need(bytes)
      ensures Valid() <==> !old(Breaks(blocks, bytes))
      ensures old(Breaks(blocks, bytes)) ==> r != 0 && Endless()
      ensures r != 0 ==> r == got.addr + HDR && got.addr in mem && (mem[got.addr].size >= HDR + bytes <==> Fits(bytes))
      ensures r != 0 && !old(Breaks(blocks, bytes)) ==>
        got.used && got in blocks && mem[got.addr].size == got.size >= Need(bytes)
            && Live(blocks) == old(Live(blocks)) + {got}
      ensures r != 0 ==> forall b :: b in old(Live(blocks)) ==> b.addr != got.addr
      ensures r != 0 ==> exists k: nat :: FitsFirst(old(blocks), Need(bytes), k) && got.addr == old(blocks)[k].addr
                                          && mem[got.addr].size == Taken(old(blocks)[k].size, Need(bytes))
    {
      hide Tiles, Merged, Cut, Live, Need, Fits, Walk, WrapsToZero;
      r, got := 0, Blk(0, 0, false);
      if bytes == 0 {
        NoRequest();
        return;
      }
      NeedCovers(bytes);
      NeedMultiple(bytes);
      NeedIsZero(bytes);
      var need := Need(bytes);
      var at, k := FirstFit(need);
      if at.None? {
        assert need == 0 ==> forall i: nat :: i < |blocks| ==> blocks[i].used;
        assert need == 0 ==> forall i: nat :: !FirstFree(blocks, i);
        return;
      }
      var b := at.value;
      assert HeaderOk(mem, blocks, k);
      Disjoint(blocks, base, cap, k, k);
      NotLive(blocks, base, cap, k);
      if !Fits(bytes) {
        TooSmall(blocks, base, cap, k, bytes);
      }
      assert need == 0 ==> FirstFree(blocks, k);
      assert forall j: nat :: FirstFree(blocks, j) && need == 0 ==> j == k;
      got := Carve(b, need, k);
      r := b + HDR;
    }

    /** Marks the block found used, after splitting it if it is large enough. */
    method Carve(b: nat, need: nat, ghost k: nat) returns (ghost got: Blk)
      requires Valid() && k < |blocks| && b == blocks[k].addr && !blocks[k].used && blocks[k].size >= need
      requires need % ALIGN == 0
      modifies this
      ensures Valid() <==> !(need == 0 && old(blocks)[k].size >= 2 * ALIGN)
      ensures got.addr == b && b in mem && got.size == mem[b].size == Taken(old(blocks)[k].size, need)
      ensures if Valid() then got.used && got in blocks && got.size >= need && Live(blocks) == old(Live(blocks)) + {got}
              else Endless()
    {
      hide Tiles, Merged, Cut, Live, Walk;
      assert HeaderOk(mem, blocks, k);
      if mem[b].size >= need + 2 * ALIGN {
        got := Blk(b, need, true);
        ghost var m := mem;
        mem := mem[b + need := Header(mem[b].next, mem[b].size - need, false)];
        mem := mem[b := Header(b + need, need, mem[b].used)];
        mem := mem[b := mem[b].(used := true)];
        if need != 0 {
          assert mem == m[b + need := Header(m[b].next, m[b].size - need, false)][b := Header(b + need, need, true)];
          TakePart(blocks, base, cap, k, need);
          CutHeaders(m, blocks, base, cap, k, need);
          blocks := Cut(blocks, k, got, Blk(b + need, blocks[k].size - need, false));
          assert blocks[k] == got;
        } else {
          assert mem == Bent(m, b);
          NowEndless(m, k);
        }
      } else {
        got := blocks[k].(used := true);
        TakeWhole(blocks, base, cap, k);
        MarkHeaders(mem, blocks, base, cap, k, true);
        blocks := blocks[k := got];
        assert blocks[k] == got;
        mem := mem[b := mem[b].(used := true)];
      }
    }

    lemma NowEndless(m: map<nat, Header>, k: nat)
      requires IsList(m, blocks, base, cap) && k < |blocks| && mem == Bent(m, blocks[k].addr)
      ensures Endless() && !Valid()
    {
      hide Tiles, Merged, Walk, HeaderOk;
      forall n
        ensures Walk(mem, base, n) != 0
      {
        WalkNeverEnds(m, blocks, base, cap, k, n);
      }
      forall bs
        ensures !IsList(mem, bs, base, cap)
      {
        BentIsNoList(m, blocks, bs, base, cap, k);
      }
      assert !IsList(mem, blocks, base, cap);
    }

    /** vmem_free's pass over the list: a free block swallows the free blocks after it. */
    method Coalesce()
      requires Linked()
      modifies this`mem, this`blocks
      ensures Valid() && Live(blocks) == old(Live(blocks))
    {
      hide Tiles, Merged, Live, Join;
      ghost var k: nat := 0;
      var b := base;
      FirstAddr(blocks, base, cap);
      NothingMerged(blocks);
      while b != 0
        invariant Linked() && Merged(blocks, k) && Live(blocks) == old(Live(blocks))
        invariant k <= |blocks| && b == if k < |blocks| then blocks[k].addr else 0
        decreases |blocks| - k
      {
        assert k < |blocks| && HeaderOk(mem, blocks, k);
        b := Swallow(b, k);
        k := k + 1;
      }
      AtEnd(blocks, base, cap, k);
    }

    /** The inner loop at one block; the address of the block after it. */
    method Swallow(b: nat, ghost k: nat) returns (next: nat)
      requires Linked() && Merged(blocks, k) && k < |blocks| && b == blocks[k].addr
      modifies this`mem, this`blocks
      ensures Linked() && Merged(blocks, k + 1) && Live(blocks) == old(Live(blocks)) && k < |blocks| <= old(|blocks|)
      ensures next == if k + 1 < |blocks| then blocks[k + 1].addr else 0
    {
      hide Tiles, Merged, Live, Join;
      assert HeaderOk(mem, blocks, k);
      next := mem[b].next;
      NextIs(blocks, base, cap, k, next);
      assert next != 0 ==> HeaderOk(mem, blocks, k + 1);
      while next != 0 && !mem[b].used && !mem[next].used
        invariant Linked() && Merged(blocks, k) && Live(blocks) == old(Live(blocks)) && k < |blocks| <= old(|blocks|)
        invariant b == blocks[k].addr && b in mem && next == mem[b].next
        invariant next == if k + 1 < |blocks| then blocks[k + 1].addr else 0
        invariant next != 0 ==> k + 1 < |blocks| && next in mem
        decreases |blocks|
      {
        assert HeaderOk(mem, blocks, k) && HeaderOk(mem, blocks, k + 1);
        MergeTwo(blocks, base, cap, k);
        ghost var m, bs := mem, blocks;
        mem := mem[b := Header(mem[next].next, mem[b].size + mem[next].size, mem[b].used)];
        blocks := Join(blocks, k, Blk(b, blocks[k].size + blocks[k + 1].size, false));
        JoinHeaders(m, bs, base, cap, k, mem, blocks);
        assert HeaderOk(mem, blocks, k);
        next := mem[b].next;
        NextIs(blocks, base, cap, k, next);
        assert next != 0 ==> HeaderOk(mem, blocks, k + 1);
      }
      assert HeaderOk(mem, blocks, k);
      MergedOn(blocks, base, cap, k, next, mem);
    }

    /** vmem_free of a live block: exactly it is no longer live, and no two neighbours stay free. */
    method Free(p: nat, ghost k: nat)
      requires Valid() && (p != 0 ==> k < |blocks| && blocks[k].used && p == blocks[k].addr + HDR)
      modifies this`mem, this`blocks
      ensures Valid() && Live(blocks) == if p == 0 then old(Live(blocks)) else old(Live(blocks)) - {old(blocks)[k]}
    {
      hide Tiles, Live;
      if p == 0 {
        return;
      }
      var b := p - HDR;
      Drop(blocks, base, cap, k);
      MarkHeaders(mem, blocks, base, cap, k, false);
      blocks := blocks[k := blocks[k].(used := false)];
      mem := mem[b := mem[b].(used := false)];
      Coalesce();
    }
  }

  lemma NoRequest()
    ensures !WrapsToZero(0)
  {
  }

  /** A new arena breaks exactly for the requests that wrap to zero, if it is larger than one block. */
  lemma FreshBreaks(base: nat, cap: nat, bytes: nat)
    ensures Breaks([Blk(base, cap, false)], bytes) <==> WrapsToZero(bytes) && cap >= 2 * ALIGN
  {
    var bs := [Blk(base, cap, false)];
    assert FirstFree(bs, 0) && bs[0].size == cap;
    assert forall k: nat :: FirstFree(bs, k) ==> k == 0;
  }

  /** A request of 2^64 - 4096 bytes bends the list of a new arena of 8192 bytes. */
  method LoopAtOnce(start: nat) returns (a: VmArena)
    requires start > 0 && start + 2 * ALIGN < TWO64
    ensures fresh(a) && a.Endless() && !a.Valid()
  {
    a := new VmArena(start, 2 * ALIGN);
    FreshBreaks(start, 2 * ALIGN, TWO64 - ALIGN);
    var r, got := a.Alloc(TWO64 - ALIGN);
  }

  lemma NothingMerged(bs: seq<Blk>)
    ensures Merged(bs, 0)
  {
  }

  lemma AtEnd(bs: seq<Blk>, base: nat, cap: nat, k: nat)
    requires Tiles(bs, base, cap) && base > 0 && k <= |bs| && Merged(bs, k) && (k < |bs| ==> bs[k].addr == 0)
    ensures k == |bs| && Merged(bs, |bs|)
  {
    if k < |bs| {
      Disjoint(bs, base, cap, k, k);
    }
  }

  /** next is 0 only after the last block. */
  lemma NextIs(bs: seq<Blk>, base: nat, cap: nat, k: nat, next: nat)
    requires Tiles(bs, base, cap) && base > 0 && k < |bs| && next == if k + 1 < |bs| then bs[k + 1].addr else 0
    ensures next == 0 <==> k + 1 == |bs|
  {
    if k + 1 < |bs| {
      Disjoint(bs, base, cap, k + 1, k);
    }
  }

  lemma MergedOn(bs: seq<Blk>, base: nat, cap: nat, k: nat, next: nat, mem: map<nat, Header>)
    requires Tiles(bs, base, cap) && base > 0 && k < |bs| && Merged(bs, k)
    requires (forall i :: 0 <= i < |bs| ==> HeaderOk(mem, bs, i))
    requires next == if k + 1 < |bs| then bs[k + 1].addr else 0
    requires next != 0 ==> next in mem && bs[k].addr in mem && (mem[bs[k].addr].used || mem[next].used)
    ensures Merged(bs, k + 1)
  {
    NextIs(bs, base, cap, k, next);
    if k + 1 < |bs| {
      assert HeaderOk(mem, bs, k) && HeaderOk(mem, bs, k + 1);
      assert Split(bs, k);
    }
  }

  /** No block is as large as a request whose size sum wraps. */
  lemma TooSmall(bs: seq<Blk>, base: nat, cap: nat, k: nat, bytes: nat)
    requires Tiles(bs, base, cap) && k < |bs| && base + cap < TWO64 && !Fits(bytes)
    ensures bs[k].size < HDR + bytes
  {
    Disjoint(bs, base, cap, k, k);
  }

  lemma NeedMultiple(bytes: nat)
    ensures Need(bytes) % ALIGN == 0
  {
  }

  /** A free block's address is no live block's. */
  lemma NotLive(bs: seq<Blk>, base: nat, cap: nat, k: nat)
    requires Tiles(bs, base, cap) && k < |bs| && !bs[k].used
    ensures forall b :: b in Live(bs) ==> b.addr != bs[k].addr
  {
    hide Tiles;
    forall b | b in Live(bs)
      ensures b.addr != bs[k].addr
    {
      var i :| 0 <= i < |bs| && bs[i] == b;
      SizeAt(bs, base, cap, i);
      SizeAt(bs, base, cap, k);
      Disjoint(bs, base, cap, i, k);
    }
  }

  /** The headers after block k was marked. */
  lemma MarkHeaders(mem: map<nat, Header>, bs: seq<Blk>, base: nat, cap: nat, k: nat, used: bool)
    requires Tiles(bs, base, cap) && k < |bs| && forall i :: 0 <= i < |bs| ==> HeaderOk(mem, bs, i)
    ensures bs[k].addr in mem
    ensures var m, r := mem[bs[k].addr := mem[bs[k].addr].(used := used)], bs[k := bs[k].(used := used)];
            forall i :: 0 <= i < |r| ==> HeaderOk(m, r, i)
  {
    hide Tiles;
    assert HeaderOk(mem, bs, k);
    var m, r := mem[bs[k].addr := mem[bs[k].addr].(used := used)], bs[k := bs[k].(used := used)];
    forall i | 0 <= i < |r|
      ensures HeaderOk(m, r, i)
    {
      assert HeaderOk(mem, bs, i);
      SizeAt(bs, base, cap, i);
      SizeAt(bs, base, cap, k);
      Disjoint(bs, base, cap, i, k);
    }
  }

  lemma SizeAt(bs: seq<Blk>, base: nat, cap: nat, i: nat)
    requires Tiles(bs, base, cap) && i < |bs|
    ensures bs[i].size > 0
  {
  }

  /** The headers after need bytes were split off block k. */
  lemma CutHeaders(mem: map<nat, Header>, bs: seq<Blk>, base: nat, cap: nat, k: nat, need: nat)
    requires Tiles(bs, base, cap) && k < |bs| && 0 < need < bs[k].size
    requires forall i :: 0 <= i < |bs| ==> HeaderOk(mem, bs, i)
    ensures bs[k].addr in mem
    ensures var b, h := bs[k], mem[bs[k].addr];
            var m := mem[b.addr + need := Header(h.next, b.size - need, false)];
            var m := m[b.addr := Header(b.addr + need, need, true)];
            var r := Cut(bs, k, Blk(b.addr, need, true), Blk(b.addr + need, b.size - need, false));
            forall i :: 0 <= i < |r| ==> HeaderOk(m, r, i)
  {
    hide Tiles, Cut;
    assert HeaderOk(mem, bs, k);
    var b, h := bs[k], mem[bs[k].addr];
    var m := mem[b.addr + need := Header(h.next, b.size - need, false)][b.addr := Header(b.addr + need, need, true)];
    var r := Cut(bs, k, Blk(b.addr, need, true), Blk(b.addr + need, b.size - need, false));
    forall i | 0 <= i < |r|
      ensures HeaderOk(m, r, i)
    {
      if i != k && i != k + 1 {
        var j := if i < k then i else i - 1;
        assert HeaderOk(mem, bs, j);
        SizeAt(bs, base, cap, j);
        Disjoint(bs, base, cap, j, k);
      }
    }
  }

  /** The headers after free blocks k and k + 1 were merged. */
  lemma JoinHeaders(mem: map<nat, Header>, bs: seq<Blk>, base: nat, cap: nat, k: nat, m: map<nat, Header>, r: seq<Blk>)
    requires Tiles(bs, base, cap) && k + 1 < |bs| && !bs[k].used && forall i :: 0 <= i < |bs| ==> HeaderOk(mem, bs, i)
    requires bs[k].addr in mem && bs[k + 1].addr in mem
    requires m ==
        mem[bs[k].addr := Header(mem[bs[k + 1].addr].next, mem[bs[k].addr].size + mem[bs[k + 1].addr].size, false)]
    requires r == Join(bs, k, Blk(bs[k].addr, bs[k].size + bs[k + 1].size, false))
    ensures forall i :: 0 <= i < |r| ==> HeaderOk(m, r, i)
  {
    hide Tiles, Join;
    assert HeaderOk(mem, bs, k) && HeaderOk(mem, bs, k + 1);
    forall i | 0 <= i < |r|
      ensures HeaderOk(m, r, i)
    {
      if i != k {
        var j := if i < k then i else i + 1;
        assert HeaderOk(mem, bs, j);
        SizeAt(bs, base, cap, j);
        SizeAt(bs, base, cap, k);
        Disjoint(bs, base, cap, j, k);
      }
    }
  }

  lemma FirstAddr(bs: seq<Blk>, base: nat, cap: nat)
    requires Tiles(bs, base, cap)
    ensures |bs| > 0 && bs[0].addr == base
  {
  }
}
