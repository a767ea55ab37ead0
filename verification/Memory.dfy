/**
 kern/kalloc.c measuring the memory map: detect_memory and ram_run_end.
 */
module Memory {
  import opened BootInfo

  const PGSIZE: nat := 4096
  const SIZE2M: nat := 0x20_0000

  predicate IsRam(r: Range) {
    r.kind == RAM
  }

  predicate Contains(r: Range, x: nat) {
    r.base <= x < End(r)
  }

  /** x is a byte of real memory. */
  predicate RamByte(mem: seq<Range>, x: nat) {
    exists i :: 0 <= i < |mem| && IsRam(mem[i]) && Contains(mem[i], x)
  }

  /** x rounded up to a multiple of 2M. */
  function Up2M(x: nat): (r: nat)
    ensures r % SIZE2M == 0 && x <= r < x + SIZE2M
  {
    (x + SIZE2M - 1) / SIZE2M * SIZE2M
  }

  /** top is where the real memory among the first n ranges ends. */
  predicate RamTop(mem: seq<Range>, n: nat, top: nat)
    requires n <= |mem|
  {
    && (forall i :: 0 <= i < n && IsRam(mem[i]) ==> End(mem[i]) <= top)
    && (top > 0 ==> exists i :: 0 <= i < n && IsRam(mem[i]) && End(mem[i]) == top)
  }

  /** Where those of the first n ranges that start no higher than top end. */
  predicate MapTop(mem: seq<Range>, n: nat, top: nat, maptop: nat)
    requires n <= |mem|
  {
    && top <= maptop
    && (forall i :: 0 <= i < n && mem[i].base <= top ==> End(mem[i]) <= maptop)
    && (maptop > top ==> exists i :: 0 <= i < n && mem[i].base <= top && End(mem[i]) == maptop)
  }

  /** Those two ends, range by range. */
  function HighestRam(mem: seq<Range>, n: nat): (top: nat)
    requires n <= |mem|
    ensures RamTop(mem, n, top)
  {
    if n == 0 then 0
    else
      var t := HighestRam(mem, n - 1);
      if IsRam(mem[n - 1]) && End(mem[n - 1]) > t then End(mem[n - 1]) else t
  }

  function HighestNear(mem: seq<Range>, n: nat, top: nat): (maptop: nat)
    requires n <= |mem|
    ensures MapTop(mem, n, top, maptop)
  {
    if n == 0 then top
    else
      var t := HighestNear(mem, n - 1, top);
      if mem[n - 1].base <= top && End(mem[n - 1]) > t then End(mem[n - 1]) else t
  }

  /** detect_memory's phys_map_top. */
  function PhysMapTop(mem: seq<Range>): nat {
    Up2M(HighestNear(mem, |mem|, HighestRam(mem, |mem|)))
  }

  /** detect_memory's first loop. */
  method RamEnd(mem: seq<Range>) returns (top: nat)
    ensures RamTop(mem, |mem|, top)
  {
    top := 0;
    for i := 0 to |mem|
      invariant RamTop(mem, i, top)
    {
      if mem[i].kind == RAM && mem[i].base + mem[i].length > top {
        top := mem[i].base + mem[i].length;
      }
    }
  }

  /** detect_memory's second loop. */
  method MapEnd(mem: seq<Range>, top: nat) returns (maptop: nat)
    ensures MapTop(mem, |mem|, top, maptop)
  {
    maptop := top;
    for i := 0 to |mem|
      invariant MapTop(mem, i, top, maptop)
    {
      if mem[i].base <= top && mem[i].base + mem[i].length > maptop {
        maptop := mem[i].base + mem[i].length;
      }
    }
  }

  /** detect_memory: the top of what is handed out and of what is mapped; top 0 is the panic. */
  method DetectMemory(mem: seq<Range>) returns (top: nat, physTop: nat, physMapTop: nat)
    ensures RamTop(mem, |mem|, top)
    ensures physTop <= top < physTop + PGSIZE && physTop % PGSIZE == 0
    ensures exists maptop :: MapTop(mem, |mem|, top, maptop) && physMapTop == Up2M(maptop)
    ensures physMapTop == PhysMapTop(mem)
    ensures forall i :: 0 <= i < |mem| && IsRam(mem[i]) ==> End(mem[i]) <= physMapTop
  {
    hide RamTop, MapTop, Up2M;
    top := RamEnd(mem);
    var maptop := MapEnd(mem, top);
    physTop := top / PGSIZE * PGSIZE;
    physMapTop := Up2M(maptop);
    assert MapTop(mem, |mem|, top, maptop);
    RamFits(mem, top, maptop);
    TopsUnique(mem, top, maptop, HighestRam(mem, |mem|), HighestNear(mem, |mem|, HighestRam(mem, |mem|)));
  }

  lemma RamFits(mem: seq<Range>, top: nat, maptop: nat)
    requires RamTop(mem, |mem|, top) && MapTop(mem, |mem|, top, maptop)
    ensures forall i :: 0 <= i < |mem| && IsRam(mem[i]) ==> End(mem[i]) <= Up2M(maptop)
  {
    assert maptop <= Up2M(maptop);
  }

  /** The two tops are what they are. */
  lemma TopsUnique(mem: seq<Range>, top: nat, maptop: nat, top': nat, maptop': nat)
    requires RamTop(mem, |mem|, top) && MapTop(mem, |mem|, top, maptop)
    requires RamTop(mem, |mem|, top') && MapTop(mem, |mem|, top', maptop')
    ensures top == top' && maptop == maptop'
  {
  }

  /** e is where the run of real memory holding p ends: solid up to e, nothing reaching past it. */
  ghost predicate RunEnd(mem: seq<Range>, p: nat, e: nat) {
    && p < e
    && (forall x :: p <= x < e ==> RamByte(mem, x))
    && forall i :: 0 <= i < |mem| && IsRam(mem[i]) && mem[i].base <= e ==> End(mem[i]) <= e
  }

  /** There is only one such end. */
  lemma RunEndUnique(mem: seq<Range>, p: nat, e: nat, f: nat)
    requires RunEnd(mem, p, e) && RunEnd(mem, p, f)
    ensures e == f
  {
    assert e < f ==> RamByte(mem, e);
    assert f < e ==> RamByte(mem, f);
  }

  /** No range ends above this. */
  function Highest(mem: seq<Range>): (h: nat)
    ensures forall i :: 0 <= i < |mem| ==> End(mem[i]) <= h
  {
    if mem == [] then 0
    else
      var m := |mem| - 1;
      var h := Highest(mem[..m]);
      assert forall i :: 0 <= i < m ==> mem[..m][i] == mem[i];
      if End(mem[m]) > h then End(mem[m]) else h
  }

  /** ram_run_end(p): 0 when p is not real memory. */
  method RamRunEnd(mem: seq<Range>, p: nat) returns (end: nat)
    ensures end == 0 <==> !RamByte(mem, p)
    ensures end > 0 ==> RunEnd(mem, p, end)
  {
    end := 0;
    for i := 0 to |mem|
      invariant end == 0
      invariant forall k :: 0 <= k < i ==> !(IsRam(mem[k]) && Contains(mem[k], p))
    {
      if mem[i].kind == RAM && mem[i].base <= p < mem[i].base + mem[i].length {
        end := mem[i].base + mem[i].length;
        break;
      }
    }
    var grew := end != 0;
    while grew
      invariant end == 0 <==> !RamByte(mem, p)
      invariant end > 0 ==> p < end && forall x :: p <= x < end ==> RamByte(mem, x)
      invariant end <= Highest(mem)
      invariant grew ==> end > 0
      invariant end > 0 && !grew ==> forall k :: 0 <= k < |mem| && IsRam(mem[k]) && mem[k].base <= end ==>
          End(mem[k]) <= end
      decreases Highest(mem) - end, grew
    {
      end, grew := GrowPass(mem, p, end);
    }
  }

  /** One pass over the map, extending the run by every range that touches it. */
  method GrowPass(mem: seq<Range>, ghost p: nat, start: nat) returns (end: nat, grew: bool)
    requires p < start <= Highest(mem) && forall x :: p <= x < start ==> RamByte(mem, x)
    ensures start <= end <= Highest(mem) && forall x :: p <= x < end ==> RamByte(mem, x)
    ensures grew <==> start < end
    ensures !grew ==> forall k :: 0 <= k < |mem| && IsRam(mem[k]) && mem[k].base <= end ==> End(mem[k]) <= end
  {
    end, grew := start, false;
    for i := 0 to |mem|
      invariant start <= end <= Highest(mem) && (grew <==> start < end)
      invariant forall x :: p <= x < end ==> RamByte(mem, x)
      invariant !grew ==> forall k :: 0 <= k < i && IsRam(mem[k]) && mem[k].base <= end ==> End(mem[k]) <= end
    {
      if mem[i].kind != RAM || mem[i].base > end {
        continue;
      }
      var hi := mem[i].base + mem[i].length;
      if hi > end {
        forall x | end <= x < hi
          ensures RamByte(mem, x)
        {
          assert Contains(mem[i], x);
        }
        end, grew := hi, true;
      }
    }
  }
}
