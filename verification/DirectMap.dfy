/**
 kvmalloc's direct map (kern/vm.c): every byte of real memory at DMAP_BASE + pa,
 built span by span over the sorted memory map with a rising watermark.
 */
module DirectMap {
  import opened Arith
  import opened PageTable
  import opened BootInfo
  import opened Memory
  import opened Spans
  import opened Reach
  import Vm
  import opened Basics


  const DMAPBASE: nat := 0x8000_0000_0000  // low 48 bits of DMAP_BASE
  const DMAPMAX: nat := 0x4000_0000_0000
  const DMAPVPN: nat := 0x8_0000_0000      // DMAPBASE in pages

  /** 2M-aligned stretches in rising order, none overlapping, the last ending at done. */
  predicate Rising(ss: seq<Stretch>, done: nat) {
    && (forall i :: 0 <= i < |ss| ==> ss[i].lo < ss[i].hi && ss[i].lo % SIZE2M == 0 && ss[i].hi % SIZE2M == 0)
    && (forall i, j :: 0 <= i < j < |ss| ==> ss[i].hi <= ss[j].lo)
    && (ss == [] ==> done == 0) && (ss != [] ==> done == ss[|ss| - 1].hi)
  }

  /** The direct map translates exactly the pages of the stretches, each to itself. */
  ghost predicate MapsExactly(m: Tables, root: nat, ss: seq<Stretch>) {
    forall f :: 0 <= f < DMAPMAX / PGSIZE ==>
      Lookup(m, root, 4, DMAPVPN + f) == if InSome(ss, f * PGSIZE) then Some(Leaf(f, PTEW)) else None
  }

  /** The direct map translates exactly what the runs of touching ranges take in, each page to itself. */
  ghost predicate MapsRuns(m: Tables, root: nat, mem: seq<Range>, top: nat) {
    forall f :: 0 <= f < DMAPMAX / PGSIZE ==>
      Lookup(m, root, 4, DMAPVPN + f) == if InRun(mem, top, f * PGSIZE) then Some(Leaf(f, PTEW)) else None
  }

  lemma StretchesMapRuns(m: Tables, root: nat, mem: seq<Range>, top: nat)
    requires Sorted(mem) && MapsExactly(m, root, Stretches(mem, top))
    ensures MapsRuns(m, root, mem, top)
  {
    hide Lookup, InSome, InRun, Stretches;
    forall f | 0 <= f < DMAPMAX / PGSIZE
      ensures Lookup(m, root, 4, DMAPVPN + f) == if InRun(mem, top, f * PGSIZE) then Some(Leaf(f, PTEW)) else None
    {
      StretchesAreRuns(mem, top, f * PGSIZE);
    }
  }

  /** A page whose 2M no range meets has no translation. */
  lemma HolesUnmapped(m: Tables, root: nat, mem: seq<Range>, top: nat, f: nat)
    requires MapsRuns(m, root, mem, top) && f < DMAPMAX / PGSIZE
    requires forall r :: r in mem ==> !Meets(r, Down2M(f * PGSIZE))
    ensures Lookup(m, root, 4, DMAPVPN + f) == None
  {
    hide Lookup, InRun;
    if InRun(mem, top, f * PGSIZE) {
      RunNeedsRange(mem, top, f * PGSIZE);
      assert false;
    }
  }

  /** Every byte of every RAM range among the first n is in a stretch. */
  ghost predicate Covered(mem: seq<Range>, n: nat, ss: seq<Stretch>)
    requires n <= |mem|
  {
    forall i, x :: 0 <= i < n && IsRam(mem[i]) && Contains(mem[i], x) ==> InSome(ss, x)
  }

  /** Ranges still to come start no lower than the last stretch does. */
  predicate Ahead(mem: seq<Range>, n: nat, ss: seq<Stretch>)
    requires n <= |mem|
  {
    ss != [] ==> forall i :: n <= i < |mem| ==> ss[|ss| - 1].lo <= mem[i].base
  }

  lemma NothingAbove(ss: seq<Stretch>, done: nat, x: nat)
    requires Rising(ss, done) && done <= x
    ensures !InSome(ss, x)
  {
    forall i | 0 <= i < |ss|
      ensures !InStretch(ss[i], x)
    {
      assert i < |ss| - 1 ==> ss[i].hi <= ss[|ss| - 1].lo;
    }
  }

  lemma InSomeSnoc(ss: seq<Stretch>, t: Stretch, x: nat)
    ensures InSome(ss + [t], x) <==> InSome(ss, x) || InStretch(t, x)
  {
    var r := ss + [t];
    if InSome(ss, x) {
      var i :| 0 <= i < |ss| && InStretch(ss[i], x);
      assert r[i] == ss[i];
    }
    assert r[|ss|] == t;
  }

  /** The span's RAM is in the stretches so far or in the new one. */
  lemma SpanCovered(mem: seq<Range>, n: nat, s: nat, hi: nat, lo: nat, done: nat, top: nat, ss: seq<Stretch>, i: nat,
                    x: nat)
    requires n < s <= |mem| && SpanOk(mem, n, Run(s, hi, true, lo)) && Rising(ss, done) && Ahead(mem, n, ss)
    requires n <= i < s && IsRam(mem[i]) && Contains(mem[i], x) && End(mem[i]) <= top
    ensures InSome(ss, x) || InStretch(Stretch(StretchLo(lo, done), StretchHi(hi, top)), x)
  {
    if x < done {
      assert InStretch(ss[|ss| - 1], x);
    }
  }

  lemma StretchAligned(lo: nat, hi: nat, done: nat, top: nat)
    requires done % SIZE2M == 0 && top % SIZE2M == 0
    ensures StretchLo(lo, done) % SIZE2M == 0 && done <= StretchLo(lo, done)
    ensures StretchHi(hi, top) % SIZE2M == 0 && StretchHi(hi, top) <= top
  {
  }

  lemma LoBelowHi(lo: nat, hi: nat, done: nat, top: nat)
    requires done % SIZE2M == 0 && StretchLo(lo, done) < StretchHi(hi, top)
    ensures StretchLo(lo, done) < hi
  {
    var l, n := StretchLo(lo, done), (hi + SIZE2M - 1) / SIZE2M;
    assert Up2M(hi) == n * SIZE2M <= hi + SIZE2M - 1;
    LoAligned(lo, done);
    StepWithin(l, SIZE2M, n);
  }

  lemma LoAligned(lo: nat, done: nat)
    requires done % SIZE2M == 0
    ensures StretchLo(lo, done) % SIZE2M == 0
  {
  }

  lemma AddStretch(mem: seq<Range>, n: nat, s: nat, hi: nat, lo: nat, done: nat, top: nat, ss: seq<Stretch>)
    requires Sorted(mem) && n < s <= |mem| && SpanOk(mem, n, Run(s, hi, true, lo))
    requires Rising(ss, done) && Ahead(mem, n, ss)
    requires top % SIZE2M == 0 && forall i :: 0 <= i < |mem| && IsRam(mem[i]) ==> End(mem[i]) <= top
    requires Covered(mem, n, ss) && StretchLo(lo, done) < StretchHi(hi, top) && (done % SIZE2M == 0)
    ensures var t := Stretch(StretchLo(lo, done), StretchHi(hi, top));
            Rising(ss + [t], t.hi) && Ahead(mem, s, ss + [t]) && Covered(mem, s, ss + [t])
  {
    hide StretchLo, StretchHi, InSome, Rising, SpanOk;
    var t := Stretch(StretchLo(lo, done), StretchHi(hi, top));
    forall i, x | 0 <= i < s && IsRam(mem[i]) && Contains(mem[i], x)
      ensures InSome(ss + [t], x)
    {
      InSomeSnoc(ss, t, x);
      if i >= n {
        SpanCovered(mem, n, s, hi, lo, done, top, ss, i, x);
      }
    }
    StretchAligned(lo, hi, done, top);
    LoBelowHi(lo, hi, done, top);
    RisesOn(ss, done, t);
    StillAhead(mem, n, s, hi, lo, ss, t);
  }

  lemma RisesOn(ss: seq<Stretch>, done: nat, t: Stretch)
    requires Rising(ss, done) && done <= t.lo < t.hi && t.lo % SIZE2M == 0 && t.hi % SIZE2M == 0
    ensures Rising(ss + [t], t.hi)
  {
    forall i | 0 <= i < |ss|
      ensures ss[i].hi <= t.lo
    {
      assert i < |ss| - 1 ==> ss[i].hi <= ss[|ss| - 1].lo;
    }
  }

  lemma StillAhead(mem: seq<Range>, n: nat, s: nat, hi: nat, lo: nat, ss: seq<Stretch>, t: Stretch)
    requires Sorted(mem) && n < s <= |mem| && SpanOk(mem, n, Run(s, hi, true, lo)) && t.lo < hi
    ensures Ahead(mem, s, ss + [t])
  {
    assert forall i :: s <= i < |mem| ==> mem[s].base <= mem[i].base;
  }

  lemma SkipStretch(mem: seq<Range>, n: nat, s: nat, hi: nat, lo: nat, done: nat, top: nat, ss: seq<Stretch>)
    requires n < s <= |mem| && SpanOk(mem, n, Run(s, hi, true, lo)) && Rising(ss, done) && Ahead(mem, n, ss)
    requires forall i :: 0 <= i < |mem| && IsRam(mem[i]) ==> End(mem[i]) <= top
    requires Covered(mem, n, ss) && StretchLo(lo, done) >= StretchHi(hi, top)
    ensures Covered(mem, s, ss) && Ahead(mem, s, ss)
  {
    forall i, x | 0 <= i < s && IsRam(mem[i]) && Contains(mem[i], x)
      ensures InSome(ss, x)
    {
      if i >= n {
        SpanCovered(mem, n, s, hi, lo, done, top, ss, i, x);
      }
    }
  }

  /** Mapping one more stretch at DMAPBASE. */
  lemma StretchMaps(m: Tables, r: Tables, root: nat, ss: seq<Stretch>, t: Stretch)
    requires MapsExactly(m, root, ss) && t.lo % PGSIZE == 0 && t.hi % PGSIZE == 0 && t.lo <= t.hi <= DMAPMAX
    requires Remapped(m, r, root, DMAPVPN + t.lo / PGSIZE, (t.hi - t.lo) / PGSIZE, t.lo / PGSIZE, PTEW)
    ensures MapsExactly(r, root, ss + [t])
  {
    hide Lookup, InSome;
    forall f | 0 <= f < DMAPMAX / PGSIZE
      ensures Lookup(r, root, 4, DMAPVPN + f) == if InSome(ss + [t], f * PGSIZE) then Some(Leaf(f, PTEW)) else None
    {
      InSomeSnoc(ss, t, f * PGSIZE);
      assert Span(5) > DMAPVPN + f;
    }
  }

  /** What alignment makes of a stretch's addresses. */
  lemma StretchPages(l: nat, h: nat)
    requires l % SIZE2M == 0 && h % SIZE2M == 0 && l < h <= DMAPMAX
    ensures l % PGSIZE == 0 && h % PGSIZE == 0 && (DMAPBASE + l) % PGSIZE == 0
    ensures (DMAPBASE + l) / PGSIZE == DMAPVPN + l / PGSIZE
    ensures Vm.Pages(h - l) == (h - l) / PGSIZE
    ensures DMAPVPN + l / PGSIZE + (h - l) / PGSIZE <= Span(5)
  {
    var a, b := l / SIZE2M, h / SIZE2M;
    assert l == PGSIZE * (512 * a) && h == PGSIZE * (512 * b);
    Whole(l, 512 * a);
    Whole(h, 512 * b);
    Whole(DMAPBASE + l, DMAPVPN + 512 * a);
    Whole(h - l, 512 * (b - a));
    assert (h - l + PGSIZE - 1) / PGSIZE == 512 * (b - a);
  }

  lemma Whole(x: nat, k: nat)
    requires x == PGSIZE * k
    ensures x / PGSIZE == k && x % PGSIZE == 0
  {
  }

  /** Above the watermark nothing is mapped yet, so map_range's precondition holds. */
  lemma Fresh(m: Tables, root: nat, ss: seq<Stretch>, done: nat, l: nat, h: nat)
    requires MapsExactly(m, root, ss) && Rising(ss, done) && done <= l < h <= DMAPMAX && l % PGSIZE == 0
    requires h % PGSIZE == 0
    ensures Vm.Untranslated(m, root, DMAPVPN + l / PGSIZE, (h - l) / PGSIZE)
  {
    hide Lookup, InSome;
    forall w | DMAPVPN + l / PGSIZE <= w < DMAPVPN + l / PGSIZE + (h - l) / PGSIZE
      ensures Lookup(m, root, 4, w) == None
    {
      var f := w - DMAPVPN;
      NothingAbove(ss, done, f * PGSIZE);
      assert Lookup(m, root, 4, DMAPVPN + f) == None;
    }
  }

  // ------------------------------------------------------- what it costs

  /** The places of the tables on the walks to a stretch. */
  function StretchSteps(have1g: bool, t: Stretch): set<Loc> {
    if t.lo < t.hi then Vm.RangeSteps(have1g, DMAPVPN + t.lo / PGSIZE, t.lo / PGSIZE, (t.hi - t.lo) / PGSIZE) else {}
  }

  function AllSteps(have1g: bool, ss: seq<Stretch>): set<Loc> {
    if ss == [] then {} else AllSteps(have1g, ss[..|ss| - 1]) + StretchSteps(have1g, ss[|ss| - 1])
  }

  lemma StepsSnoc(have1g: bool, ss: seq<Stretch>, t: Stretch)
    ensures AllSteps(have1g, ss + [t]) == AllSteps(have1g, ss) + StretchSteps(have1g, t)
  {
    assert (ss + [t])[..|ss|] == ss;
  }

  lemma {:induction false} StepsGrow(have1g: bool, ss: seq<Stretch>, more: seq<Stretch>)
    ensures AllSteps(have1g, ss) <= AllSteps(have1g, ss + more)
    decreases |more|
  {
    if more == [] {
      assert ss + more == ss;
    } else {
      var n := |more| - 1;
      StepsGrow(have1g, ss, more[..n]);
      StepsSnoc(have1g, ss + more[..n], more[n]);
      assert ss + more == (ss + more[..n]) + [more[n]];
    }
  }

  /** Pages [a, b) and the pages under l have one in common. */
  predicate Touches(l: Loc, a: nat, b: nat) {
    a < b && FirstPage(l) < b && a < FirstPage(l) + Span(l.level + 1)
  }

  predicate Encloses(l: Loc, a: nat, b: nat) {
    a <= FirstPage(l) && FirstPage(l) + Span(l.level + 1) <= b
  }

  /**
   The tables that whole 2M pages [a, b) take: one for each 512G they touch, and one
   for each 1G they touch, unless 1G pages can be used and all of it is theirs.
   */
  predicate Needed(have1g: bool, a: nat, b: nat, l: Loc) {
    (l.level == 3 && Touches(l, a, b)) || (l.level == 2 && Touches(l, a, b) && !(have1g && Encloses(l, a, b)))
  }

  lemma LeafIs(have1g: bool, vpn: nat, f: nat, n: nat)
    requires vpn % 512 == 0 && n % 512 == 0 && n > 0 && vpn % 0x4_0000 == f % 0x4_0000
    ensures Vm.LeafLevel(have1g, vpn, f, n) == if have1g && vpn % 0x4_0000 == 0 && n >= 0x4_0000 then 3 else 2
  {
    hide PageTable.Span;
    Scale(vpn);
    Scale(f);
    Finer(vpn);
    Finer(f);
  }

  lemma Finer(x: nat)
    ensures x % 512 == x % 0x4_0000 % 512
  {
    var q, r := x / 0x4_0000, x % 0x4_0000;
    assert x == (512 * q) * 512 + r;
    ModSum(512 * q, 512, r);
  }

  lemma Scale(x: nat)
    ensures (x * PGSIZE) % Vm.SIZE1G == 0 <==> x % 0x4_0000 == 0
    ensures (x * PGSIZE) % Vm.SIZE2M == 0 <==> x % 512 == 0
  {
    ScaleBy(x, 0x4_0000);
    ScaleBy(x, 512);
  }

  lemma ScaleBy(x: nat, d: nat)
    requires d > 0
    ensures (x * PGSIZE) % (d * PGSIZE) == x % d * PGSIZE
  {
    var q, r := x / d, x % d;
    assert x == q * d + r;
    assert x * PGSIZE == q * (d * PGSIZE) + r * PGSIZE;
    DivIs(q, r * PGSIZE, d * PGSIZE);
  }

  /** The piece of size at a ends within a's d. */
  lemma PieceEnds(a: nat, size: nat, d: nat)
    requires size > 0 && d > 0 && a % size == 0 && d % size == 0
    ensures a / d * d <= a && a + size <= (a / d + 1) * d
  {
    var m, q := d / size, a / d;
    Between(a, q, q + 1, d);
    Exactly(d, size);
    Regroup(q + 1, m, size);
    StepWithin(a, size, (q + 1) * m);
  }

  lemma Exactly(x: nat, d: nat)
    requires d > 0 && x % d == 0
    ensures x == x / d * d
  {
  }

  lemma StepWithin(a: nat, size: nat, n: nat)
    requires size > 0 && a % size == 0 && a < n * size
    ensures a + size <= n * size
  {
    var k := a / size;
    Exactly(a, size);
    Between(a, 0, n, size);
    MulMono(k + 1, n, size);
    Distribute(k, 1, size);
  }

  /** The place above the first page, or one that the rest touches. */
  lemma TouchNext(l: Loc, a: nat, b: nat, size: nat)
    requires 2 <= l.level <= 3 && (size == 512 || size == 0x4_0000) && a % size == 0 && a + size <= b
    requires size <= Span(l.level + 1)
    ensures Touches(l, a, b) <==> l == Step(a, l.level) || Touches(l, a + size, b)
  {
    var d := Span(l.level + 1);
    assert d % size == 0;
    hide Span;
    PieceEnds(a, size, d);
    var p, q := l.prefix, a / d;
    Distribute(p, 1, d);
    if p < q {
      MulMono(p + 1, q, d);
    } else if p > q {
      MulMono(q + 1, p, d);
    } else {
      Distribute(q, 1, d);
    }
  }

  lemma EncloseNext(l: Loc, a: nat, b: nat, size: nat)
    requires l.level == 2 && (size == 512 || size == 0x4_0000) && a % size == 0 && a + size <= b
    ensures l != Step(a, 2) && Touches(l, a, b) ==> (Encloses(l, a, b) <==> Encloses(l, a + size, b))
    ensures l == Step(a, 2) ==> (Encloses(l, a, b) <==> a % 0x4_0000 == 0 && a + 0x4_0000 <= b)
    ensures l == Step(a, 2) ==> !Encloses(l, a + size, b)
    ensures l == Step(a, 2) && size == 0x4_0000 ==> !Touches(l, a + size, b)
  {
    var d := Span(3);
    assert d == 0x4_0000 && d % size == 0;
    hide Span;
    PieceEnds(a, size, d);
    var p, q := l.prefix, a / d;
    assert a == q * d + a % d;
    Distribute(p, 1, d);
    if p < q {
      MulMono(p + 1, q, d);
    } else if p > q {
      MulMono(q + 1, p, d);
    }
  }

  lemma {:induction false} RangeNeeds(have1g: bool, vpn: nat, f: nat, n: nat, l: Loc)
    requires vpn % 512 == 0 && n % 512 == 0 && vpn % 0x4_0000 == f % 0x4_0000
    ensures l in Vm.RangeSteps(have1g, vpn, f, n) <==> Needed(have1g, vpn, vpn + n, l)
    decreases n
  {
    hide Needed, Vm.LeafLevel, Vm.RangeSteps, Steps;
    if n == 0 {
      NoTouch(have1g, l, vpn, f);
    } else {
      LeafIs(have1g, vpn, f, n);
      var k := Vm.LeafLevel(have1g, vpn, f, n);
      StillWhole(vpn, f, n, Span(k));
      RangeNeeds(have1g, vpn + Span(k), f + Span(k), n - Span(k), l);
      Vm.RangeNext({}, have1g, vpn, f, n, k);
      NeedNext(have1g, vpn, vpn + n, k, l);
    }
  }

  lemma StillWhole(vpn: nat, f: nat, n: nat, size: nat)
    requires vpn % 512 == 0 && n % 512 == 0 && vpn % 0x4_0000 == f % 0x4_0000
    requires (size == 512 || size == 0x4_0000) && size <= n
    ensures (vpn + size) % 512 == 0 && (n - size) % 512 == 0 && (vpn + size) % 0x4_0000 == (f + size) % 0x4_0000
  {
    SameRest(vpn, 0, size, 512);
    PieceWhole(size, n, n - size);
    SameRest(vpn, f, size, 0x4_0000);
  }

  lemma SameRest(x: nat, y: nat, k: nat, d: nat)
    requires d > 0 && x % d == y % d
    ensures (x + k) % d == (y + k) % d
  {
    var p, q, r := x / d, y / d, x % d;
    assert x == p * d + r && y == q * d + r;
    ModSum(p, d, r + k);
    ModSum(q, d, r + k);
  }

  /** What the first leaf needs, and the rest. */
  lemma NeedNext(have1g: bool, a: nat, b: nat, k: nat, l: Loc)
    requires a % 512 == 0 && a < b && k == (if have1g && a % 0x4_0000 == 0 && a + 0x4_0000 <= b then 3 else 2)
    requires a + Span(k) <= b
    ensures Needed(have1g, a, b, l) <==> l in Steps(a, k, 4) || Needed(have1g, a + Span(k), b, l)
  {
    hide Steps, Touches, Encloses, Step;
    InSteps(a, k, 4);
    if l.level == 2 || l.level == 3 {
      TouchNext(l, a, b, Span(k));
    }
    if l.level == 2 {
      EncloseNext(l, a, b, Span(k));
    }
  }

  lemma NoTouch(have1g: bool, l: Loc, vpn: nat, f: nat)
    ensures !Needed(have1g, vpn, vpn, l) && Vm.RangeSteps(have1g, vpn, f, 0) == {}
  {
  }

  /** The direct map's tables, place by place. */
  lemma {:induction false} TablesNeeded(have1g: bool, ss: seq<Stretch>, done: nat, l: Loc)
    requires Rising(ss, done)
    ensures l in AllSteps(have1g, ss) <==> exists i :: 0 <= i < |ss| && StretchNeeds(have1g, ss[i], l)
  {
    hide StretchSteps, StretchNeeds;
    if ss != [] {
      var n := |ss| - 1;
      TablesNeeded(have1g, ss[..n], if n == 0 then 0 else ss[n - 1].hi, l);
      OneNeeded(have1g, ss[n], l);
      if l in AllSteps(have1g, ss[..n]) {
        var i :| 0 <= i < n && StretchNeeds(have1g, ss[..n][i], l);
        assert ss[i] == ss[..n][i];
      } else if i :| 0 <= i < |ss| && StretchNeeds(have1g, ss[i], l) {
        assert i < n ==> ss[..n][i] == ss[i];
      }
    }
  }

  predicate StretchNeeds(have1g: bool, t: Stretch, l: Loc) {
    Needed(have1g, DMAPVPN + t.lo / PGSIZE, DMAPVPN + t.hi / PGSIZE, l)
  }

  lemma OneNeeded(have1g: bool, t: Stretch, l: Loc)
    requires t.lo < t.hi && t.lo % SIZE2M == 0 && t.hi % SIZE2M == 0
    ensures l in StretchSteps(have1g, t) <==> StretchNeeds(have1g, t, l)
  {
    hide Needed, Vm.RangeSteps;
    WholePages(t.lo);
    WholePages(t.hi);
    PagesOf(t.lo, t.hi);
    PieceWhole(t.lo / PGSIZE, t.hi / PGSIZE, (t.hi - t.lo) / PGSIZE);
    RangeNeeds(have1g, DMAPVPN + t.lo / PGSIZE, t.lo / PGSIZE, (t.hi - t.lo) / PGSIZE, l);
  }

  lemma PieceWhole(a: nat, b: nat, n: nat)
    requires a % 512 == 0 && b % 512 == 0 && a + n == b
    ensures n % 512 == 0
  {
  }

  lemma WholePages(x: nat)
    requires x % SIZE2M == 0
    ensures x % PGSIZE == 0 && (x / PGSIZE) % 512 == 0 && (DMAPVPN + x / PGSIZE) % 512 == 0
    ensures (DMAPVPN + x / PGSIZE) % 0x4_0000 == (x / PGSIZE) % 0x4_0000
  {
    var q := x / SIZE2M;
    assert x == PGSIZE * (512 * q);
    Whole(x, 512 * q);
  }

  /** From a kernel table with no others, m has just the tables that the stretches take, all below limit. */
  ghost predicate Costed(m0: Tables, m: Tables, root: nat, have1g: bool, ss: seq<Stretch>, limit: nat) {
    && Reached(m, root) == AllSteps(have1g, ss) && |m.Keys| == |m0.Keys| + |Reached(m, root)|
    && Vm.Below(Reached(m, root), limit)
  }

  /** There are not tables enough for the stretches. */
  ghost predicate Short(m0: Tables, m: Tables, root: nat, have1g: bool, ss: seq<Stretch>) {
    |m.Keys| == |m0.Keys| + |Reached(m, root)| && Reached(m, root) < AllSteps(have1g, ss)
  }

  lemma NoneCosted(m: Tables, root: nat, have1g: bool)
    requires Reached(m, root) == {}
    ensures Costed(m, m, root, have1g, [], DMAPVPN)
  {
    hide Reached;
  }

  /** One more stretch, of n pages from v on. */
  lemma CostedNext(m0: Tables, m: Tables, r: Tables, root: nat, have1g: bool, ss: seq<Stretch>, limit: nat, t: Stretch,
                   v: nat, f: nat, n: nat, ok: bool)
    requires Costed(m0, m, root, have1g, ss, limit) && limit <= v
    requires StretchSteps(have1g, t) == Vm.RangeSteps(have1g, v, f, n)
    requires Vm.Clear(Reached(m, root), have1g, v, f, n) ==>
               Vm.RangeCount(m, r, root, Vm.RangeSteps(have1g, v, f, n), ok)
    ensures ok ==> Costed(m0, r, root, have1g, ss + [t], v + n)
    ensures !ok ==> Short(m0, r, root, have1g, ss + [t])
  {
    hide Reached, AllSteps, StretchSteps, Vm.Clear, Vm.RangeSteps, Vm.Below, Vm.RangeCount;
    var s, more := Reached(m, root), Vm.RangeSteps(have1g, v, f, n);
    Higher(s, limit, v);
    Vm.ClearAbove(s, have1g, v, f, n);
    StepsSnoc(have1g, ss, t);
    Vm.RangeBelow(have1g, v, f, n);
    Higher(s, v, v + n);
    BothBelow(s, more, v + n);
    Counted(m0, m, r, root, more, ok);
  }

  lemma PagesOf(lo: nat, hi: nat)
    requires lo <= hi && lo % PGSIZE == 0 && hi % PGSIZE == 0
    ensures lo / PGSIZE + (hi - lo) / PGSIZE == hi / PGSIZE
  {
  }

  lemma Counted(m0: Tables, m: Tables, r: Tables, root: nat, more: set<Loc>, ok: bool)
    requires |m.Keys| == |m0.Keys| + |Reached(m, root)| && Vm.RangeCount(m, r, root, more, ok)
    ensures |r.Keys| == |m0.Keys| + |Reached(r, root)|
    ensures if ok then Reached(r, root) == Reached(m, root) + more else Reached(r, root) < Reached(m, root) + more
  {
    hide Reached;
  }

  lemma Higher(s: set<Loc>, a: nat, b: nat)
    requires Vm.Below(s, a) && a <= b
    ensures Vm.Below(s, b)
  {
  }

  lemma BothBelow(s: set<Loc>, t: set<Loc>, a: nat)
    requires Vm.Below(s, a) && Vm.Below(t, a)
    ensures Vm.Below(s + t, a)
  {
  }

  lemma ShortMore(m0: Tables, m: Tables, root: nat, have1g: bool, ss: seq<Stretch>, more: seq<Stretch>)
    requires Short(m0, m, root, have1g, ss)
    ensures Short(m0, m, root, have1g, ss + more)
  {
    hide Reached, AllSteps;
    StepsGrow(have1g, ss, more);
  }

  /** Map one stretch; above the watermark map_range's precondition always holds. */
  method MapStretch(mmu: Vm.Mmu, root: nat, ghost ss: seq<Stretch>, ghost done: nat, l: nat, h: nat,
                    ghost m0: Tables, ghost first: bool) returns (ok: bool)
    requires mmu.Valid() && root == mmu.sh.kroot && MapsExactly(mmu.tables, root, ss) && Rising(ss, done)
    requires l % SIZE2M == 0 && h % SIZE2M == 0 && done <= l < h <= DMAPMAX
    requires first ==> Costed(m0, mmu.tables, root, mmu.have1g, ss, DMAPVPN + done / PGSIZE)
    modifies mmu`tables, mmu`free, mmu`sh
    ensures mmu.Valid() && root == mmu.sh.kroot && mmu.Frames() == old(mmu.Frames())
    ensures !ok ==> mmu.free == []
    ensures ok ==> MapsExactly(mmu.tables, root, ss + [Stretch(l, h)])
    ensures first && ok ==> Costed(m0, mmu.tables, root, mmu.have1g, ss + [Stretch(l, h)], DMAPVPN + h / PGSIZE)
    ensures first && !ok ==> Short(m0, mmu.tables, root, mmu.have1g, ss + [Stretch(l, h)])
  {
    hide Lookup, InSome, MapsExactly, Rising, Remapped, Costed, Short, Reached;
    hide Vm.Pages, Vm.Untranslated, Vm.Mmu.Valid, Vm.Mmu.Frames, Vm.Clear, Vm.RangeCount, Vm.RangeSteps;
    StretchPages(l, h);
    Fresh(mmu.tables, root, ss, done, l, h);
    ghost var m := mmu.tables;
    ghost var k;
    mmu.KernelRoot();
    ok, k := mmu.MapRange(root, DMAPBASE + l, l, h - l, PTEW);
    if first {
      PagesOf(l, h);
      CostedNext(m0, m, mmu.tables, root, mmu.have1g, ss, DMAPVPN + done / PGSIZE, Stretch(l, h),
                 DMAPVPN + l / PGSIZE, l / PGSIZE, (h - l) / PGSIZE, ok);
    }
    if ok {
      StretchMaps(m, mmu.tables, root, ss, Stretch(l, h));
    }
  }

  /** The frames that the direct map of mem takes. */
  ghost function Cost(have1g: bool, mem: seq<Range>, top: nat): nat {
    |AllSteps(have1g, Stretches(mem, top))|
  }

  /** The stretches still to come. */
  ghost predicate ToCome(mem: seq<Range>, top: nat, n: nat, done: nat, ss: seq<Stretch>) {
    Stretches(mem, top) == ss + StretchesFrom(mem, n, done, top)
  }

  lemma ToComeNext(mem: seq<Range>, top: nat, n: nat, done: nat, ss: seq<Stretch>)
    requires n < |mem| && ToCome(mem, top, n, done, ss)
    ensures var x := SpanAt(mem, n);
            var t := Stretch(StretchLo(x.lo, done), StretchHi(x.hi, top));
            if x.ram && t.lo < t.hi
            then ToCome(mem, top, x.s, t.hi, ss + [t])
                 && Stretches(mem, top) == ss + [t] + StretchesFrom(mem, x.s, t.hi, top)
            else ToCome(mem, top, x.s, done, ss)
  {
    hide SpanAt, StretchLo, StretchHi, Stretches;
  }

  /**
   The direct map. When it succeeds, every byte of real memory is translated at
   DMAPBASE plus its address, every page of the window is mapped at most once,
   and pages outside the stretches are not mapped; otherwise memory ran out. From a
   kernel table with no others it succeeds if and only if there are Cost frames.
   */
  method BuildDirectMap(mmu: Vm.Mmu, root: nat, mem: seq<Range>, top: nat)
      returns (ok: bool, mapped: bool, ghost ss: seq<Stretch>)
    requires mmu.Valid() && root == mmu.sh.kroot && Sorted(mem)
    requires top % SIZE2M == 0 && top <= DMAPMAX
    requires forall i :: 0 <= i < |mem| && IsRam(mem[i]) ==> End(mem[i]) <= top
    requires MapsExactly(mmu.tables, root, [])
    modifies mmu`tables, mmu`free, mmu`sh
    ensures mmu.Valid()
    ensures !ok ==> mmu.free == []
    ensures ok ==> MapsExactly(mmu.tables, root, ss) && Covered(mem, |mem|, ss) && ss == Stretches(mem, top)
    ensures ok ==> exists done :: Rising(ss, done)
    ensures ok ==> MapsRuns(mmu.tables, root, mem, top)
    ensures mapped <==> ss != []  // !mapped is the panic "nothing to map"
    ensures old(Reached(mmu.tables, root)) == {} ==> (ok <==> |old(mmu.free)| >= Cost(mmu.have1g, mem, top))
  {
    hide Lookup, InSome, MapsExactly, StretchLo, StretchHi, Covered, Ahead, SpanAt, Stretches, StretchesFrom, Reached;
    hide Costed, Short, Cost, ToCome, MapsRuns, SpanOk, Vm.Mmu.Valid, Vm.Mmu.Frames;
    ghost var m0, free0, first := mmu.tables, mmu.free, Reached(mmu.tables, root) == {};
    var n: nat, done: nat := 0, 0;
    mapped, ss := false, [];
    NothingYet(mem);
    AllToCome(mem, top);
    Vm.FrameTotal(mmu);
    if first {
      NoneCosted(m0, root, mmu.have1g);
    }
    while n < |mem|
      invariant n <= |mem| && mmu.Valid() && root == mmu.sh.kroot && mmu.Frames() == old(mmu.Frames())
      invariant Rising(ss, done) && done % SIZE2M == 0 && Ahead(mem, n, ss) && Covered(mem, n, ss)
      invariant MapsExactly(mmu.tables, root, ss) && (mapped <==> ss != [])
      invariant ToCome(mem, top, n, done, ss)
      invariant first ==> Costed(m0, mmu.tables, root, mmu.have1g, ss, DMAPVPN + done / PGSIZE)
    {
      var s, hi, ram, lo := NextSpan(mem, n);
      ToComeNext(mem, top, n, done, ss);
      if ram {
        var l, h := StretchLo(lo, done), StretchHi(hi, top);
        StretchAligned(lo, hi, done, top);
        if l < h {
          ok := MapStretch(mmu, root, ss, done, l, h, m0, first);
          if !ok {
            if first {
              ShortMore(m0, mmu.tables, root, mmu.have1g, ss + [Stretch(l, h)], StretchesFrom(mem, s, h, top));
              NotPaid(mmu, m0, free0, mem, top, root);
            }
            return;
          }
          AddStretch(mem, n, s, hi, lo, done, top, ss);
          mapped, ss, done := true, ss + [Stretch(l, h)], h;
        } else {
          SkipStretch(mem, n, s, hi, lo, done, top, ss);
        }
      } else {
        NoRam(mem, n, s, hi, lo, ss);
      }
      n := s;
    }
    AllCome(mem, top, n, done, ss);
    StretchesMapRuns(mmu.tables, root, mem, top);
    if first {
      AllPaid(mmu, m0, free0, mem, top, root, ss, DMAPVPN + done / PGSIZE);
    }
    ok := true;
  }

  lemma AllToCome(mem: seq<Range>, top: nat)
    ensures ToCome(mem, top, 0, 0, [])
  {
  }

  lemma AllCome(mem: seq<Range>, top: nat, n: nat, done: nat, ss: seq<Stretch>)
    requires ToCome(mem, top, n, done, ss) && n >= |mem|
    ensures ss == Stretches(mem, top)
  {
    hide Stretches;
  }

  lemma AllPaid(mmu: Vm.Mmu, m0: Tables, free0: seq<nat>, mem: seq<Range>, top: nat, root: nat, ss: seq<Stretch>,
                limit: nat)
    requires mmu.Valid() && |mmu.Frames()| == |free0| + |m0.Keys| + |mmu.data.Keys|
    requires Costed(m0, mmu.tables, root, mmu.have1g, ss, limit) && ss == Stretches(mem, top)
    ensures |free0| >= Cost(mmu.have1g, mem, top)
  {
    hide Reached, AllSteps, Stretches;
    Vm.FrameTotal(mmu);
  }

  lemma NotPaid(mmu: Vm.Mmu, m0: Tables, free0: seq<nat>, mem: seq<Range>, top: nat, root: nat)
    requires mmu.Valid() && mmu.free == [] && |mmu.Frames()| == |free0| + |m0.Keys| + |mmu.data.Keys|
    requires Short(m0, mmu.tables, root, mmu.have1g, Stretches(mem, top))
    ensures |free0| < Cost(mmu.have1g, mem, top)
  {
    hide Reached, AllSteps, Stretches;
    Vm.FrameTotal(mmu);
    ProperPart(Reached(mmu.tables, root), AllSteps(mmu.have1g, Stretches(mem, top)));
  }

  lemma ProperPart(s: set<Loc>, t: set<Loc>)
    requires s < t
    ensures |s| < |t|
  {
    assert t == s + (t - s) && t - s != {};
    assert |t| == |s| + |t - s|;
  }

  lemma NothingYet(mem: seq<Range>)
    ensures Rising([], 0) && Ahead(mem, 0, []) && Covered(mem, 0, [])
  {
  }

  lemma NoRam(mem: seq<Range>, n: nat, s: nat, hi: nat, lo: nat, ss: seq<Stretch>)
    requires n < s <= |mem| && SpanOk(mem, n, Run(s, hi, false, lo)) && Ahead(mem, n, ss) && Covered(mem, n, ss)
    ensures Ahead(mem, s, ss) && Covered(mem, s, ss)
  {
  }

  lemma PageOf(lo: nat, x: nat)
    requires lo % SIZE2M == 0 && lo <= x
    ensures lo <= x / PGSIZE * PGSIZE <= x
  {
    assert lo % PGSIZE == 0;
  }

  /** Read as translations: each byte of real memory is reachable at DMAPBASE plus its address. */
  lemma RamIsMapped(m: Tables, root: nat, mem: seq<Range>, ss: seq<Stretch>, done: nat, i: nat, x: nat)
    requires MapsExactly(m, root, ss) && Covered(mem, |mem|, ss) && Rising(ss, done)
    requires i < |mem| && IsRam(mem[i]) && Contains(mem[i], x) && x < DMAPMAX
    ensures Lookup(m, root, 4, (DMAPBASE + x) / PGSIZE) == Some(Leaf(x / PGSIZE, PTEW))
  {
    hide Lookup;
    assert InSome(ss, x);
    var k :| 0 <= k < |ss| && InStretch(ss[k], x);
    var f := x / PGSIZE;
    PageOf(ss[k].lo, x);
    assert InStretch(ss[k], f * PGSIZE);
    assert DMAPVPN + f == (DMAPBASE + x) / PGSIZE;
  }

  /** With a byte of real memory there is something to map. */
  lemma SomethingToMap(mem: seq<Range>, ss: seq<Stretch>, x: nat)
    requires Covered(mem, |mem|, ss) && RamByte(mem, x)
    ensures ss != []
  {
    assert InSome(ss, x);
  }

  /** NoMemory is detect_memory's panic, NothingToMap and OutOfMemory are kvmalloc's. */
  datatype Boot = NoMemory | OutOfMemory | NothingToMap | Mapped

  /** Every byte of real memory among the ranges is translated at DMAPBASE plus its address. */
  ghost predicate RamMapped(m: Tables, root: nat, mem: seq<Range>) {
    forall x: nat :: RamByte(mem, x) ==> Lookup(m, root, 4, (DMAPBASE + x) / PGSIZE) == Some(Leaf(x / PGSIZE, PTEW))
  }

  /** The range starts no higher than some real memory ends, so detect_memory takes it into account. */
  predicate Near(mem: seq<Range>, r: Range) {
    exists j :: 0 <= j < |mem| && IsRam(mem[j]) && r.base <= End(mem[j])
  }

  /** Real memory, and what begins below its end, fits the window; far holes are not looked at. */
  ghost predicate Windowed(mem: seq<Range>) {
    forall r :: r in mem && Near(mem, r) ==> End(r) <= DMAPMAX
  }

  /** No sum of a base and a length, rounded up, wraps around. */
  ghost predicate Unwrapped(mem: seq<Range>) {
    forall r :: r in mem ==> End(r) + SIZE2M <= 0x1_0000_0000_0000_0000
  }

  /**
   bootinfo_init's sort, detect_memory and kvmalloc's direct map, one after the
   other, on a memory map in any order.
   */
  method BootDirectMap(mmu: Vm.Mmu, root: nat, mem: array<Range>, n: nat) returns (r: Boot)
    requires mmu.Valid() && root == mmu.sh.kroot && MapsExactly(mmu.tables, root, []) && n <= mem.Length
    requires Windowed(mem[..n]) && Unwrapped(mem[..n])
    modifies mem, mmu`tables, mmu`free, mmu`sh
    ensures mmu.Valid() && Sorted(mem[..n]) && multiset(mem[..n]) == multiset(old(mem[..n]))
    ensures r.NoMemory? <==> forall i :: 0 <= i < n && IsRam(old(mem[i])) ==> End(old(mem[i])) == 0
    ensures r.OutOfMemory? ==> mmu.free == []
    ensures old(Reached(mmu.tables, root)) == {} && !r.NoMemory? ==>
      (r.OutOfMemory? <==> |old(mmu.free)| < Cost(mmu.have1g, mem[..n], PhysMapTop(mem[..n])))
    ensures r.NothingToMap? ==> forall x: nat :: !RamByte(old(mem[..n]), x)
    ensures r.Mapped? ==> RamMapped(mmu.tables, root, old(mem[..n]))
    ensures r.Mapped? || r.NothingToMap? ==> MapsRuns(mmu.tables, root, old(mem[..n]), PhysMapTop(mem[..n]))
    ensures r.NothingToMap? ==> forall x :: !InRun(old(mem[..n]), PhysMapTop(mem[..n]), x)
    ensures r.Mapped? ==> exists x :: InRun(old(mem[..n]), PhysMapTop(mem[..n]), x)
  {
    hide Lookup, MapsExactly, Covered, Rising, RamByte, RamTop, MapTop, Windowed, Reached, Cost, PhysMapTop, Stretches;
    hide MapsRuns, InRun;
    ghost var given := mem[..n];
    assert Windowed(given);
    assert forall i :: 0 <= i < n ==> given[i] == mem[i];
    SortRanges(mem, n);
    var ranges := mem[..n];
    SameRanges(given, ranges);
    var top, physTop, physMapTop := DetectMemory(ranges);
    TopFits(ranges, top, physMapTop);
    if top == 0 {
      return NoMemory;
    }
    var ok, mapped, ss := BuildDirectMap(mmu, root, ranges, physMapTop);
    if !ok {
      return OutOfMemory;
    }
    forall x: nat | RamByte(ranges, x)
      ensures ss != [] && Lookup(mmu.tables, root, 4, (DMAPBASE + x) / PGSIZE) == Some(Leaf(x / PGSIZE, PTEW))
    {
      SomethingToMap(ranges, ss, x);
      ByteIsMapped(mmu.tables, root, ranges, ss, x);
    }
    MapsAnyOrder(mmu.tables, root, given, ranges, physMapTop);
    SomeRun(given, ranges, physMapTop, ss);
    r := if mapped then Mapped else NothingToMap;
  }

  lemma MapsAnyOrder(m: Tables, root: nat, a: seq<Range>, b: seq<Range>, top: nat)
    requires MapsRuns(m, root, b, top) && forall r :: r in a <==> r in b
    ensures MapsRuns(m, root, a, top)
  {
    hide Lookup, InRun;
    forall f | 0 <= f < DMAPMAX / PGSIZE
      ensures Lookup(m, root, 4, DMAPVPN + f) == if InRun(a, top, f * PGSIZE) then Some(Leaf(f, PTEW)) else None
    {
      RunsAnyOrder(a, b, top, f * PGSIZE);
    }
  }

  /** There is a stretch just when some run takes something in. */
  lemma SomeRun(a: seq<Range>, b: seq<Range>, top: nat, ss: seq<Stretch>)
    requires Sorted(b) && ss == Stretches(b, top) && (exists done :: Rising(ss, done)) && forall r :: r in a <==> r in b
    ensures ss == [] ==> forall x :: !InRun(a, top, x)
    ensures ss != [] ==> exists x :: InRun(a, top, x)
  {
    hide InRun, Stretches;
    forall x: nat
      ensures InSome(ss, x) <==> InRun(a, top, x)
    {
      StretchesAreRuns(b, top, x);
      RunsAnyOrder(a, b, top, x);
    }
    if ss != [] {
      assert InStretch(ss[0], ss[0].lo);
      assert InSome(ss, ss[0].lo);
    }
  }

  lemma NoTables(m: Tables, root: nat)
    requires m == map[root := ZeroTable()]
    ensures Reached(m, root) == {}
  {
    hide Reached;
    InReached(m, root);
    assert forall l :: !IsReached(m, root, l) by {
      hide Ptx;
    }
  }

  /** The same from the start: a free list, an empty kpgdir taken from it, and the memory map. */
  method KvmAlloc(frames: seq<nat>, have1g: bool, mem: array<Range>, n: nat) returns (mmu: Vm.Mmu, r: Boot)
    requires Distinct(frames) && frames != [] && n <= mem.Length && Windowed(mem[..n]) && Unwrapped(mem[..n])
    modifies mem
    ensures fresh(mmu) && mmu.Valid() && Sorted(mem[..n]) && multiset(mem[..n]) == multiset(old(mem[..n]))
    ensures r.NoMemory? <==> forall i :: 0 <= i < n && IsRam(old(mem[i])) ==> End(old(mem[i])) == 0
    ensures r.Mapped? ==> RamMapped(mmu.tables, frames[0], old(mem[..n]))
    ensures r.Mapped? || r.NothingToMap? ==> MapsRuns(mmu.tables, frames[0], old(mem[..n]), PhysMapTop(mem[..n]))
    ensures !r.NoMemory? ==> (r.OutOfMemory? <==> |frames| < 1 + Cost(have1g, mem[..n], PhysMapTop(mem[..n])))
  {
    hide Lookup, RamMapped, MapsRuns, InRun, Windowed, Unwrapped, Reached, Cost, PhysMapTop;
    mmu := new Vm.Mmu(frames, have1g);
    NoTables(mmu.tables, frames[0]);
    assert MapsExactly(mmu.tables, frames[0], []);
    r := BootDirectMap(mmu, frames[0], mem, n);
  }

  lemma SameRanges(a: seq<Range>, b: seq<Range>)
    requires multiset(a) == multiset(b)
    ensures |a| == |b| && (forall i :: 0 <= i < |a| ==> a[i] in b) && (forall i :: 0 <= i < |b| ==> b[i] in a)
    ensures forall r :: r in a <==> r in b
    ensures forall x: nat :: RamByte(a, x) <==> RamByte(b, x)
    ensures Windowed(a) ==> Windowed(b)
  {
    assert |a| == |multiset(a)| == |multiset(b)| == |b|;
    forall r: Range
      ensures r in a <==> r in b
    {
      assert r in multiset(a) <==> r in multiset(b);
    }
    forall x: nat
      ensures RamByte(a, x) <==> RamByte(b, x)
    {
      RamIn(a, b, x);
      RamIn(b, a, x);
    }
    forall r | r in b && Near(b, r)
      ensures Near(a, r)
    {
      var j :| 0 <= j < |b| && IsRam(b[j]) && r.base <= End(b[j]);
      assert b[j] in a;
    }
  }

  lemma RamIn(a: seq<Range>, b: seq<Range>, x: nat)
    requires forall i :: 0 <= i < |a| ==> a[i] in b
    ensures RamByte(a, x) ==> RamByte(b, x)
  {
    if RamByte(a, x) {
      var i :| 0 <= i < |a| && IsRam(a[i]) && Contains(a[i], x);
      var j :| 0 <= j < |b| && b[j] == a[i];
    }
  }

  /** What detect_memory finds stays inside the window, and is 0 only if no real memory ends above 0. */
  lemma TopFits(mem: seq<Range>, top: nat, physMapTop: nat)
    requires Windowed(mem)
    requires RamTop(mem, |mem|, top) && exists maptop :: MapTop(mem, |mem|, top, maptop) && physMapTop == Up2M(maptop)
    ensures physMapTop % SIZE2M == 0 && (top > 0 ==> physMapTop <= DMAPMAX)
    ensures top == 0 <==> forall i :: 0 <= i < |mem| && IsRam(mem[i]) ==> End(mem[i]) == 0
  {
    hide MapTop, Windowed;
    var maptop: nat :| MapTop(mem, |mem|, top, maptop) && physMapTop == Up2M(maptop);
    if top > 0 {
      MapTopFits(mem, top, maptop);
    }
  }

  lemma MapTopFits(mem: seq<Range>, top: nat, maptop: nat)
    requires Windowed(mem) && top > 0 && RamTop(mem, |mem|, top) && MapTop(mem, |mem|, top, maptop)
    ensures maptop <= DMAPMAX
  {
    var j :| 0 <= j < |mem| && IsRam(mem[j]) && End(mem[j]) == top;
    assert Near(mem, mem[j]);
    if maptop > top {
      var i :| 0 <= i < |mem| && mem[i].base <= top && End(mem[i]) == maptop;
      assert Near(mem, mem[i]);
    }
  }

  lemma ByteIsMapped(m: Tables, root: nat, mem: seq<Range>, ss: seq<Stretch>, x: nat)
    requires MapsExactly(m, root, ss) && Covered(mem, |mem|, ss) && RamByte(mem, x)
    requires Windowed(mem) && exists done :: Rising(ss, done)
    ensures Lookup(m, root, 4, (DMAPBASE + x) / PGSIZE) == Some(Leaf(x / PGSIZE, PTEW))
  {
    hide Lookup, MapsExactly, Covered, Rising;
    var done :| Rising(ss, done);
    var i :| 0 <= i < |mem| && IsRam(mem[i]) && Contains(mem[i], x);
    assert Near(mem, mem[i]);
    RamIsMapped(m, root, mem, ss, done, i, x);
  }
}
