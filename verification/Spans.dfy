/**
 Which memory the direct map takes in (kern/vm.c): runs of touching ranges from
 their first real memory on, rounded to 2M pages. The runs are defined on the set
 of ranges; the scan of the sorted map is proved to find exactly them.
 */
module Spans {
  import opened BootInfo
  import opened Memory

  function Down2M(x: nat): (r: nat)
    ensures r <= x < r + SIZE2M && r % SIZE2M == 0
  {
    x / SIZE2M * SIZE2M
  }

  // ------------------------------------------------- runs of touching ranges

  ghost predicate Taken(mem: seq<Range>, x: nat) {
    exists r :: r in mem && Contains(r, x)
  }

  /** The run of touching ranges that holds b ends at e: no gap from b to e, and what starts by e ends by e. */
  ghost predicate Ends(mem: seq<Range>, b: nat, e: nat) {
    && b <= e
    && (forall x :: b <= x < e ==> Taken(mem, x))
    && forall r :: r in mem && r.base <= e ==> End(r) <= e
  }

  lemma EndsUnique(mem: seq<Range>, b: nat, e: nat, f: nat)
    requires Ends(mem, b, e) && Ends(mem, b, f)
    ensures e == f
  {
    assert e < f ==> Taken(mem, e);
    assert f < e ==> Taken(mem, f);
  }

  /** x lies in a run, from the 2M page of its first real memory to the 2M page in which it ends, and below top. */
  ghost predicate InRun(mem: seq<Range>, top: nat, x: nat) {
    x < top && exists r, e :: r in mem && IsRam(r) && Ends(mem, r.base, e) && Down2M(r.base) <= x < Up2M(e)
  }

  /** The order of the ranges plays no part. */
  lemma RunsAnyOrder(a: seq<Range>, b: seq<Range>, top: nat, x: nat)
    requires forall r :: r in a <==> r in b
    ensures InRun(a, top, x) <==> InRun(b, top, x)
  {
    forall p, e
      ensures Ends(a, p, e) <==> Ends(b, p, e)
    {
      EndsAnyOrder(a, b, p, e);
      EndsAnyOrder(b, a, p, e);
    }
  }

  lemma EndsAnyOrder(a: seq<Range>, b: seq<Range>, p: nat, e: nat)
    requires forall r :: r in a <==> r in b
    ensures Ends(a, p, e) ==> Ends(b, p, e)
  {
    if Ends(a, p, e) {
      forall x | p <= x < e
        ensures Taken(b, x)
      {
        assert Taken(a, x);
        var r :| r in a && Contains(r, x);
        assert r in b;
      }
    }
  }

  /** The range has a byte in the 2M page at d, or at least starts there. */
  predicate Meets(r: Range, d: nat) {
    r.base < d + SIZE2M && (d < End(r) || d <= r.base)
  }

  /** What is in a run is in a 2M page that some range meets. */
  lemma RunNeedsRange(mem: seq<Range>, top: nat, x: nat)
    requires InRun(mem, top, x)
    ensures exists r :: r in mem && Meets(r, Down2M(x))
  {
    var r: Range, e: nat :| r in mem && IsRam(r) && Ends(mem, r.base, e) && Down2M(r.base) <= x < Up2M(e);
    var d := Down2M(x);
    PageOrder(r.base, x, e);
    if r.base < d {
      assert Taken(mem, d);
      var q :| q in mem && Contains(q, d);
      assert Meets(q, d);
    } else {
      assert Meets(r, d);
    }
  }

  lemma PageOrder(b: nat, x: nat, e: nat)
    requires Down2M(b) <= x < Up2M(e)
    ensures b < Down2M(x) + SIZE2M && Down2M(x) < e
  {
    var p, q, r := b / SIZE2M, x / SIZE2M, (e + SIZE2M - 1) / SIZE2M;
    assert p <= q;
    assert q < r;
  }

  /** A range of length 0 joins no others. It counts only as real memory, where a run starts. */
  lemma EmptyRange(mem: seq<Range>, z: Range, top: nat, x: nat)
    requires z.length == 0
    ensures InRun(mem + [z], top, x) <==>
            || InRun(mem, top, x)
            || (x < top && IsRam(z) && exists e :: Ends(mem, z.base, e) && Down2M(z.base) <= x < Up2M(e))
  {
    var more := mem + [z];
    forall p, e
      ensures Ends(more, p, e) <==> Ends(mem, p, e)
    {
      EmptyEnds(mem, z, p, e);
    }
    assert forall r :: r in more <==> r in mem || r == z;
  }

  lemma EmptyEnds(mem: seq<Range>, z: Range, p: nat, e: nat)
    requires z.length == 0
    ensures Ends(mem + [z], p, e) <==> Ends(mem, p, e)
  {
    var more := mem + [z];
    assert forall r :: r in more <==> r in mem || r == z;
    if Ends(mem, p, e) {
      forall x | p <= x < e
        ensures Taken(more, x)
      {
        assert Taken(mem, x);
        var r :| r in mem && Contains(r, x);
        assert r in more;
      }
    }
    if Ends(more, p, e) {
      forall x | p <= x < e
        ensures Taken(mem, x)
      {
        assert Taken(more, x);
        var r :| r in more && Contains(r, x);
        assert r in mem;
      }
    }
  }

  /** By itself it takes in the 2M page around it, unless it stands at the start of one. */
  lemma LoneEmptyRange(z: Range, top: nat, x: nat)
    requires z.length == 0 && IsRam(z)
    ensures InRun([z], top, x) <==> x < top && z.base % SIZE2M != 0 && Down2M(x) == Down2M(z.base)
  {
    assert Ends([z], z.base, z.base);
    if InRun([z], top, x) {
      var e: nat :| Ends([z], z.base, e) && Down2M(z.base) <= x < Up2M(e);
      EndsUnique([z], z.base, e, z.base);
    }
    PageAround(z.base, x);
  }

  lemma PageAround(b: nat, x: nat)
    ensures Down2M(b) <= x < Up2M(b) <==> b % SIZE2M != 0 && Down2M(x) == Down2M(b)
  {
    var p, q, r := b / SIZE2M, x / SIZE2M, (b + SIZE2M - 1) / SIZE2M;
    assert r == if b % SIZE2M == 0 then p else p + 1;
    assert p * SIZE2M <= x <==> p <= q;
    assert x < r * SIZE2M <==> q < r;
  }

  // -------------------------------------------------------------- the scan

  /** A mapped stretch of physical memory, in bytes. */
  datatype Stretch = Stretch(lo: nat, hi: nat)

  predicate InStretch(s: Stretch, x: nat) {
    s.lo <= x < s.hi
  }

  predicate InSome(ss: seq<Stretch>, x: nat) {
    exists i :: 0 <= i < |ss| && InStretch(ss[i], x)
  }

  /** A span under way: the ranges before s are in it, it reaches hi, lo is its first real memory. */
  datatype Run = Run(s: nat, hi: nat, ram: bool, lo: nat)

  /** The ranges from n on that are in x touch, without a gap, and end at x.hi; x.lo is their first RAM. */
  ghost predicate Together(mem: seq<Range>, n: nat, x: Run)
    requires n <= x.s <= |mem| && n < |mem|
  {
    && End(mem[n]) <= x.hi
    && (forall i :: n <= i < x.s ==> End(mem[i]) <= x.hi)
    && (n < x.s ==> forall y :: mem[n].base <= y < x.hi ==> Taken(mem[n..x.s], y))
    && (x.ram <==> exists i :: n <= i < x.s && IsRam(mem[i]))
    && (x.ram ==> exists i :: n <= i < x.s && IsRam(mem[i]) && mem[i].base == x.lo)
    && forall i :: n <= i < x.s && IsRam(mem[i]) ==> x.lo <= mem[i].base
  }

  /** One span: together, and nothing later touches it. */
  ghost predicate SpanOk(mem: seq<Range>, n: nat, x: Run)
    requires n < x.s <= |mem|
  {
    Together(mem, n, x) && (x.s < |mem| ==> mem[x.s].base > x.hi)
  }

  /** With one more range. */
  function Joined(x: Run, r: Range): Run {
    Run(x.s + 1, if End(r) > x.hi then End(r) else x.hi, x.ram || IsRam(r), if !x.ram && IsRam(r) then r.base else x.lo)
  }

  lemma JoinedTogether(mem: seq<Range>, n: nat, x: Run)
    requires Sorted(mem) && n <= x.s < |mem| && Together(mem, n, x)
    requires x.s == n ==> x.hi == End(mem[n])
    requires x.s > n ==> mem[x.s].base <= x.hi
    ensures Together(mem, n, Joined(x, mem[x.s]))
  {
    var y := Joined(x, mem[x.s]);
    assert mem[n..y.s] == mem[n..x.s] + [mem[x.s]];
    forall z | mem[n].base <= z < y.hi
      ensures Taken(mem[n..y.s], z)
    {
      if n < x.s && z < x.hi {
        assert Taken(mem[n..x.s], z);
        var r :| r in mem[n..x.s] && Contains(r, z);
        assert r in mem[n..y.s];
      } else {
        assert mem[x.s] in mem[n..y.s] && Contains(mem[x.s], z);
      }
    }
  }

  /** The span that the ranges from n on form, from the state x of the scan on. */
  function Scan(mem: seq<Range>, n: nat, x: Run): (y: Run)
    requires n <= x.s <= |mem|
    ensures x.s <= y.s <= |mem| && (x.s == n < |mem| ==> n < y.s)
    decreases |mem| - x.s
  {
    if x.s == |mem| || (x.s > n && mem[x.s].base > x.hi) then x
    else
      Scan(mem, n, Joined(x, mem[x.s]))
  }

  function SpanAt(mem: seq<Range>, n: nat): (y: Run)
    requires n < |mem|
    ensures n < y.s <= |mem|
  {
    Scan(mem, n, Run(n, End(mem[n]), false, 0))
  }

  lemma {:induction false} ScanTogether(mem: seq<Range>, n: nat, x: Run)
    requires Sorted(mem) && n <= x.s <= |mem| && n < |mem| && Together(mem, n, x)
    requires x.s == n ==> x.hi == End(mem[n])
    ensures Together(mem, n, Scan(mem, n, x))
    ensures var y := Scan(mem, n, x); n < y.s && (y.s < |mem| ==> mem[y.s].base > y.hi)
    decreases |mem| - x.s
  {
    hide Together;
    if !(x.s == |mem| || (x.s > n && mem[x.s].base > x.hi)) {
      JoinedTogether(mem, n, x);
      ScanTogether(mem, n, Joined(x, mem[x.s]));
    }
  }

  lemma SpanAtOk(mem: seq<Range>, n: nat)
    requires Sorted(mem) && n < |mem|
    ensures SpanOk(mem, n, SpanAt(mem, n))
  {
    ScanTogether(mem, n, Run(n, End(mem[n]), false, 0));
  }

  lemma ScanOn(mem: seq<Range>, n: nat, x: Run)
    requires n <= x.s <= |mem|
    ensures x.s == |mem| || (x.s > n && mem[x.s].base > x.hi) ==> Scan(mem, n, x) == x
    ensures x.s < |mem| && !(x.s > n && mem[x.s].base > x.hi) ==> Scan(mem, n, x) == Scan(mem, n, Joined(x, mem[x.s]))
  {
  }

  /** The inner loop of kvmalloc. */
  method NextSpan(mem: seq<Range>, n: nat) returns (s: nat, hi: nat, ram: bool, lo: nat)
    requires Sorted(mem) && n < |mem|
    ensures n < s <= |mem| && SpanOk(mem, n, Run(s, hi, ram, lo)) && Run(s, hi, ram, lo) == SpanAt(mem, n)
  {
    hide Scan, Together;
    hi := mem[n].base + mem[n].length;
    ram, lo := false, 0;
    s := n;
    NothingJoined(mem, n);
    while s < |mem|
      invariant n <= s <= |mem| && Together(mem, n, Run(s, hi, ram, lo)) && (s == n ==> hi == End(mem[n]))
      invariant Scan(mem, n, Run(s, hi, ram, lo)) == SpanAt(mem, n)
    {
      ScanOn(mem, n, Run(s, hi, ram, lo));
      if s > n && mem[s].base > hi {
        break;
      }
      JoinedTogether(mem, n, Run(s, hi, ram, lo));
      if mem[s].base + mem[s].length > hi {
        hi := mem[s].base + mem[s].length;
      }
      if !ram && mem[s].kind == RAM {
        ram, lo := true, mem[s].base;
      }
      s := s + 1;
    }
    ScanOn(mem, n, Run(s, hi, ram, lo));
  }

  lemma NothingJoined(mem: seq<Range>, n: nat)
    requires n < |mem|
    ensures Together(mem, n, Run(n, End(mem[n]), false, 0))
  {
  }

  // ------------------------------------------------------- the scan is exact

  /** What comes before n does not touch what comes from n on. */
  predicate Apart(mem: seq<Range>, n: nat)
    requires n <= |mem|
  {
    forall i, j :: 0 <= i < n <= j < |mem| ==> End(mem[i]) < mem[j].base
  }

  lemma ApartNext(mem: seq<Range>, n: nat, x: Run)
    requires Sorted(mem) && n < x.s <= |mem| && Apart(mem, n) && SpanOk(mem, n, x)
    ensures Apart(mem, x.s)
  {
    forall i, j | 0 <= i < x.s <= j < |mem|
      ensures End(mem[i]) < mem[j].base
    {
      assert mem[x.s].base <= mem[j].base;
      if i < n {
        assert End(mem[i]) < mem[j].base;
      }
    }
  }

  /** A span is a run. */
  lemma SpanEnds(mem: seq<Range>, n: nat, x: Run, i: nat)
    requires Sorted(mem) && n < x.s <= |mem| && Apart(mem, n) && SpanOk(mem, n, x) && n <= i < x.s
    ensures Ends(mem, mem[i].base, x.hi)
  {
    assert mem[n].base <= mem[i].base <= End(mem[i]);
    forall y | mem[i].base <= y < x.hi
      ensures Taken(mem, y)
    {
      assert Taken(mem[n..x.s], y);
      var r :| r in mem[n..x.s] && Contains(r, y);
      assert r in mem;
    }
    forall r | r in mem && r.base <= x.hi
      ensures End(r) <= x.hi
    {
      var k :| 0 <= k < |mem| && mem[k] == r;
      if k < n {
        assert End(mem[k]) < mem[n].base;
      }
    }
  }

  /** Where the next stretch starts: the span's first RAM, rounded down, but not below the watermark. */
  function StretchLo(lo: nat, done: nat): nat {
    if Down2M(lo) < done then done else Down2M(lo)
  }

  function StretchHi(hi: nat, top: nat): nat {
    if Up2M(hi) > top then top else Up2M(hi)
  }

  /** The stretches that kvmalloc maps from range n on, with the watermark at done. */
  function StretchesFrom(mem: seq<Range>, n: nat, done: nat, top: nat): seq<Stretch>
    decreases |mem| - n
  {
    if n >= |mem| then []
    else
      var x := SpanAt(mem, n);
      var t := Stretch(StretchLo(x.lo, done), StretchHi(x.hi, top));
      if x.ram && t.lo < t.hi then [t] + StretchesFrom(mem, x.s, t.hi, top) else StretchesFrom(mem, x.s, done, top)
  }

  /** All of them. */
  function Stretches(mem: seq<Range>, top: nat): seq<Stretch> {
    StretchesFrom(mem, 0, 0, top)
  }

  /** x lies in the part of a run that range i lets in. */
  ghost predicate LetIn(mem: seq<Range>, i: nat, x: nat)
    requires i < |mem|
  {
    IsRam(mem[i]) && exists e :: Ends(mem, mem[i].base, e) && Down2M(mem[i].base) <= x < Up2M(e)
  }

  /** All that a span lets in is one stretch, from its first RAM on. */
  lemma SpanLetsIn(mem: seq<Range>, n: nat, x: Run, y: nat)
    requires Sorted(mem) && n < x.s <= |mem| && Apart(mem, n) && SpanOk(mem, n, x)
    ensures (exists i :: n <= i < x.s && LetIn(mem, i, y)) <==> x.ram && Down2M(x.lo) <= y < Up2M(x.hi)
  {
    if i :| n <= i < x.s && LetIn(mem, i, y) {
      SpanEnds(mem, n, x, i);
      var e :| Ends(mem, mem[i].base, e) && Down2M(mem[i].base) <= y < Up2M(e);
      EndsUnique(mem, mem[i].base, e, x.hi);
      DownMono(x.lo, mem[i].base);
    }
    if x.ram && Down2M(x.lo) <= y < Up2M(x.hi) {
      var i :| n <= i < x.s && IsRam(mem[i]) && mem[i].base == x.lo;
      SpanEnds(mem, n, x, i);
      assert LetIn(mem, i, y);
    }
  }

  lemma DownMono(a: nat, b: nat)
    requires a <= b
    ensures Down2M(a) <= Down2M(b)
  {
  }

  /** Later spans begin above this one, so below its end they add nothing to it. */
  lemma LaterLetsIn(mem: seq<Range>, n: nat, x: Run, i: nat, y: nat)
    requires Sorted(mem) && n < x.s <= i < |mem| && SpanOk(mem, n, x) && x.ram && LetIn(mem, i, y)
    ensures Down2M(x.lo) <= y
  {
    var k :| n <= k < x.s && IsRam(mem[k]) && mem[k].base == x.lo;
    DownMono(mem[k].base, mem[i].base);
  }

  lemma {:induction false} StretchesExact(mem: seq<Range>, n: nat, done: nat, top: nat, y: nat)
    requires Sorted(mem) && n <= |mem| && Apart(mem, n)
    ensures InSome(StretchesFrom(mem, n, done, top), y) <==>
            done <= y < top && exists i :: n <= i < |mem| && LetIn(mem, i, y)
    decreases |mem| - n
  {
    hide Apart, SpanOk, LetIn, SpanAt, InStretch;
    if n < |mem| {
      var x := SpanAt(mem, n);
      SpanAtOk(mem, n);
      ApartNext(mem, n, x);
      SpanLetsIn(mem, n, x, y);
      var t := Stretch(StretchLo(x.lo, done), StretchHi(x.hi, top));
      if x.ram && t.lo < t.hi {
        StretchesExact(mem, x.s, t.hi, top, y);
        InSomeCons(t, StretchesFrom(mem, x.s, t.hi, top), y);
        forall i | x.s <= i < |mem| && LetIn(mem, i, y)
          ensures Down2M(x.lo) <= y
        {
          LaterLetsIn(mem, n, x, i, y);
        }
      } else {
        StretchesExact(mem, x.s, done, top, y);
      }
    }
  }

  lemma InSomeCons(t: Stretch, ss: seq<Stretch>, x: nat)
    ensures InSome([t] + ss, x) <==> InSome(ss, x) || t.lo <= x < t.hi
  {
    var r := [t] + ss;
    assert InStretch(r[0], x) <==> t.lo <= x < t.hi;
    if i :| 0 <= i < |ss| && InStretch(ss[i], x) {
      assert r[i + 1] == ss[i];
    }
    if i :| 0 < i < |r| && InStretch(r[i], x) {
      assert r[i] == ss[i - 1];
    }
  }

  /** The stretches are what the runs of touching ranges take in. */
  lemma StretchesAreRuns(mem: seq<Range>, top: nat, x: nat)
    requires Sorted(mem)
    ensures InSome(Stretches(mem, top), x) <==> InRun(mem, top, x)
  {
    hide InSome, StretchesFrom;
    StretchesExact(mem, 0, 0, top, x);
    if x < top && exists i :: 0 <= i < |mem| && LetIn(mem, i, x) {
      var i :| 0 <= i < |mem| && LetIn(mem, i, x);
      var e :| Ends(mem, mem[i].base, e) && Down2M(mem[i].base) <= x < Up2M(e);
      assert mem[i] in mem;
    }
    if InRun(mem, top, x) {
      var r: Range, e: nat :| r in mem && IsRam(r) && Ends(mem, r.base, e) && Down2M(r.base) <= x < Up2M(e);
      var i :| 0 <= i < |mem| && mem[i] == r;
      assert LetIn(mem, i, x);
    }
  }
}
