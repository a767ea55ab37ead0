/**
 kern/vm.c over the free list of kern/kalloc.c: do_walk and map_range writing
 page tables in place. Frames are named by number; the free list, the page
 tables and the user pages never share one.
 */
module Vm {
  import opened Bytes
  import opened PageTable
  import opened PageTree
  import opened Reach
  import opened Basics

  const PGSIZE: nat := 4096
  const SIZE2M: nat := 0x20_0000
  const SIZE1G: nat := 0x4000_0000

  function Elems(s: seq<nat>): (r: set<nat>)
    ensures forall f :: f in r <==> f in s
  {
    set f | f in s
  }

  lemma Taken(a: set<nat>, b: set<nat>, k: set<nat>, l: set<nat>, d: set<nat>, f: nat)
    requires a == b + {f} && forall x :: x in l <==> x in k || x == f
    ensures b + l + d == a + k + d
  {
  }

  /** A page of an address space. */
  datatype Home = Home(root: nat, vpn: nat)

  class Mmu {
    var tables: Tables
    var data: map<nat, seq<Byte>>  // user pages
    var free: seq<nat>             // kmem.freelist
    const have1g: bool
    ghost var sh: Shape
    ghost var home: map<nat, Home> // where each user page is mapped

    /** Every frame has one use. */
    ghost predicate Valid()
      reads this
    {
      && ForestOk(tables, sh)
      && Distinct(free) && (forall f :: f in free ==> f !in tables && f !in data)
      && forall f :: f in data ==> f !in tables
    }

    /** All the frames there are. */
    ghost function Frames(): set<nat>
      reads this
    {
      Elems(free) + tables.Keys + data.Keys
    }

    /** kvmalloc's start: of the frames on the free list the first becomes the zeroed kpgdir. */
    constructor (frames: seq<nat>, have1g: bool)
      requires Distinct(frames) && frames != []
      ensures Valid() && Frames() == Elems(frames) && this.have1g == have1g
      ensures sh.kroot == frames[0] && free == frames[1..] && data == map[] && home == map[]
      ensures tables == map[frames[0] := ZeroTable()] && sh.wide == {frames[0]}
      ensures forall w: nat :: Lookup(tables, sh.kroot, 4, w) == None
    {
      var k := frames[0];
      this.have1g, free, data, home := have1g, frames[1..], map[], map[];
      tables := map[k := ZeroTable()];
      sh := Shape(map[k := Loc(4, 0)], map[k := k], map[], k, {k});
      new;
      assert frames == [k] + frames[1..];
    }

    method Kalloc() returns (r: Option<nat>)
      requires Distinct(free)
      modifies this`free
      ensures old(free) == [] ==> r == None && free == []
      ensures old(free) != [] ==> r == Some(old(free)[0]) && free == old(free)[1..]
      ensures Distinct(free) && (r.Some? ==> r.value !in free && Elems(old(free)) == Elems(free) + {r.value})
      ensures forall f :: f in free ==> f in old(free)
    {
      if free == [] {
        r := None;
      } else {
        r := Some(free[0]);
        assert free == [free[0]] + free[1..];
        free := free[1..];
      }
    }

    method Kfree(f: nat)
      requires Distinct(free) && f !in free
      modifies this`free
      ensures free == [f] + old(free) && Distinct(free) && Elems(free) == Elems(old(free)) + {f}
    {
      free := [f] + free;
    }

    /** The new table for entry i of u: taken from the free list, zeroed, linked. */
    method AddTable(u: nat, i: nat) returns (r: Option<nat>)
      requires Valid() && u in tables && 1 < sh.pos[u].level && i < NPT && |tables[u]| == NPT && !tables[u][i].present
      requires sh.own[u] != sh.kroot ==> UserPart(sh.pos[u], i)
      modifies this`tables, this`free, this`sh
      ensures Valid() && Frames() == old(Frames())
      ensures r.None? ==> free == [] && tables == old(tables) && sh == old(sh)
      ensures r.Some? ==> && Plantable(old(tables), old(sh), u, i, r.value)
                          && tables == WithTable(old(tables), u, i, r.value) && sh == Planted(old(sh), u, i, r.value)
    {
      hide ForestOk, Elems;
      Known(u);
      r := Kalloc();
      if r.Some? {
        PlantedForest(tables, sh, u, i, r.value);
        sh := Planted(sh, u, i, r.value);
        tables := tables[r.value := ZeroTable()];
        tables := tables[u := tables[u][i := Pte(true, false, r.value, TABLEPERM)]];
        Taken(Elems(old(free)), Elems(free), old(tables).Keys, tables.Keys, data.Keys, r.value);
      }
    }

    /** One level of do_walk: the next table on vpn's walk, made if missing and alloc. */
    method NextTable(t: nat, vpn: nat, alloc: bool, level: nat, ghost stop: nat) returns (r: Option<nat>)
      requires Valid() && t in tables && sh.pos[t].level == level > 1 && stop < level && Through(sh.pos[t], vpn)
      requires sh.own[t] != sh.kroot ==> UserPart(sh.pos[t], Ptx(vpn, level))
      modifies this`tables, this`free, this`sh
      ensures Valid() && Frames() == old(Frames())
      ensures Extends(old(tables), tables) && SameTrans(old(tables), tables, old(sh).pos)
      ensures Evolves(old(tables), old(sh), tables, sh, old(sh).own[t])
      ensures t in tables && |tables[t]| == NPT && level <= 4 && sh.own[t] == old(sh).own[t]
      ensures r.Some? ==> && LinksTo(tables[t][Ptx(vpn, level)], r.value) && r.value in tables
                          && sh.own[r.value] == sh.own[t] && sh.pos[r.value].level == level - 1
                          && Through(sh.pos[r.value], vpn)
      ensures r.None? ==> var e := tables[t][Ptx(vpn, level)];
                          if e.present then e.large else alloc ==> free == []
      ensures !alloc ==> tables == old(tables) && free == old(free) && sh == old(sh)
      ensures NewOnPath(old(sh), sh, vpn) && Built(old(tables), tables, t, level, vpn, stop)
    {
      hide Ptx, NodeOk, OnePerPlace, Built;
      var i := Ptx(vpn, level);
      assert TableOk(sh.pos, sh.pos[t], tables[t]);
      var e := tables[t][i];
      ghost var m0, sh0 := tables, sh;
      Unmoved(m0, sh0, sh.own[t]);
      NoneBuilt(m0, t, level, vpn, stop);
      if e.present {
        if e.large {
          return None;
        }
        r := Some(e.frame);
      } else {
        if !alloc {
          return None;
        }
        r := AddTable(t, i);
        if r.None? {
          return None;
        }
        AddedTable(m0, sh0, t, i, r.value);
        PlantedOnPath(sh0, t, i, r.value, vpn);
        OneBuilt(m0, t, level, vpn, r.value, stop);
      }
      StepDown(tables, sh, t, vpn);
    }

    /** do_walk from table t: the table holding vpn's entry at level stop, built on the way if alloc. */
    method Walk(t: nat, vpn: nat, alloc: bool, level: nat, stop: nat) returns (r: Option<nat>)
      requires Valid() && t in tables && sh.pos[t].level == level && Through(sh.pos[t], vpn) && 1 <= stop <= level
      requires sh.own[t] != sh.kroot ==> UserPart(sh.pos[t], Ptx(vpn, level))
      modifies this`tables, this`free, this`sh
      decreases level
      ensures Valid() && Frames() == old(Frames())
      ensures Extends(old(tables), tables) && SameTrans(old(tables), tables, old(sh).pos)
      ensures Evolves(old(tables), old(sh), tables, sh, old(sh).own[t])
      ensures r.Some? ==> WalkTo(tables, t, level, vpn, stop) == r
      ensures r.None? && alloc ==> free == [] || Lookup(tables, t, level, vpn).Some?
      ensures !alloc ==>
          tables == old(tables) && free == old(free) && sh == old(sh) && r == WalkTo(tables, t, level, vpn, stop)
      ensures r.None? ==> WalkTo(tables, t, level, vpn, stop) == None
      ensures NewOnPath(old(sh), sh, vpn) && Built(old(tables), tables, t, level, vpn, stop)
    {
      hide Ptx, Valid, Frames, Evolves, SameTrans, Through, Built;
      ghost var m0, sh0 := tables, sh;
      Known(t);
      if level == stop {
        Unmoved(m0, sh0, sh.own[t]);
        NoneBuilt(m0, t, level, vpn, stop);
        return Some(t);
      }
      var next := NextTable(t, vpn, alloc, level, stop);
      if next.None? {
        return None;
      }
      ghost var m1, sh1 := tables, sh;
      r := Walk(next.value, vpn, alloc, level - 1, stop);
      Chain(m0, sh0, m1, sh1, tables, sh, sh0.own[t]);
      OnPathChain(m1, sh0, sh1, tables, sh, sh0.own[t], vpn);
      BuiltChain(m0, m1, tables, t, next.value, level, vpn, stop);
      assert tables[t][Ptx(vpn, level)] == m1[t][Ptx(vpn, level)];
    }

    /** One leaf entry for vpn at level stop, tables built as needed. */
    method MapLeaf(root: nat, vpn: nat, f: nat, perm: nat, stop: nat) returns (ok: bool)
      requires Valid() && IsRoot(sh, root) && 1 <= stop <= 3 && vpn % Span(stop) == 0 && vpn < Span(5)
      requires (root !in sh.wide ==> stop == 1) && (root != sh.kroot ==> vpn < USERPAGES)
      requires Lookup(tables, root, 4, vpn) == None
      modifies this`tables, this`free, this`sh
      ensures Valid() && Frames() == old(Frames()) && Evolves(old(tables), old(sh), tables, sh, root)
      ensures ok ==> Remapped(old(tables), tables, root, vpn, Span(stop), f, perm)
      ensures !ok ==> free == [] && Remapped(old(tables), tables, root, vpn, 0, f, perm)
      ensures NewOnPath(old(sh), sh, vpn) && (ok <==> WalkTo(tables, root, 4, vpn, stop).Some?)
      ensures LeafCount(old(tables), tables, root, vpn, stop, ok)
    {
      hide Lookup, WalkTo, Frames, Evolves, Valid, ForestOk, Remapped, SameTrans, Extends, NewOnPath;
      hide Built, LeafCount, Reached, Depth, Through, Ptx, Span;
      ghost var m0, sh0 := tables, sh;
      Forest();
      RootWalk(sh, root, vpn);
      RootTable(root);
      var u := Walk(root, vpn, true, 4, stop);
      ghost var m1, sh1 := tables, sh;
      SameTransRemapped(m0, m1, sh0.pos, root, vpn, f, perm);
      RootStays(m0, sh0, m1, sh1, root);
      Forest();
      Counted(m0, sh0, m1, sh1, root, vpn, stop);
      if u.None? {
        NoLookup(m0, m1, root, vpn, f, perm);
        return false;
      }
      WriteLeaf(root, vpn, f, perm, stop, u.value);
      RemappedChain(m0, m1, tables, root, vpn, 0, Span(stop), f, perm);
      EvolvesChain(m0, sh0, m1, sh1, tables, sh, root);
      StillCounted(m0, m1, tables, root, vpn, stop);
      ok := true;
    }

    /** The leaf entry itself, once the walk has found its table. */
    method WriteLeaf(root: nat, vpn: nat, f: nat, perm: nat, stop: nat, u: nat)
      requires Valid() && IsRoot(sh, root) && 1 <= stop <= 3 && vpn % Span(stop) == 0 && vpn < Span(5)
      requires (root !in sh.wide ==> stop == 1) && (root != sh.kroot ==> vpn < USERPAGES)
      requires WalkTo(tables, root, 4, vpn, stop) == Some(u)
      modifies this`tables
      ensures Valid() && Frames() == old(Frames()) && Evolves(old(tables), sh, tables, sh, root)
      ensures Remapped(old(tables), tables, root, vpn, Span(stop), f, perm)
      ensures WalkTo(tables, root, 4, vpn, stop) == Some(u)
      ensures tables.Keys == old(tables).Keys
      ensures stop <= Depth(old(tables), root, 4, vpn) ==> Reached(tables, root) == Reached(old(tables), root)
    {
      hide Lookup, WalkTo, NodeOk, OnePerPlace, Wf, Ptx, Depth, Reached;
      var e := Pte(true, stop > 1, f, perm);
      LeafPlace(tables, sh, root, vpn, stop, u, e);
      LeafMaps(tables, sh.pos, root, vpn, stop, u, e);
      Unmoved(tables, sh, root);
      LeafNowhere(tables, sh, root, vpn, stop, u, e);
      EvolvesWrite(tables, sh, tables, sh, u, Ptx(vpn, stop), e, root);
      tables := WithEntry(tables, u, Ptx(vpn, stop), e);
    }

    lemma Known(t: nat)
      requires Valid() && t in tables
      ensures t in sh.own && t in sh.pos && 1 <= sh.pos[t].level <= 4 && tables.Keys == sh.pos.Keys == sh.own.Keys
    {
      hide NodeOk, OnePerPlace;
      assert TableOk(sh.pos, sh.pos[t], tables[t]);
    }

    lemma Forest()
      requires Valid()
      ensures ForestOk(tables, sh)
    {
    }

    lemma RootTable(root: nat)
      requires Valid() && IsRoot(sh, root)
      ensures root in tables
    {
    }

    /**
     map_range on the kernel's tables, or in the lower half of another table that
     takes large pages: the largest pages that fit, mixed as alignment allows. It
     fails only when kalloc does; the pages mapped so far are then the first done
     ones. Where no table hangs below a large page it succeeds if and only if there
     is a frame for each place on the walks that is not reached yet.
     */
    method MapRange(root: nat, va: nat, pa: nat, size: nat, perm: nat) returns (ok: bool, ghost done: nat)
      requires Valid() && IsRoot(sh, root) && root in sh.wide
      requires va % PGSIZE == 0 && pa % PGSIZE == 0 && va / PGSIZE + Pages(size) <= Span(5)
      requires root != sh.kroot ==> va / PGSIZE + Pages(size) <= USERPAGES
      requires Untranslated(tables, root, va / PGSIZE, Pages(size))
      modifies this`tables, this`free, this`sh
      ensures Valid() && Frames() == old(Frames()) && Evolves(old(tables), old(sh), tables, sh, root)
      ensures done <= Pages(size) && (ok ==> done == Pages(size)) && (!ok ==> free == [])
      ensures Remapped(old(tables), tables, root, va / PGSIZE, done, pa / PGSIZE, perm)
      ensures Clear(Reached(old(tables), root), have1g, va / PGSIZE, pa / PGSIZE, Pages(size)) ==>
        RangeCount(old(tables), tables, root, RangeSteps(have1g, va / PGSIZE, pa / PGSIZE, Pages(size)), ok)
    {
      hide Lookup, Valid, Pages, Frames, Evolves, Reached, Remapped;
      hide Clear, RangeCount, RangeSteps, Partly, Untranslated, Span;
      ghost var v0, f0, n := va / PGSIZE, pa / PGSIZE, Pages(size);
      ghost var all := RangeSteps(have1g, v0, f0, n);
      ghost var clear := Clear(Reached(tables, root), have1g, v0, f0, n);
      if clear {
        PartlyNone(tables, root, have1g, v0, f0, n);
      }
      var v, p, left := va, pa, Pages(size) * PGSIZE;
      done := 0;
      ghost var m0, sh0 := tables, sh;
      Unmoved(m0, sh0, root);
      NoneMapped(m0, root, v0, f0, perm);
      while left > 0
        invariant Valid() && Frames() == old(Frames()) && Evolves(m0, sh0, tables, sh, root)
        invariant IsRoot(sh, root) && root in sh.wide && sh.kroot == old(sh.kroot)
        invariant v == (v0 + done) * PGSIZE && p == (f0 + done) * PGSIZE && left == (n - done) * PGSIZE && done <= n
        invariant Remapped(m0, tables, root, v0, done, f0, perm)
        invariant clear ==> Partly(m0, tables, root, all, have1g, v0 + done, f0 + done, n - done)
      {
        var stop;
        ok, stop := MapNext(root, v, p, left, perm, m0, sh0, v0, f0, n, done, all, clear);
        if !ok {
          return false, done;
        }
        v, p, left := v + Span(stop) * PGSIZE, p + Span(stop) * PGSIZE, left - Span(stop) * PGSIZE;
        done := done + Span(stop);
      }
      if clear {
        PartlyAll(m0, tables, root, all, have1g, v0 + done, f0 + done);
      }
      ok := true;
    }

    /** One turn of the loop: the largest leaf that fits. done of n pages are mapped since m0. */
    method MapNext(root: nat, v: nat, p: nat, left: nat, perm: nat, ghost m0: Tables, ghost sh0: Shape, ghost v0: nat,
                   ghost f0: nat, ghost n: nat, ghost done: nat, ghost all: set<Loc>, ghost clear: bool)
        returns (ok: bool, stop: nat)
      requires Valid() && IsRoot(sh, root) && root in sh.wide && Evolves(m0, sh0, tables, sh, root)
      requires v == (v0 + done) * PGSIZE && p == (f0 + done) * PGSIZE && left == (n - done) * PGSIZE && done < n
      requires v0 + n <= Span(5) && (root != sh.kroot ==> v0 + n <= USERPAGES)
      requires Untranslated(m0, root, v0, n) && Remapped(m0, tables, root, v0, done, f0, perm)
      requires clear ==> Partly(m0, tables, root, all, have1g, v0 + done, f0 + done, n - done)
      modifies this`tables, this`free, this`sh
      ensures Valid() && Frames() == old(Frames()) && Evolves(m0, sh0, tables, sh, root)
      ensures IsRoot(sh, root) && root in sh.wide && sh.kroot == old(sh.kroot) && done + Span(stop) <= n
      ensures Remapped(m0, tables, root, v0, if ok then done + Span(stop) else done, f0, perm)
      ensures !ok ==> free == [] && (clear ==> RangeCount(m0, tables, root, all, false))
      ensures ok && clear ==>
        Partly(m0, tables, root, all, have1g, v0 + done + Span(stop), f0 + done + Span(stop), n - done - Span(stop))
    {
      hide Lookup, Valid, PickLevel, Frames, Evolves, LeafCount, Reached, Depth, Remapped;
      hide RangeCount, Partly, Untranslated, Span;
      WholePage(v, v0 + done);
      WholePage(p, f0 + done);
      stop := PickLevel(have1g, v, p, left);
      ghost var m1, sh1 := tables, sh;
      NextPage(m0, m1, root, v0, n, done, f0, perm);
      ok := MapLeaf(root, v / PGSIZE, p / PGSIZE, perm, stop);
      RootStays(m1, sh1, tables, sh, root);
      EvolvesChain(m0, sh0, m1, sh1, tables, sh, root);
      RemappedChain(m0, m1, tables, root, v0, done, if ok then Span(stop) else 0, f0, perm);
      if clear {
        PartlyNext(m0, m1, tables, root, all, have1g, v0 + done, f0 + done, n - done, stop, ok);
      }
    }

    lemma KernelRoot()
      requires Valid()
      ensures IsRoot(sh, sh.kroot) && sh.kroot in sh.wide
    {
    }
  }

  lemma {:induction false} DistinctSize(s: seq<nat>)
    requires Distinct(s)
    ensures |Elems(s)| == |s|
  {
    if s != [] {
      var r := s[..|s| - 1];
      DistinctSize(r);
      assert s == r + [s[|r|]];
      assert Elems(s) == Elems(r) + {s[|r|]};
    }
  }

  lemma DisjointSize(a: set<nat>, b: set<nat>)
    requires a !! b
    ensures |a + b| == |a| + |b|
  {
  }

  /** Every frame is free, a table or a page. */
  lemma FrameTotal(mmu: Mmu)
    requires mmu.Valid()
    ensures |mmu.Frames()| == |mmu.free| + |mmu.tables.Keys| + |mmu.data.Keys|
  {
    hide ForestOk;
    DistinctSize(mmu.free);
    DisjointSize(Elems(mmu.free), mmu.tables.Keys);
    DisjointSize(Elems(mmu.free) + mmu.tables.Keys, mmu.data.Keys);
  }

  /** Pages of the user half. */
  const USERPAGES: nat := 0x8_0000_0000

  lemma UserIndex(vpn: nat)
    requires vpn < Span(5)
    ensures vpn < USERPAGES <==> Ptx(vpn, 4) < UHALF
  {
  }

  lemma RootWalk(sh: Shape, root: nat, vpn: nat)
    requires IsRoot(sh, root) && vpn < Span(5) && (root != sh.kroot ==> vpn < USERPAGES)
    ensures Through(sh.pos[root], vpn) && (sh.own[root] != sh.kroot ==> UserPart(sh.pos[root], Ptx(vpn, 4)))
  {
    UserIndex(vpn);
  }

  /** size rounded up to whole pages. */
  function Pages(size: nat): nat {
    (size + PGSIZE - 1) / PGSIZE
  }

  /** The level of the largest leaf that alignment and length allow. */
  function PickLevel(have1g: bool, v: nat, p: nat, left: nat): (stop: nat)
    requires v % PGSIZE == 0 && p % PGSIZE == 0 && left % PGSIZE == 0 && left > 0
    ensures 1 <= stop <= 3 && (stop == 3 ==> have1g)
    ensures (v / PGSIZE) % Span(stop) == 0 && Span(stop) * PGSIZE <= left
  {
    if have1g && v % SIZE1G == 0 && p % SIZE1G == 0 && left >= SIZE1G then Aligned1G(v); 3
    else if v % SIZE2M == 0 && p % SIZE2M == 0 && left >= SIZE2M then Aligned2M(v); 2
    else 1
  }

  lemma Aligned1G(v: nat)
    requires v % SIZE1G == 0
    ensures (v / PGSIZE) % Span(3) == 0 && Span(3) * PGSIZE == SIZE1G
  {
    var q := v / SIZE1G;
    assert v == q * SIZE1G;
    assert v / PGSIZE == q * Span(3);
  }

  lemma Aligned2M(v: nat)
    requires v % SIZE2M == 0
    ensures (v / PGSIZE) % Span(2) == 0 && Span(2) * PGSIZE == SIZE2M
  {
    var q := v / SIZE2M;
    assert v == q * SIZE2M;
    assert v / PGSIZE == q * Span(2);
  }

  lemma WholePage(v: nat, n: nat)
    requires v == n * PGSIZE
    ensures v / PGSIZE == n && v % PGSIZE == 0
  {
  }

  lemma NoneMapped(m: Tables, root: nat, vpn: nat, f: nat, perm: nat)
    ensures Remapped(m, m, root, vpn, 0, f, perm)
  {
    hide Lookup;
  }

  /** The page after those that were mapped is still untranslated. */
  lemma NextPage(m: Tables, r: Tables, root: nat, vpn: nat, n: nat, done: nat, f: nat, perm: nat)
    requires Untranslated(m, root, vpn, n) && Remapped(m, r, root, vpn, done, f, perm) && done < n
    requires vpn + n <= Span(5)
    ensures Lookup(r, root, 4, vpn + done) == None
  {
    hide Lookup;
  }

  ghost predicate Untranslated(m: Tables, root: nat, vpn: nat, n: nat) {
    forall w :: vpn <= w < vpn + n ==> Lookup(m, root, 4, w) == None
  }

  /** The top level of an address space. */
  predicate IsRoot(sh: Shape, root: nat) {
    root in sh.pos && sh.pos[root] == Loc(4, 0) && root in sh.own && sh.own[root] == root
  }

  // ----------------------------------------------------------- counting

  /** The tables a walk built, by place. */
  lemma Counted(m0: Tables, sh0: Shape, m1: Tables, sh1: Shape, root: nat, vpn: nat, stop: nat)
    requires ForestOk(m0, sh0) && ForestOk(m1, sh1) && IsRoot(sh1, root) && Built(m0, m1, root, 4, vpn, stop)
    requires NewOnPath(sh0, sh1, vpn) && vpn < Span(5) && 1 <= stop <= 3
    ensures LeafCount(m0, m1, root, vpn, stop, WalkTo(m1, root, 4, vpn, stop).Some?)
    ensures stop <= Depth(m0, root, 4, vpn) ==> stop <= Depth(m1, root, 4, vpn)
  {
    hide Built, Depth, WalkTo, NodeOk, OnePerPlace, Wf, Reached;
    if stop <= Depth(m0, root, 4, vpn) {
      WalkCount(m0, m1, sh1.pos, root, vpn, stop);
    }
  }

  lemma StillCounted(m0: Tables, m1: Tables, m2: Tables, root: nat, vpn: nat, stop: nat)
    requires LeafCount(m0, m1, root, vpn, stop, true) && m2.Keys == m1.Keys
    requires stop <= Depth(m0, root, 4, vpn) ==> Reached(m2, root) == Reached(m1, root)
    ensures LeafCount(m0, m2, root, vpn, stop, true)
  {
    hide Reached, Depth;
  }

  /** A leaf written where the walk ends cuts no table off. */
  lemma LeafNowhere(m: Tables, sh: Shape, root: nat, vpn: nat, stop: nat, u: nat, e: Pte)
    requires ForestOk(m, sh) && IsRoot(sh, root) && 1 <= stop <= 3 && vpn < Span(5) && (stop > 1 ==> e.large)
    requires WalkTo(m, root, 4, vpn, stop) == Some(u) && u in m && |m[u]| == NPT
    ensures stop <= Depth(m, root, 4, vpn) ==>
        Reached(WithEntry(m, u, Ptx(vpn, stop), e), root) == Reached(m, root)
  {
    hide Depth, WalkTo, NodeOk, OnePerPlace, Reached, Ptx;
    if stop <= Depth(m, root, 4, vpn) {
      DepthWalk(m, root, 4, vpn, stop);
      assert Through(sh.pos[root], vpn);
      WalkPlace(m, sh.pos, root, vpn, stop);
      if stop > 1 {
        EndOfWalk(m, root, 4, vpn, u);
      }
      LeafReach(m, sh.pos, u, Ptx(vpn, stop), e, root);
    }
  }

  /** The leaf that map_range writes first for n pages from vpn on, onto frames from f on. */
  function LeafLevel(have1g: bool, vpn: nat, f: nat, n: nat): (stop: nat)
    requires n > 0
    ensures 1 <= stop <= 3 && vpn % Span(stop) == 0 && Span(stop) <= n
  {
    PickLevel(have1g, vpn * PGSIZE, f * PGSIZE, n * PGSIZE)
  }

  function StepsFrom(have1g: bool, vpn: nat, f: nat, n: nat): set<Loc>
    decreases n
  {
    if n == 0 then {}
    else
      var stop := LeafLevel(have1g, vpn, f, n);
      Steps(vpn, stop, 4) + StepsFrom(have1g, vpn + Span(stop), f + Span(stop), n - Span(stop))
  }

  /** The places on the walks to the leaves that map_range writes for n pages. */
  function RangeSteps(have1g: bool, vpn: nat, f: nat, n: nat): set<Loc> {
    StepsFrom(have1g, vpn, f, n)
  }

  predicate ClearFrom(s: set<Loc>, have1g: bool, vpn: nat, f: nat, n: nat)
    decreases n
  {
    n > 0 ==>
      var stop := LeafLevel(have1g, vpn, f, n);
      && (stop > 1 ==> Step(vpn, stop - 1) !in s)
      && ClearFrom(s, have1g, vpn + Span(stop), f + Span(stop), n - Span(stop))
  }

  /** No table hangs where map_range will write a large leaf. */
  predicate Clear(s: set<Loc>, have1g: bool, vpn: nat, f: nat, n: nat) {
    ClearFrom(s, have1g, vpn, f, n)
  }

  /** Every place of s begins below vpn. */
  ghost predicate Below(s: set<Loc>, vpn: nat) {
    forall l :: l in s ==> FirstPage(l) < vpn
  }

  /** No table hangs above what was mapped so far. */
  lemma {:induction false} ClearAbove(s: set<Loc>, have1g: bool, vpn: nat, f: nat, n: nat)
    requires Below(s, vpn)
    ensures Clear(s, have1g, vpn, f, n)
    decreases n
  {
    hide LeafLevel;
    if n > 0 {
      var k := LeafLevel(have1g, vpn, f, n);
      assert k > 1 ==> FirstPage(Step(vpn, k - 1)) == vpn;
      ClearAbove(s, have1g, vpn + Span(k), f + Span(k), n - Span(k));
    }
  }

  lemma {:induction false} RangeBelow(have1g: bool, vpn: nat, f: nat, n: nat)
    ensures Below(RangeSteps(have1g, vpn, f, n), vpn + n)
    decreases n
  {
    hide LeafLevel, Steps;
    if n > 0 {
      var k := LeafLevel(have1g, vpn, f, n);
      RangeBelow(have1g, vpn + Span(k), f + Span(k), n - Span(k));
      InSteps(vpn, k, 4);
      forall l | l in Steps(vpn, k, 4)
        ensures FirstPage(l) <= vpn
      {
        StepStarts(vpn, l.level);
      }
    }
  }

  lemma StepStarts(vpn: nat, k: nat)
    ensures FirstPage(Step(vpn, k)) <= vpn
  {
  }

  /** What all the leaves cost, and what there is when one of them could not be paid for. */
  ghost predicate RangeCount(m: Tables, r: Tables, root: nat, all: set<Loc>, ok: bool) {
    && |r.Keys| + |Reached(m, root)| == |m.Keys| + |Reached(r, root)| && Reached(m, root) <= Reached(r, root)
    && if ok then Reached(r, root) == Reached(m, root) + all else Reached(r, root) < Reached(m, root) + all
  }

  /** In the loop of map_range: n pages from vpn on are left. */
  ghost predicate Partly(m: Tables, r: Tables, root: nat, all: set<Loc>, have1g: bool, vpn: nat, f: nat, n: nat) {
    && |r.Keys| + |Reached(m, root)| == |m.Keys| + |Reached(r, root)| && Reached(m, root) <= Reached(r, root)
    && Reached(r, root) + RangeSteps(have1g, vpn, f, n) == Reached(m, root) + all
    && Clear(Reached(r, root), have1g, vpn, f, n)
  }

  lemma PartlyNone(m: Tables, root: nat, have1g: bool, vpn: nat, f: nat, n: nat)
    requires Clear(Reached(m, root), have1g, vpn, f, n)
    ensures Partly(m, m, root, RangeSteps(have1g, vpn, f, n), have1g, vpn, f, n)
  {
    hide Reached, RangeSteps, Clear;
  }

  /** The leaf at vpn hangs no table below a leaf further on. */
  lemma {:induction false} StillClear(s: set<Loc>, have1g: bool, vpn: nat, stop: nat, w: nat, f: nat, n: nat)
    requires Clear(s, have1g, w, f, n) && vpn < w && 1 <= stop <= 3
    ensures Clear(s + Steps(vpn, stop, 4), have1g, w, f, n)
    decreases n
  {
    hide LeafLevel, Steps;
    InSteps(vpn, stop, 4);
    if n > 0 {
      var k := LeafLevel(have1g, w, f, n);
      assert k > 1 ==> Step(w, k - 1) != Step(vpn, k - 1) by { Earlier(vpn, w, k); }
      StillClear(s, have1g, vpn, stop, w + Span(k), f + Span(k), n - Span(k));
    }
  }

  lemma Earlier(vpn: nat, w: nat, k: nat)
    requires 1 <= k <= 3 && w % Span(k) == 0 && vpn < w
    ensures vpn / Span(k) < w / Span(k)
  {
  }

  lemma NothingHangs(m: Tables, root: nat, have1g: bool, vpn: nat, f: nat, n: nat)
    requires n > 0 && vpn < Span(5) && Clear(Reached(m, root), have1g, vpn, f, n)
    ensures LeafLevel(have1g, vpn, f, n) <= Depth(m, root, 4, vpn)
  {
    hide Reached, Depth, LeafLevel, IsReached;
    var stop := LeafLevel(have1g, vpn, f, n);
    assert Depth(m, root, 4, vpn) >= 1;
    if stop > 1 {
      OnWalk(m, root, vpn, stop - 1);
      InReached(m, root);
      assert !IsReached(m, root, Step(vpn, stop - 1));
    }
  }

  lemma PartlyNext(m: Tables, r: Tables, q: Tables, root: nat, all: set<Loc>, have1g: bool, vpn: nat, f: nat, n: nat,
                   k: nat, ok: bool)
    requires n > 0 && vpn < Span(5) && k == LeafLevel(have1g, vpn, f, n)
    requires Partly(m, r, root, all, have1g, vpn, f, n) && LeafCount(r, q, root, vpn, k, ok)
    ensures ok ==> Partly(m, q, root, all, have1g, vpn + Span(k), f + Span(k), n - Span(k))
    ensures !ok ==> RangeCount(m, q, root, all, false)
  {
    hide Reached, Depth, LeafLevel, Steps, Clear, RangeSteps, Span;
    NothingHangs(r, root, have1g, vpn, f, n);
    var s, t, u, one := Reached(m, root), Reached(r, root), Reached(q, root), Steps(vpn, k, 4);
    RangeNext(t, have1g, vpn, f, n, k);
    OneLeaf(s, t, u, all, one, RangeSteps(have1g, vpn + Span(k), f + Span(k), n - Span(k)), ok);
    if ok {
      StillClear(t, have1g, vpn, k, vpn + Span(k), f + Span(k), n - Span(k));
      assert u == t + one;
    }
  }

  lemma RangeNext(s: set<Loc>, have1g: bool, vpn: nat, f: nat, n: nat, k: nat)
    requires n > 0 && k == LeafLevel(have1g, vpn, f, n)
    ensures RangeSteps(have1g, vpn, f, n) ==
            Steps(vpn, k, 4) + RangeSteps(have1g, vpn + Span(k), f + Span(k), n - Span(k))
    ensures Clear(s, have1g, vpn, f, n) ==> Clear(s, have1g, vpn + Span(k), f + Span(k), n - Span(k))
  {
    hide LeafLevel, Steps;
  }

  lemma OneLeaf(s: set<Loc>, t: set<Loc>, u: set<Loc>, all: set<Loc>, one: set<Loc>, rest: set<Loc>, ok: bool)
    requires s <= t <= u && t + (one + rest) == s + all && if ok then u == t + one else u < t + one
    ensures s <= u && if ok then u + rest == s + all else u < s + all
  {
    assert t + one <= s + all;
  }

  lemma PartlyAll(m: Tables, r: Tables, root: nat, all: set<Loc>, have1g: bool, vpn: nat, f: nat)
    requires Partly(m, r, root, all, have1g, vpn, f, 0)
    ensures RangeCount(m, r, root, all, true)
  {
    hide Reached;
  }

  /** Allocating tables on a walk maps nothing. */
  lemma SameTransRemapped(m: Tables, r: Tables, pos: map<nat, Loc>, root: nat, vpn: nat, f: nat, perm: nat)
    requires root in pos && pos[root] == Loc(4, 0) && SameTrans(m, r, pos)
    ensures Remapped(m, r, root, vpn, 0, f, perm)
  {
    hide Lookup;
    forall w | 0 <= w < Span(5)
      ensures Lookup(r, root, 4, w) == Mapped(Lookup(m, root, 4, w), vpn, 0, f, perm, w)
    {
      assert Through(pos[root], w);
    }
  }

  /** root has a table at l. */
  ghost predicate Has(sh: Shape, root: nat, l: Loc) {
    exists t :: t in sh.own && t in sh.pos && sh.own[t] == root && sh.pos[t] == l
  }

  /** The tables that are new in sh1 are on the walk to vpn, below the top level. */
  predicate NewOnPath(sh0: Shape, sh1: Shape, vpn: nat) {
    forall t :: t in sh1.pos && t !in sh0.pos ==> sh1.pos[t].level < 4 && Through(sh1.pos[t], vpn)
  }

  lemma PlantedOnPath(sh: Shape, u: nat, i: nat, f: nat, vpn: nat)
    requires u in sh.pos && u in sh.own && 1 < sh.pos[u].level && Through(sh.pos[u], vpn)
    requires i == Ptx(vpn, sh.pos[u].level)
    ensures NewOnPath(sh, Planted(sh, u, i, f), vpn)
  {
    ChildThrough(sh.pos[u], vpn);
  }

  lemma OnPathChain(m1: Tables, sh0: Shape, sh1: Shape, m2: Tables, sh2: Shape, o: nat, vpn: nat)
    requires NewOnPath(sh0, sh1, vpn) && NewOnPath(sh1, sh2, vpn) && Evolves(m1, sh1, m2, sh2, o)
    ensures NewOnPath(sh0, sh2, vpn)
  {
  }

  /** Only o's tree changed: tables stay in place, new ones are o's, and others' are untouched. */
  predicate Evolves(m0: Tables, sh0: Shape, m1: Tables, sh1: Shape, o: nat) {
    && sh1.kroot == sh0.kroot && (forall r :: r in sh0.own ==> (r in sh1.wide <==> r in sh0.wide))
    && (forall t :: t in sh0.pos ==> t in sh1.pos && sh1.pos[t] == sh0.pos[t])
    && (forall t :: t in sh0.own ==> t in sh1.own && sh1.own[t] == sh0.own[t])
    && (forall t :: t in sh1.own && t !in sh0.own ==> sh1.own[t] == o)
    && (forall t :: t in m0 ==> t in m1)
    && forall t :: t in m0 && t in sh0.own && sh0.own[t] != o ==> m1[t] == m0[t]
  }

  lemma RootStays(m0: Tables, sh0: Shape, m1: Tables, sh1: Shape, root: nat)
    requires Evolves(m0, sh0, m1, sh1, root) && IsRoot(sh0, root)
    ensures IsRoot(sh1, root) && sh1.kroot == sh0.kroot && (root in sh1.wide <==> root in sh0.wide)
  {
  }

  lemma NoLookup(m0: Tables, m1: Tables, root: nat, vpn: nat, f: nat, perm: nat)
    requires Remapped(m0, m1, root, vpn, 0, f, perm) && vpn < Span(5)
    ensures Lookup(m1, root, 4, vpn) == Lookup(m0, root, 4, vpn)
  {
  }

  lemma Unmoved(m: Tables, sh: Shape, o: nat)
    ensures Evolves(m, sh, m, sh, o) && Extends(m, m) && SameTrans(m, m, sh.pos)
  {
  }

  lemma EvolvesChain(m0: Tables, sh0: Shape, m1: Tables, sh1: Shape, m2: Tables, sh2: Shape, o: nat)
    requires Evolves(m0, sh0, m1, sh1, o) && Evolves(m1, sh1, m2, sh2, o)
    ensures Evolves(m0, sh0, m2, sh2, o)
  {
  }

  lemma Chain(m0: Tables, sh0: Shape, m1: Tables, sh1: Shape, m2: Tables, sh2: Shape, o: nat)
    requires Evolves(m0, sh0, m1, sh1, o) && Evolves(m1, sh1, m2, sh2, o)
    requires SameTrans(m0, m1, sh0.pos) && SameTrans(m1, m2, sh1.pos) && Extends(m0, m1) && Extends(m1, m2)
    ensures Evolves(m0, sh0, m2, sh2, o) && SameTrans(m0, m2, sh0.pos) && Extends(m0, m2)
  {
    EvolvesChain(m0, sh0, m1, sh1, m2, sh2, o);
    hide Lookup, Evolves;
    assert forall t :: t in sh0.pos ==> t in sh1.pos && sh1.pos[t] == sh0.pos[t] by { Placed(m0, sh0, m1, sh1, o); }
  }

  lemma Placed(m0: Tables, sh0: Shape, m1: Tables, sh1: Shape, o: nat)
    requires Evolves(m0, sh0, m1, sh1, o)
    ensures forall t :: t in sh0.pos ==> t in sh1.pos && sh1.pos[t] == sh0.pos[t]
  {
  }

  /** Writing one entry of one of o's tables. */
  lemma EvolvesWrite(m0: Tables, sh0: Shape, m1: Tables, sh1: Shape, u: nat, i: nat, e: Pte, o: nat)
    requires Evolves(m0, sh0, m1, sh1, o) && u in m1 && u in sh1.own && sh1.own[u] == o && |m1[u]| == NPT && i < NPT
    ensures Evolves(m0, sh0, WithEntry(m1, u, i, e), sh1, o)
  {
  }

  lemma AddedTable(m: Tables, sh: Shape, u: nat, i: nat, f: nat)
    requires ForestOk(m, sh) && Plantable(m, sh, u, i, f)
    ensures Extends(m, WithTable(m, u, i, f)) && SameTrans(m, WithTable(m, u, i, f), sh.pos)
    ensures Evolves(m, sh, WithTable(m, u, i, f), Planted(sh, u, i, f), sh.own[u])
  {
    hide Lookup, NodeOk, OnePerPlace;
    forall t: nat, w: nat | t in sh.pos && Through(sh.pos[t], w)
      ensures Lookup(WithTable(m, u, i, f), t, sh.pos[t].level, w) == Lookup(m, t, sh.pos[t].level, w)
    {
      NewTableLookup(m, sh.pos, u, i, f, t, w);
    }
  }

  /** From a table to the next one on vpn's walk: same tree, right place. */
  lemma StepDown(m: Tables, sh: Shape, t: nat, vpn: nat)
    requires ForestOk(m, sh) && t in m && Through(sh.pos[t], vpn) && sh.pos[t].level > 1 && |m[t]| == NPT
    requires sh.own[t] != sh.kroot ==> UserPart(sh.pos[t], Ptx(vpn, sh.pos[t].level))
    requires var e := m[t][Ptx(vpn, sh.pos[t].level)]; e.present && !e.large
    ensures var c := m[t][Ptx(vpn, sh.pos[t].level)].frame;
            && c in m && sh.own[c] == sh.own[t] && sh.pos[c].level == sh.pos[t].level - 1 && Through(sh.pos[c], vpn)
  {
    hide Ptx, UpOk, OnePerPlace;
    var i := Ptx(vpn, sh.pos[t].level);
    assert TableOk(sh.pos, sh.pos[t], m[t]) && EntryOk(sh.pos, sh.pos[t], i, m[t][i]);
    assert NodeOk(m, sh, t) && EntryOwn(sh, sh.own[t], sh.pos[t], i, m[t][i]);
    ChildThrough(sh.pos[t], vpn);
  }

  /** A walk from a root stays in the root's tree. */
  lemma {:induction false} WalkOwn(m: Tables, sh: Shape, t: nat, vpn: nat, stop: nat)
    requires ForestOk(m, sh) && t in m && Through(sh.pos[t], vpn) && 1 <= stop <= sh.pos[t].level
    requires sh.own[t] != sh.kroot ==> UserPart(sh.pos[t], Ptx(vpn, sh.pos[t].level))
    requires WalkTo(m, t, sh.pos[t].level, vpn, stop).Some?
    ensures var u := WalkTo(m, t, sh.pos[t].level, vpn, stop).value;
            u in m && sh.own[u] == sh.own[t] && sh.pos[u].level == stop
    decreases sh.pos[t].level
  {
    hide NodeOk, OnePerPlace, Ptx;
    assert TableOk(sh.pos, sh.pos[t], m[t]);
    if sh.pos[t].level != stop {
      StepDown(m, sh, t, vpn);
      WalkOwn(m, sh, m[t][Ptx(vpn, sh.pos[t].level)].frame, vpn, stop);
    }
  }

  /** The entry a leaf is written to, and what writing it keeps. */
  lemma LeafPlace(m: Tables, sh: Shape, root: nat, vpn: nat, stop: nat, u: nat, e: Pte)
    requires ForestOk(m, sh) && IsRoot(sh, root) && 1 <= stop <= 3 && vpn < Span(5)
    requires (root !in sh.wide ==> stop == 1) && (root != sh.kroot ==> vpn < USERPAGES)
    requires WalkTo(m, root, 4, vpn, stop) == Some(u) && e.present && (e.large <==> stop > 1)
    ensures u in m && |m[u]| == NPT && u in sh.own && sh.own[u] == root
    ensures ForestOk(WithEntry(m, u, Ptx(vpn, stop), e), sh)
    ensures WalkTo(WithEntry(m, u, Ptx(vpn, stop), e), root, 4, vpn, stop) == Some(u)
  {
    hide NodeOk, OnePerPlace, Ptx, WalkTo;
    UserIndex(vpn);
    assert Through(sh.pos[root], vpn);
    WalkOwn(m, sh, root, vpn, stop);
    assert TableOk(sh.pos, sh.pos[u], m[u]);
    WrittenForest(m, sh, u, Ptx(vpn, stop), e);
    WriteKeepsWalk(m, sh.pos, u, Ptx(vpn, stop), e, root, vpn, stop);
  }
}
