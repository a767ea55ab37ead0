/**
 The page table of the UEFI runtime services (kern/efirt.c): the kernel's upper half,
 and below it the ranges the firmware described, each at its own address.
 */
module Efirt {
  import opened AddressSpace
  import opened Basics
  import opened CopyVm
  import opened PageTable
  import opened PageTree
  import opened Vm

  const PTEPCD: nat := 0x10

  /** A runtime range; readonly and writeback are its attribute bits. */
  datatype EfiRange = EfiRange(base: nat, pages: nat, readonly: bool, writeback: bool)

  /** efirt_init passes over ranges that are empty or not page aligned. */
  predicate Used(r: EfiRange) {
    r.pages > 0 && r.base % PGSIZE == 0
  }

  function Perm(r: EfiRange): nat {
    (if r.readonly then 0 else PTEW) + if r.writeback then 0 else PTEPCD
  }

  predicate Holds(r: EfiRange, v: nat) {
    Used(r) && r.base / PGSIZE <= v < r.base / PGSIZE + r.pages
  }

  predicate InLowerHalf(r: EfiRange) {
    0 < r.base / PGSIZE && r.base / PGSIZE + r.pages <= USERPAGES
  }

  /** Ranges of the lower half, none over another and none over page zero. */
  ghost predicate Apart(ranges: seq<EfiRange>) {
    && (forall i :: 0 <= i < |ranges| && Used(ranges[i]) ==> InLowerHalf(ranges[i]))
    && forall i, j, v :: 0 <= i < j < |ranges| && Holds(ranges[i], v) ==> !Holds(ranges[j], v)
  }

  /** Page v of the lower half after the first n ranges: where a range has it, itself. */
  ghost predicate Identity(l: Option<Leaf>, ranges: seq<EfiRange>, n: nat, v: nat)
    requires n <= |ranges|
  {
    && (l.None? <==> forall i :: 0 <= i < n ==> !Holds(ranges[i], v))
    && forall i :: 0 <= i < n && Holds(ranges[i], v) ==> l == Some(Leaf(v, Perm(ranges[i])))
  }

  ghost predicate IdentityMapped(m: Tables, d: nat, ranges: seq<EfiRange>, n: nat)
    requires n <= |ranges|
  {
    forall v: nat :: v < USERPAGES ==> Identity(Lookup(m, d, 4, v), ranges, n, v)
  }

  /** kpgdir maps nothing in the lower half: kvmalloc zeroes it and maps the upper half only. */
  predicate UpperOnly(k: seq<Pte>) {
    |k| == NPT && forall i :: 0 <= i < UHALF ==> k[i] == EMPTY
  }

  lemma WholeTop(k: seq<Pte>)
    requires UpperOnly(k)
    ensures k == NewTop(k)
  {
  }

  /** One more range. */
  lemma OneMore(m0: Tables, m1: Tables, d: nat, ranges: seq<EfiRange>, i: nat)
    requires i < |ranges| && Apart(ranges) && Used(ranges[i]) && IdentityMapped(m0, d, ranges, i)
    requires var b := ranges[i].base / PGSIZE; Remapped(m0, m1, d, b, ranges[i].pages, b, Perm(ranges[i]))
    ensures IdentityMapped(m1, d, ranges, i + 1)
  {
    hide Lookup, Perm, Used;
    forall v: nat | v < USERPAGES
      ensures Identity(Lookup(m1, d, 4, v), ranges, i + 1, v)
    {
      assert Identity(Lookup(m0, d, 4, v), ranges, i, v);
      assert Lookup(m1, d, 4, v) ==
             if Holds(ranges[i], v) then Some(Leaf(v, Perm(ranges[i]))) else Lookup(m0, d, 4, v);
    }
  }

  lemma PassedOver(m: Tables, d: nat, ranges: seq<EfiRange>, i: nat)
    requires i < |ranges| && !Used(ranges[i]) && IdentityMapped(m, d, ranges, i)
    ensures IdentityMapped(m, d, ranges, i + 1)
  {
    hide Lookup, Perm;
    forall v: nat | v < USERPAGES
      ensures Identity(Lookup(m, d, 4, v), ranges, i + 1, v)
    {
      assert Identity(Lookup(m, d, 4, v), ranges, i, v);
    }
  }

  /** What has been mapped so far is apart from the next range, so map_range overwrites nothing. */
  lemma NextIsFree(m: Tables, d: nat, ranges: seq<EfiRange>, i: nat)
    requires i < |ranges| && Apart(ranges) && Used(ranges[i]) && IdentityMapped(m, d, ranges, i)
    ensures Untranslated(m, d, ranges[i].base / PGSIZE, ranges[i].pages)
  {
    hide Lookup, Perm, Used;
    forall v | ranges[i].base / PGSIZE <= v < ranges[i].base / PGSIZE + ranges[i].pages
      ensures Lookup(m, d, 4, v) == None
    {
      assert Holds(ranges[i], v) && Identity(Lookup(m, d, 4, v), ranges, i, v);
    }
  }

  /** d takes large pages, shares the kernel's upper half, and nothing else has changed since m0. */
  ghost predicate EfiRoot(m0: Tables, sh0: Shape, m: Tables, sh: Shape, d: nat) {
    && d !in m0 && IsRoot(sh, d) && d in sh.wide && d != sh.kroot
    && Evolves(m0, sh0, m, sh, d) && KernelShared(m, sh, d)
  }

  /** Mapping in the lower half of d concerns no address space, nor the upper half. */
  lemma LowerHalfOnly(m0: Tables, sh0: Shape, m1: Tables, sh1: Shape, home: map<nat, Home>, d: nat, vpn: nat, n: nat,
                      f: nat, perm: nat)
    requires ForestOk(m0, sh0) && PagesOk(m0, sh0, home) && Evolves(m0, sh0, m1, sh1, d)
    requires IsRoot(sh0, d) && d in sh0.wide && d != sh0.kroot && KernelShared(m0, sh0, d)
    requires Remapped(m0, m1, d, vpn, n, f, perm) && vpn + n <= USERPAGES
    ensures PagesOk(m1, sh1, home) && KernelShared(m1, sh1, d)
  {
    hide Lookup, NodeOk, OnePerPlace, Evolves, Wf;
    EvolvesOthers(m0, sh0, m1, sh1, d);
    RootStays(m0, sh0, m1, sh1, d);
    assert IsRoot(sh0, sh0.kroot);
    forall g | g in home
      ensures AtHome(m1, sh1, home, g)
    {
      SameRoots(m0, sh0, m1, sh1, d, home[g].root);
      assert AtHome(m0, sh0, home, g);
    }
    forall r: nat, w: nat | UserRoot(sh1, r) && w < USERPAGES
      ensures Lives(m1, home, r, w)
    {
      SameRoots(m0, sh0, m1, sh1, d, r);
      assert Lives(m0, home, r, w);
    }
  }

  /** The copy of kpgdir. */
  method NewEfiTable(mmu: Mmu, kpgdir: nat) returns (d: Option<nat>)
    requires Ok(mmu) && kpgdir == mmu.sh.kroot && UpperOnly(mmu.tables[kpgdir])
    modifies mmu`tables, mmu`free, mmu`sh
    ensures Ok(mmu) && mmu.Frames() == old(mmu.Frames())
    ensures d.None? ==> old(mmu.free) == [] && mmu.free == []
    ensures d.Some? ==> && EfiRoot(old(mmu.tables), old(mmu.sh), mmu.tables, mmu.sh, d.value)
                        && SpaceIs(mmu.tables, d.value, 0)
  {
    hide Lookup, Evolves, SpaceIs, KernelShared, PagesOk, ForestOk, NewTop;
    KernelTop(mmu.tables, mmu.sh);
    d := TakeFrame(mmu);
    if d.Some? {
      TopForest(mmu.tables, mmu.sh, d.value, true);
      TopSpace(mmu.tables, mmu.sh, mmu.home, d.value, true);
      WholeTop(mmu.tables[kpgdir]);
      mmu.tables := mmu.tables[d.value := mmu.tables[kpgdir]];
      mmu.sh := Rooted(mmu.sh, d.value, true);
    }
  }

  /** map_range in the lower half of the new table. */
  method MapLower(mmu: Mmu, d: nat, va: nat, size: nat, perm: nat, ghost m0: Tables, ghost sh0: Shape)
      returns (ok: bool)
    requires Ok(mmu) && EfiRoot(m0, sh0, mmu.tables, mmu.sh, d)
    requires va % PGSIZE == 0 && va / PGSIZE + Pages(size) <= USERPAGES
    requires Untranslated(mmu.tables, d, va / PGSIZE, Pages(size))
    modifies mmu`tables, mmu`free, mmu`sh
    ensures Ok(mmu) && mmu.Frames() == old(mmu.Frames()) && EfiRoot(m0, sh0, mmu.tables, mmu.sh, d)
    ensures !ok ==> mmu.free == []
    ensures ok ==> Remapped(old(mmu.tables), mmu.tables, d, va / PGSIZE, Pages(size), va / PGSIZE, perm)
  {
    hide Lookup, Evolves, KernelShared, PagesOk, ForestOk, Remapped, Pages, Elems;
    ghost var m1, sh1 := mmu.tables, mmu.sh;
    ghost var n;
    ok, n := mmu.MapRange(d, va, va, size, perm);
    LowerHalfOnly(m1, sh1, mmu.tables, mmu.sh, mmu.home, d, va / PGSIZE, n, va / PGSIZE, perm);
    RootStays(m1, sh1, mmu.tables, mmu.sh, d);
    EvolvesChain(m0, sh0, m1, sh1, mmu.tables, mmu.sh, d);
  }

  lemma WholePages(n: nat)
    ensures Pages(n * PGSIZE) == n
  {
  }

  /** The loop over the firmware's ranges. */
  method MapRanges(mmu: Mmu, d: nat, ranges: seq<EfiRange>, ghost m0: Tables, ghost sh0: Shape) returns (ok: bool)
    requires Ok(mmu) && EfiRoot(m0, sh0, mmu.tables, mmu.sh, d) && Apart(ranges) && SpaceIs(mmu.tables, d, 0)
    modifies mmu`tables, mmu`free, mmu`sh
    ensures Ok(mmu) && mmu.Frames() == old(mmu.Frames()) && EfiRoot(m0, sh0, mmu.tables, mmu.sh, d)
    ensures !ok ==> mmu.free == []
    ensures ok ==> IdentityMapped(mmu.tables, d, ranges, |ranges|)
  {
    hide Lookup, EfiRoot, Ok, Mmu.Frames, IdentityMapped, Untranslated, Remapped, Pages, Perm;
    Nothing(mmu.tables, d, ranges);
    for i := 0 to |ranges|
      invariant Ok(mmu) && mmu.Frames() == old(mmu.Frames()) && EfiRoot(m0, sh0, mmu.tables, mmu.sh, d)
      invariant IdentityMapped(mmu.tables, d, ranges, i)
    {
      var r := ranges[i];
      if r.pages * PGSIZE == 0 || r.base % PGSIZE != 0 {
        PassedOver(mmu.tables, d, ranges, i);
        continue;
      }
      ghost var m1 := mmu.tables;
      WholePages(r.pages);
      NextIsFree(m1, d, ranges, i);
      ok := MapLower(mmu, d, r.base, r.pages * PGSIZE, Perm(r), m0, sh0);
      if !ok {
        return;
      }
      OneMore(m1, mmu.tables, d, ranges, i);
    }
    ok := true;
  }

  lemma Nothing(m: Tables, d: nat, ranges: seq<EfiRange>)
    requires SpaceIs(m, d, 0)
    ensures IdentityMapped(m, d, ranges, 0)
  {
    hide Lookup;
  }

  /** What the firmware's table translates in the lower half. */
  ghost predicate EfiMapped(m: Tables, d: nat, ranges: seq<EfiRange>) {
    && Lookup(m, d, 4, 0) == Some(Leaf(0, PTEW))
    && forall v: nat :: 0 < v < USERPAGES ==> Identity(Lookup(m, d, 4, v), ranges, |ranges|, v)
  }

  /** Page zero is in no range. */
  lemma ZeroIsFree(m: Tables, d: nat, ranges: seq<EfiRange>)
    requires Apart(ranges) && IdentityMapped(m, d, ranges, |ranges|)
    ensures Untranslated(m, d, 0, 1)
  {
    hide Lookup;
    assert Identity(Lookup(m, d, 4, 0), ranges, |ranges|, 0);
  }

  lemma WithZero(m0: Tables, m1: Tables, d: nat, ranges: seq<EfiRange>)
    requires IdentityMapped(m0, d, ranges, |ranges|) && Remapped(m0, m1, d, 0, 1, 0, PTEW)
    ensures EfiMapped(m1, d, ranges)
  {
    hide Lookup, Identity;
    assert Lookup(m1, d, 4, 0) == Some(Leaf(0, PTEW));
    forall v: nat | 0 < v < USERPAGES
      ensures Identity(Lookup(m1, d, 4, v), ranges, |ranges|, v)
    {
      assert Identity(Lookup(m0, d, 4, v), ranges, |ranges|, v);
    }
  }

  /**
   efirt_init: the table translates each range and page zero to itself, with the
   permissions asked for, nothing else below, and the kernel's half above; no other
   table changes. It fails only when memory runs out.
   */
  method EfiInit(mmu: Mmu, kpgdir: nat, ranges: seq<EfiRange>) returns (d: Option<nat>)
    requires Ok(mmu) && kpgdir == mmu.sh.kroot && UpperOnly(mmu.tables[kpgdir]) && Apart(ranges)
    modifies mmu`tables, mmu`free, mmu`sh
    ensures Ok(mmu) && mmu.Frames() == old(mmu.Frames())
    ensures d.None? ==> mmu.free == []
    ensures d.Some? ==> && EfiRoot(old(mmu.tables), old(mmu.sh), mmu.tables, mmu.sh, d.value)
                        && EfiMapped(mmu.tables, d.value, ranges)
  {
    hide Lookup, EfiRoot, Ok, Mmu.Frames, IdentityMapped, Untranslated, Remapped, Pages, SpaceIs, EfiMapped;
    ghost var m0, sh0 := mmu.tables, mmu.sh;
    d := NewEfiTable(mmu, kpgdir);
    if d.None? {
      return;
    }
    var ok := MapRanges(mmu, d.value, ranges, m0, sh0);
    if !ok {
      return None;
    }
    ghost var m1 := mmu.tables;
    WholePages(1);
    ZeroIsFree(m1, d.value, ranges);
    ok := MapLower(mmu, d.value, 0, PGSIZE, PTEW, m0, sh0);
    if !ok {
      return None;
    }
    WithZero(m1, mmu.tables, d.value, ranges);
  }

  /** The firmware can write a page of a range just if the range is not read-only, and user code cannot use it. */
  lemma EfiAccess(mmu: Mmu, d: nat, ranges: seq<EfiRange>, i: nat, v: nat)
    requires mmu.Valid() && IsRoot(mmu.sh, d) && EfiMapped(mmu.tables, d, ranges)
    requires 0 < v < USERPAGES && i < |ranges| && Holds(ranges[i], v)
    ensures Allows(mmu.tables, d, 4, v, PTEW) <==> !ranges[i].readonly
    ensures !Allows(mmu.tables, d, 4, v, PTEU)
    ensures var l := Lookup(mmu.tables, d, 4, v);
            l.Some? && l.value.frame == v && (HasPerm(l.value.perm, PTEPCD) <==> !ranges[i].writeback)
  {
    hide Lookup, Allows, Mmu.Valid;
    assert Identity(Lookup(mmu.tables, d, 4, v), ranges, |ranges|, v);
    UserAccess(mmu, d, v, PTEW);
    UserAccess(mmu, d, v, PTEU);
  }
}
