/**
 A process's memory from exec to exit (kern/vm.c): an address space that is set up,
 grown, forked and freed leaves every frame where it was, whatever ran out on the way.
 */
module VmLife {
  import opened AddressSpace
  import opened Basics
  import opened CopyVm
  import opened FrameCount
  import opened PageTable
  import opened PageTree
  import opened Vm

  lemma NewSpace(a: Memory, b: Memory, d: nat)
    requires ForestOk(a.tables, a.sh) && PagesOk(a.tables, a.sh, a.home) && d !in a.tables
    requires Evolves(a.tables, a.sh, b.tables, b.sh, d) && b.home == a.home && b.data == a.data
    ensures Since(a, b, d)
  {
    hide ForestOk, PagesOk, Evolves;
  }

  /** allocuvm of the new space, with or without success. */
  lemma StillNew(a: Memory, b: Memory, c: Memory, d: nat, lo: nat, hi: nat)
    requires Since(a, b, d) && Evolves(b.tables, b.sh, c.tables, c.sh, d)
    requires (c.home == b.home && c.data == b.data)
          || Grown(b.tables, c.tables, b.home, c.home, b.data, c.data, d, lo, hi)
    ensures Since(a, c, d)
  {
    hide ForestOk, PagesOk, Evolves, Lookup;
    EvolvesChain(a.tables, a.sh, b.tables, b.sh, c.tables, c.sh, d);
  }

  lemma SameSpace(m0: Tables, m1: Tables, d: nat, n: nat)
    requires SpaceIs(m0, d, n) && Unmapped(m0, m1, d, 0, 0)
    ensures SpaceIs(m1, d, n)
  {
    hide Lookup;
  }

  /** setupkvm and allocuvm, as exec does them; size is what the space then has. */
  method Load(mmu: Mmu, kpgdir: nat, sz: nat) returns (d: Option<nat>, size: nat)
    requires Ok(mmu) && kpgdir == mmu.sh.kroot && sz < USERMAX
    modifies mmu
    ensures Ok(mmu) && mmu.Frames() == old(mmu.Frames()) && mmu.sh.kroot == kpgdir && size < USERMAX
    ensures d.None? ==> Restored(old(Now(mmu)), Now(mmu))
    ensures d.Some? ==> && Since(old(Now(mmu)), Now(mmu), d.value) && UserRoot(mmu.sh, d.value)
                        && SpaceIs(mmu.tables, d.value, Pages(size))
  {
    hide Since, ForestOk, PagesOk, SpaceIs, Grown, Unmapped, Evolves, KernelShared, Mmu.Frames, Pages, Cost, Places;
    ghost var a := Now(mmu);
    size := 0;
    d := SetupKvm(mmu, kpgdir);
    if d.None? {
      return;
    }
    ghost var b := Now(mmu);
    NewSpace(a, b, d.value);
    assert Pages(0) == 0 by { NoPagesAtAll(); }
    var r, ok := AllocUvm(mmu, d.value, 0, sz);
    StillNew(a, b, Now(mmu), d.value, 0, Pages(sz));
    assert mmu.sh.kroot == b.sh.kroot by { KernelStays(b.tables, b.sh, mmu.tables, mmu.sh, d.value); }
    if !ok {
      SameSpace(b.tables, mmu.tables, d.value, 0);
    }
    size := r;
  }

  lemma NoPagesAtAll()
    ensures Pages(0) == 0
  {
  }

  lemma KernelStays(m0: Tables, sh0: Shape, m1: Tables, sh1: Shape, o: nat)
    requires Evolves(m0, sh0, m1, sh1, o)
    ensures sh1.kroot == sh0.kroot
  {
  }

  /** fork's copyuvm, and the freevm of the child when it is waited for. */
  method ForkAndWait(mmu: Mmu, kpgdir: nat, root: nat, sz: nat)
    requires Ok(mmu) && kpgdir == mmu.sh.kroot && UserRoot(mmu.sh, root) && SpaceIs(mmu.tables, root, Pages(sz))
    requires sz < USERMAX && Pages(sz) <= USERPAGES
    modifies mmu
    ensures Ok(mmu) && mmu.Frames() == old(mmu.Frames()) && Restored(old(Now(mmu)), Now(mmu))
  {
    hide Since, ForestOk, PagesOk, UserRoot, SpaceIs, OthersSame, Copying, Mmu.Frames, Pages, EmptyCost, Elems;
    ghost var a := Now(mmu);
    var d := CopyUvm(mmu, kpgdir, root, sz);
    if d.Some? {
      CopyIsNew(a, Now(mmu), root, d.value, Pages(sz));
      Discard(mmu, d.value, sz, Pages(sz), a);
    }
  }

  lemma SmallSize(sz: nat)
    requires sz < USERMAX
    ensures Pages(sz) <= USERPAGES
  {
  }

  lemma StillSince(a: Memory, b: Memory, c: Memory, d: nat, n: nat)
    requires Since(a, b, d) && UserRoot(b.sh, d) && SpaceIs(b.tables, d, n) && Restored(b, c)
    ensures Since(a, c, d) && UserRoot(c.sh, d) && SpaceIs(c.tables, d, n)
  {
    hide NodeOk, Wf, OnePerPlace, PagesOk, Lookup, SpaceIs;
  }

  /**
   exec, fork, the wait for the child and the exit, one after the other. Wherever
   memory runs out, every page, every table and every free frame is as before.
   */
  method Life(mmu: Mmu, kpgdir: nat, sz: nat)
    requires Ok(mmu) && kpgdir == mmu.sh.kroot && sz < USERMAX
    modifies mmu
    ensures Ok(mmu) && Restored(old(Now(mmu)), Now(mmu)) && Elems(mmu.free) == Elems(old(mmu.free))
  {
    hide Ok, Since, Restored, ForestOk, UserRoot, SpaceIs, Mmu.Frames, Pages, Elems;
    ghost var a := Now(mmu);
    OkFree(mmu);
    OkKeys(mmu);
    var d, size := Load(mmu, kpgdir, sz);
    if d.Some? {
      ghost var b := Now(mmu);
      SmallSize(size);
      ForkAndWait(mmu, kpgdir, d.value, size);
      StillSince(a, b, Now(mmu), d.value, Pages(size));
      Discard(mmu, d.value, size, Pages(size), a);
    }
    OkFree(mmu);
    assert mmu.tables == a.tables && mmu.data == a.data by { Parts(a, Now(mmu)); }
  }

  lemma Parts(a: Memory, c: Memory)
    requires Restored(a, c)
    ensures c.tables == a.tables && c.data == a.data
  {
  }

  /** A kernel page table and a free list are enough to begin with. */
  method Start(frames: seq<nat>, have1g: bool) returns (mmu: Mmu)
    requires Distinct(frames) && frames != [] && 0 !in frames
    ensures fresh(mmu) && Ok(mmu) && mmu.sh.kroot == frames[0] && mmu.free == frames[1..]
  {
    mmu := new Mmu(frames, have1g);
    assert forall r :: !UserRoot(mmu.sh, r);
  }
}
