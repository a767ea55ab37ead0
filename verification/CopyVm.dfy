/**
 A child's address space (kern/vm.c): setupkvm and copyuvm.
 */
module CopyVm {
  import opened Bytes
  import opened PageTable
  import opened PageTree
  import opened Vm
  import opened FrameCount
  import opened AddressSpace
  import opened FreeVm
  import opened Basics

  /** A top level with an empty user half and the kernel's entries above. */
  function NewTop(k: seq<Pte>): (t: seq<Pte>)
    requires |k| == NPT
    ensures |t| == NPT && forall i :: 0 <= i < NPT ==> t[i] == if i < UHALF then EMPTY else k[i]
  {
    seq(NPT, i requires 0 <= i < NPT => if i < UHALF then EMPTY else k[i])
  }

  /** The forest with a new top level d, of an address space or of a tree that takes large pages. */
  ghost function Rooted(sh: Shape, d: nat, large: bool): Shape {
    sh.(pos := sh.pos[d := Loc(4, 0)], own := sh.own[d := d], wide := sh.wide + if large then {d} else {})
  }

  lemma TopEntry(m: Tables, sh: Shape, d: nat, large: bool, t: nat, i: nat)
    requires ForestOk(m, sh) && d !in m && t in m && |m[t]| == NPT && i < NPT
    ensures EntryOwn(Rooted(sh, d, large), sh.own[t], sh.pos[t], i, m[t][i])
    ensures EntryOk(Rooted(sh, d, large).pos, sh.pos[t], i, m[t][i])
  {
    hide OnePerPlace, UpOk;
    assert NodeOk(m, sh, t) && TableOk(sh.pos, sh.pos[t], m[t]);
    assert EntryOwn(sh, sh.own[t], sh.pos[t], i, m[t][i]) && EntryOk(sh.pos, sh.pos[t], i, m[t][i]);
  }

  lemma TopUp(m: Tables, sh: Shape, d: nat, large: bool, top: seq<Pte>, t: nat)
    requires ForestOk(m, sh) && d !in m && t in m && sh.own[t] !in sh.wide && sh.pos[t].level < 4
    ensures UpOk(m[d := top], Rooted(sh, d, large), t)
  {
    hide OnePerPlace, EntryOwn, Wf;
    assert NodeOk(m, sh, t);
    assert UpOk(m, sh, t);
  }

  lemma TopNode(m: Tables, sh: Shape, d: nat, large: bool, t: nat)
    requires ForestOk(m, sh) && d !in m && t in m && |m[sh.kroot]| == NPT
    ensures NodeOk(m[d := NewTop(m[sh.kroot])], Rooted(sh, d, large), t)
    ensures TableOk(Rooted(sh, d, large).pos, sh.pos[t], m[t])
  {
    hide OnePerPlace, EntryOwn, EntryOk, UpOk, NewTop;
    assert NodeOk(m, sh, t) && TableOk(sh.pos, sh.pos[t], m[t]);
    forall i | 0 <= i < NPT
      ensures EntryOwn(Rooted(sh, d, large), sh.own[t], sh.pos[t], i, m[t][i])
      ensures EntryOk(Rooted(sh, d, large).pos, sh.pos[t], i, m[t][i])
    {
      TopEntry(m, sh, d, large, t, i);
    }
    if sh.own[t] !in sh.wide && sh.pos[t].level < 4 {
      TopUp(m, sh, d, large, NewTop(m[sh.kroot]), t);
    }
  }

  lemma TopItself(m: Tables, sh: Shape, d: nat, large: bool)
    requires ForestOk(m, sh) && d !in m && |m[sh.kroot]| == NPT
    ensures NodeOk(m[d := NewTop(m[sh.kroot])], Rooted(sh, d, large), d)
    ensures TableOk(Rooted(sh, d, large).pos, Loc(4, 0), NewTop(m[sh.kroot]))
  {
    hide OnePerPlace, UpOk;
    var k := sh.kroot;
    assert NodeOk(m, sh, k) && TableOk(sh.pos, sh.pos[k], m[k]);
    forall i | 0 <= i < NPT
      ensures EntryOwn(Rooted(sh, d, large), d, Loc(4, 0), i, NewTop(m[k])[i])
      ensures EntryOk(Rooted(sh, d, large).pos, Loc(4, 0), i, NewTop(m[k])[i])
    {
      assert EntryOwn(sh, k, sh.pos[k], i, m[k][i]) && EntryOk(sh.pos, sh.pos[k], i, m[k][i]);
    }
  }

  lemma TopForest(m: Tables, sh: Shape, d: nat, large: bool)
    requires ForestOk(m, sh) && d !in m && |m[sh.kroot]| == NPT
    ensures ForestOk(m[d := NewTop(m[sh.kroot])], Rooted(sh, d, large))
    ensures Evolves(m, sh, m[d := NewTop(m[sh.kroot])], Rooted(sh, d, large), d)
  {
    hide NodeOk, TableOk;
    var m', sh' := m[d := NewTop(m[sh.kroot])], Rooted(sh, d, large);
    forall t | t in m'
      ensures NodeOk(m', sh', t) && TableOk(sh'.pos, sh'.pos[t], m'[t])
    {
      if t == d { TopItself(m, sh, d, large); } else { TopNode(m, sh, d, large, t); }
    }
    forall t: nat, u: nat | Twins(sh', t, u)
      ensures t == u
    {
      OwnersExist(m, sh, if t == d then u else t);
      assert t != d && u != d ==> Twins(sh, t, u);
    }
  }

  /** A table's owner is itself a table. */
  lemma OwnersExist(m: Tables, sh: Shape, t: nat)
    requires ForestOk(m, sh)
    ensures t in m ==> sh.own[t] in m
  {
    hide Wf, OnePerPlace, EntryOwn, UpOk;
    if t in m {
      assert NodeOk(m, sh, t);
    }
  }

  /** The new space has no user pages, and translates the kernel half as the kernel does. */
  lemma TopLookup(m: Tables, sh: Shape, d: nat, v: nat)
    requires ForestOk(m, sh) && d !in m && |m[sh.kroot]| == NPT && v < Span(5)
    ensures Lookup(m[d := NewTop(m[sh.kroot])], d, 4, v) == if v < USERPAGES then None else Lookup(m, sh.kroot, 4, v)
  {
    hide Ptx, UpOk, OnePerPlace;
    var k, m' := sh.kroot, m[d := NewTop(m[sh.kroot])];
    UserIndex(v);
    var i := Ptx(v, 4);
    assert NodeOk(m, sh, k) && TableOk(sh.pos, sh.pos[k], m[k]);
    var e := m[k][i];
    assert EntryOwn(sh, k, sh.pos[k], i, e) && EntryOk(sh.pos, sh.pos[k], i, e);
    if e.present && !e.large {
      LookupKeeps(m, m', sh, k, e.frame, 3, v);
    }
  }

  /** The kernel half of d is the kernel's own. */
  ghost predicate KernelShared(m: Tables, sh: Shape, d: nat) {
    forall w: nat :: USERPAGES <= w < Span(5) ==> Lookup(m, d, 4, w) == Lookup(m, sh.kroot, 4, w)
  }

  lemma TopSpace(m: Tables, sh: Shape, home: map<nat, Home>, d: nat, large: bool)
    requires ForestOk(m, sh) && d !in m && |m[sh.kroot]| == NPT && PagesOk(m, sh, home)
    ensures var m', sh' := m[d := NewTop(m[sh.kroot])], Rooted(sh, d, large);
            PagesOk(m', sh', home) && SpaceIs(m', d, 0) && KernelShared(m', sh', d) && (large || UserRoot(sh', d))
  {
    hide Lookup, NodeOk, Wf, OnePerPlace;
    var m', sh' := m[d := NewTop(m[sh.kroot])], Rooted(sh, d, large);
    forall v: nat | v < Span(5)
      ensures Lookup(m', d, 4, v) == if v < USERPAGES then None else Lookup(m, sh.kroot, 4, v)
    {
      TopLookup(m, sh, d, v);
    }
    forall r: nat, v: nat | IsRoot(sh, r)
      ensures Lookup(m', r, 4, v) == Lookup(m, r, 4, v)
    {
      LookupKeeps(m, m', sh, r, r, 4, v);
    }
    forall f | f in home
      ensures AtHome(m', sh', home, f)
    {
      assert AtHome(m, sh, home, f);
    }
    forall r: nat, v: nat | UserRoot(sh', r) && v < USERPAGES
      ensures Lives(m', home, r, v)
    {
      if r != d {
        assert Lives(m, home, r, v);
      }
    }
  }

  /** setupkvm's loop: a zeroed table, then the kernel's upper half entry by entry. */
  method CopyKernelHalf(k: seq<Pte>) returns (t: seq<Pte>)
    requires |k| == NPT
    ensures t == NewTop(k)
  {
    t := ZeroTable();
    for i := UHALF to NPT
      invariant |t| == NPT && forall j :: 0 <= j < NPT ==> t[j] == if UHALF <= j < i then k[j] else EMPTY
    {
      t := t[i := k[i]];
    }
  }

  lemma KernelTop(m: Tables, sh: Shape)
    requires ForestOk(m, sh)
    ensures sh.kroot in m && |m[sh.kroot]| == NPT
  {
    hide NodeOk, OnePerPlace;
    Levels(m, sh, sh.kroot);
  }

  /** A new address space has its top level only. */
  lemma NoPlaces(m: Tables, sh: Shape, d: nat)
    requires ForestOk(m, sh) && d !in m
    ensures Places(Rooted(sh, d, false), d) == {}
  {
    hide NodeOk, Wf, OnePerPlace;
    forall t | t in sh.own
      ensures sh.own[t] != d
    {
      OwnersExist(m, sh, t);
    }
  }

  /** setupkvm: a new address space with no user pages that shares the kernel half. */
  method SetupKvm(mmu: Mmu, kpgdir: nat) returns (d: Option<nat>)
    requires Ok(mmu) && kpgdir == mmu.sh.kroot
    modifies mmu`tables, mmu`free, mmu`sh
    ensures Ok(mmu) && mmu.Frames() == old(mmu.Frames()) && mmu.sh.kroot == kpgdir
    ensures d.None? <==> old(mmu.free) == []
    ensures d.Some? ==> |mmu.free| + 1 == |old(mmu.free)| && Places(mmu.sh, d.value) == {}
    ensures d.None? ==> mmu.free == old(mmu.free) && mmu.tables == old(mmu.tables) && mmu.sh == old(mmu.sh)
    ensures d.Some? ==> && d.value !in old(mmu.tables) && UserRoot(mmu.sh, d.value)
                        && SpaceIs(mmu.tables, d.value, 0) && KernelShared(mmu.tables, mmu.sh, d.value)
                        && Evolves(old(mmu.tables), old(mmu.sh), mmu.tables, mmu.sh, d.value)
  {
    hide Lookup, Evolves, SpaceIs, KernelShared, PagesOk, ForestOk, NewTop, Places;
    KernelTop(mmu.tables, mmu.sh);
    d := TakeFrame(mmu);
    if d.Some? {
      TopForest(mmu.tables, mmu.sh, d.value, false);
      TopSpace(mmu.tables, mmu.sh, mmu.home, d.value, false);
      NoPlaces(mmu.tables, mmu.sh, d.value);
      var top := CopyKernelHalf(mmu.tables[kpgdir]);
      mmu.tables := mmu.tables[d.value := top];
      mmu.sh := Rooted(mmu.sh, d.value, false);
    }
  }

  // -------------------------------------------------------------- copyuvm

  /** Page w of d has its own frame, with the permissions and the contents of page w of root. */
  predicate CopyOf(m: Tables, data: map<nat, seq<Byte>>, root: nat, d: nat, w: nat) {
    var a, b := Lookup(m, root, 4, w), Lookup(m, d, 4, w);
    && a.Some? && b.Some? && a.value.perm == b.value.perm && a.value.frame != b.value.frame
    && a.value.frame in data && b.value.frame in data && data[b.value.frame] == data[a.value.frame]
  }

  /** The parts of the Mmu that a run of copyuvm changes, besides the free list. */
  datatype Memory = Memory(tables: Tables, sh: Shape, home: map<nat, Home>, data: map<nat, seq<Byte>>)

  ghost function Now(mmu: Mmu): Memory
    reads mmu
  {
    Memory(mmu.tables, mmu.sh, mmu.home, mmu.data)
  }

  // --------------------------------------------- an address space and back

  /** Nothing but the address space d, new since a, has changed. */
  ghost predicate Since(a: Memory, b: Memory, d: nat) {
    && ForestOk(a.tables, a.sh) && PagesOk(a.tables, a.sh, a.home) && d !in a.tables
    && Evolves(a.tables, a.sh, b.tables, b.sh, d)
    && (forall f :: f in a.home ==> f in b.home && b.home[f] == a.home[f])
    && (forall f :: f in b.home && f !in a.home ==> b.home[f].root == d)
    && SubData(b.data, a.data)
  }

  /** c is b without d. */
  ghost predicate Without(b: Memory, c: Memory, d: nat) {
    && c.tables.Keys == b.tables.Keys - Tree(b.tables, b.sh, d)
    && (forall t :: t in c.tables ==> c.tables[t] == b.tables[t])
    && c.sh == Felled(b.sh, Tree(b.tables, b.sh, d))
    && Dropped(b.home, c.home, d, 0, USERPAGES) && SubData(b.data, c.data)
  }

  /** The same memory, and the same address spaces. */
  ghost predicate Restored(a: Memory, c: Memory) {
    c.tables == a.tables && c.home == a.home && c.data == a.data && c.sh.(up := a.sh.up) == a.sh
  }

  lemma OldOwners(a: Memory, d: nat)
    requires ForestOk(a.tables, a.sh) && d !in a.tables
    ensures forall t :: t in a.tables ==> t in a.sh.own && a.sh.own[t] != d
  {
    hide NodeOk, Wf, OnePerPlace;
    forall t | t in a.tables
      ensures a.sh.own[t] != d
    {
      OwnersExist(a.tables, a.sh, t);
    }
  }

  lemma TablesBack(a: Memory, b: Memory, c: Memory, d: nat)
    requires Since(a, b, d) && ForestOk(b.tables, b.sh) && Without(b, c, d)
    ensures c.tables == a.tables
  {
    hide NodeOk, Wf, OnePerPlace, PagesOk, Dropped, Felled;
    OldOwners(a, d);
    forall t
      ensures t in c.tables <==> t in a.tables
    {
      if t in b.tables && t !in a.tables {
        assert t in Tree(b.tables, b.sh, d);
      }
    }
  }

  lemma RootsBack(a: Memory, b: Memory, c: Memory, d: nat)
    requires Since(a, b, d) && ForestOk(b.tables, b.sh) && UserRoot(b.sh, d) && Without(b, c, d)
    ensures c.sh.(up := a.sh.up) == a.sh
  {
    hide NodeOk, Wf, OnePerPlace, PagesOk, Dropped;
    OldOwners(a, d);
    TablesBack(a, b, c, d);
    assert c.sh.pos == a.sh.pos;
    assert c.sh.own == a.sh.own;
    forall r
      ensures r in c.sh.wide <==> r in a.sh.wide
    {
      assert r in b.sh.wide ==> r in b.sh.own && b.sh.own[r] == r != d;
    }
  }

  /** No page of a lives in d. */
  lemma NotAtHome(a: Memory, d: nat)
    requires ForestOk(a.tables, a.sh) && PagesOk(a.tables, a.sh, a.home) && d !in a.tables
    ensures forall f :: f in a.home ==> a.home[f].root != d
  {
    hide NodeOk, Wf, OnePerPlace, Lookup;
    forall f | f in a.home
      ensures a.home[f].root != d
    {
      assert AtHome(a.tables, a.sh, a.home, f);
    }
  }

  lemma PagesBack(a: Memory, b: Memory, c: Memory, d: nat)
    requires Since(a, b, d) && PagesOk(b.tables, b.sh, b.home) && Without(b, c, d)
    requires a.home.Keys == a.data.Keys && c.home.Keys == c.data.Keys
    ensures c.home == a.home && c.data == a.data
  {
    hide ForestOk, Tree, Felled, Evolves, Lookup;
    NotAtHome(a, d);
    forall f
      ensures f in c.home <==> f in a.home
    {
      if f in b.home && f !in a.home {
        assert AtHome(b.tables, b.sh, b.home, f);
      }
    }
    forall f | f in a.data
      ensures f in c.data && c.data[f] == a.data[f]
    {
      assert f in c.home;
    }
  }

  /** Freeing what is new since a brings a back. */
  lemma AllBack(a: Memory, b: Memory, c: Memory, d: nat)
    requires Since(a, b, d) && ForestOk(b.tables, b.sh) && PagesOk(b.tables, b.sh, b.home) && Without(b, c, d)
    requires a.home.Keys == a.data.Keys && c.home.Keys == c.data.Keys && UserRoot(b.sh, d)
    ensures Restored(a, c)
  {
    hide Since, ForestOk, PagesOk, Without, UserRoot;
    TablesBack(a, b, c, d);
    PagesBack(a, b, c, d);
    RootsBack(a, b, c, d);
  }

  /** freevm of an address space that is new since a. */
  method Discard(mmu: Mmu, d: nat, sz: nat, ghost n: nat, ghost a: Memory)
    requires Ok(mmu) && UserRoot(mmu.sh, d) && SpaceIs(mmu.tables, d, n) && n <= Pages(sz) <= USERPAGES
    requires Since(a, Now(mmu), d) && a.home.Keys == a.data.Keys
    modifies mmu
    ensures Ok(mmu) && mmu.Frames() == old(mmu.Frames()) && Restored(a, Now(mmu))
  {
    hide Since, ForestOk, PagesOk, UserRoot, SpaceIs, Tree, Felled, Dropped, SubData, OthersSame, Mmu.Frames, Pages;
    ghost var b := Now(mmu);
    FreeVmSpace(mmu, d, sz, n);
    assert Without(b, Now(mmu), d);
    AllBack(a, b, Now(mmu), d);
  }

  /** Where copyuvm stands: d, new since a, holds copies of the pages of root below v. */
  ghost predicate Copying(a: Memory, b: Memory, root: nat, d: nat, v: nat) {
    && UserRoot(b.sh, d) && UserRoot(a.sh, root) && UserRoot(b.sh, root) && d !in a.tables && ForestOk(a.tables, a.sh)
    && Evolves(a.tables, a.sh, b.tables, b.sh, d)
    && SpaceIs(b.tables, d, v) && KernelShared(b.tables, b.sh, d)
    && (forall w: nat :: w < v ==> CopyOf(b.tables, b.data, root, d, w))
    && (forall f :: f in a.home ==> f in b.home && b.home[f] == a.home[f])
    && (forall f :: f in b.home && f !in a.home ==> b.home[f].root == d)
    && SubData(b.data, a.data)
  }

  /** A present page has an entry in its lowest table, so copyuvm's two panics cannot happen. */
  lemma PageEntry(m: Tables, sh: Shape, root: nat, v: nat)
    requires ForestOk(m, sh) && UserRoot(sh, root) && v < USERPAGES && Lookup(m, root, 4, v).Some?
    ensures var u := WalkTo(m, root, 4, v, 1);
            && u.Some? && u.value in m && |m[u.value]| == NPT && m[u.value][Ptx(v, 1)].present
            && Lookup(m, root, 4, v) == Some(Leaf(m[u.value][Ptx(v, 1)].frame, m[u.value][Ptx(v, 1)].perm))
  {
    hide Lookup, Ptx, NodeOk, OnePerPlace, WalkTo;
    UserIndex(v);
    assert Through(sh.pos[root], v);
    if WalkTo(m, root, 4, v, 1).None? {
      NoTableNoPage(m, sh, root, v);
    } else {
      ClearedPage(m, sh, root, v, WalkTo(m, root, 4, v, 1).value);
    }
  }

  lemma CopyStart(a: Memory, b: Memory, root: nat, d: nat)
    requires UserRoot(b.sh, d) && UserRoot(a.sh, root) && d !in a.tables && ForestOk(a.tables, a.sh)
    requires Evolves(a.tables, a.sh, b.tables, b.sh, d)
    requires SpaceIs(b.tables, d, 0) && KernelShared(b.tables, b.sh, d) && b.home == a.home && b.data == a.data
    ensures Copying(a, b, root, d, 0)
  {
    hide Lookup, SpaceIs, KernelShared, ForestOk;
  }

  /** The page of the parent that is copied next, and that the child does not have yet. */
  lemma NextPage(mmu: Mmu, a: Memory, root: nat, d: nat, v: nat)
    requires Ok(mmu) && Copying(a, Now(mmu), root, d, v)
    requires v < USERPAGES && Lookup(a.tables, root, 4, v).Some?
    ensures root != d && UserRoot(mmu.sh, root) && UserRoot(mmu.sh, d)
    ensures Lookup(mmu.tables, d, 4, v) == None && Lookup(mmu.tables, root, 4, v) == Lookup(a.tables, root, 4, v)
    ensures Lookup(mmu.tables, root, 4, v).value.frame in mmu.data
  {
    hide Lookup, CopyOf, KernelShared, Evolves, NodeOk, Wf, OnePerPlace;
    EvolvesOthers(a.tables, a.sh, mmu.tables, mmu.sh, d);
    LivesThere(mmu.tables, mmu.sh, mmu.home, root, v);
  }

  /** Page w of the child is still a copy, and the kernel half still shared, after page v was added. */
  lemma CopyKept(m1: Tables, sh1: Shape, m2: Tables, sh2: Shape, data1: map<nat, seq<Byte>>, data2: map<nat, seq<Byte>>,
                 root: nat, d: nat, v: nat, w: nat, n: nat, f: nat, perm: nat)
    requires ForestOk(m1, sh1) && UserRoot(sh1, root) && UserRoot(sh1, d) && root != d && Evolves(m1, sh1, m2, sh2, d)
    requires Remapped(m1, m2, d, v, n, f, perm) && SubData(data2, data1) && n <= 1
    requires w < v && CopyOf(m1, data1, root, d, w) && v < USERPAGES
    ensures CopyOf(m2, data2, root, d, w)
  {
    hide Lookup, Evolves, ForestOk;
    EvolvesOthers(m1, sh1, m2, sh2, d);
  }

  lemma KernelKept(m1: Tables, sh1: Shape, m2: Tables, sh2: Shape, d: nat, v: nat, n: nat, f: nat, perm: nat)
    requires ForestOk(m1, sh1) && UserRoot(sh1, d) && Evolves(m1, sh1, m2, sh2, d) && v < USERPAGES && n <= 1
    requires Remapped(m1, m2, d, v, n, f, perm) && KernelShared(m1, sh1, d)
    ensures KernelShared(m2, sh2, d)
  {
    hide Lookup, Evolves, NodeOk, Wf, OnePerPlace;
    EvolvesOthers(m1, sh1, m2, sh2, d);
    RootStays(m1, sh1, m2, sh2, d);
    assert IsRoot(sh1, sh1.kroot);
  }

  /** The copy of page v is in place. */
  lemma PageCopied(m1: Tables, sh1: Shape, m2: Tables, sh2: Shape, data1: map<nat, seq<Byte>>, root: nat, d: nat,
                   v: nat, f: nat, l: Leaf)
    requires ForestOk(m1, sh1) && UserRoot(sh1, root) && UserRoot(sh1, d) && root != d && Evolves(m1, sh1, m2, sh2, d)
    requires Remapped(m1, m2, d, v, 1, f, l.perm) && Lookup(m1, root, 4, v) == Some(l) && v < USERPAGES
    requires l.frame in data1 && f !in data1
    ensures CopyOf(m2, data1[f := data1[l.frame]], root, d, v)
  {
    hide Lookup, Evolves, ForestOk;
    EvolvesOthers(m1, sh1, m2, sh2, d);
  }

  lemma SpaceNext(m1: Tables, m2: Tables, d: nat, v: nat, n: nat, f: nat, perm: nat)
    requires SpaceIs(m1, d, v) && Remapped(m1, m2, d, v, n, f, perm) && n <= 1 && v < USERPAGES
    ensures SpaceIs(m2, d, v + n)
  {
    hide Lookup;
  }

  /** Copying goes on after n more pages (one or none) were added to the child. */
  lemma CopyNext(a: Memory, b: Memory, c: Memory, root: nat, d: nat, v: nat, n: nat, f: nat, perm: nat)
    requires Copying(a, b, root, d, v) && root != d && ForestOk(b.tables, b.sh) && v < USERPAGES && n <= 1
    requires f !in b.home && f !in b.data
    requires Evolves(b.tables, b.sh, c.tables, c.sh, d) && Remapped(b.tables, c.tables, d, v, n, f, perm)
    requires c.home == if n == 1 then b.home[f := Home(d, v)] else b.home
    requires SubData(c.data, b.data) && (n == 1 ==> CopyOf(c.tables, c.data, root, d, v))
    ensures Copying(a, c, root, d, v + n)
  {
    hide Lookup, Evolves, ForestOk, CopyOf, SpaceIs, KernelShared, Remapped;
    EvolvesChain(a.tables, a.sh, b.tables, b.sh, c.tables, c.sh, d);
    RootStays(b.tables, b.sh, c.tables, c.sh, d);
    OtherRootStays(b.tables, b.sh, c.tables, c.sh, d, root);
    SpaceNext(b.tables, c.tables, d, v, n, f, perm);
    KernelKept(b.tables, b.sh, c.tables, c.sh, d, v, n, f, perm);
    forall w: nat | w < v
      ensures CopyOf(c.tables, c.data, root, d, w)
    {
      CopyKept(b.tables, b.sh, c.tables, c.sh, b.data, c.data, root, d, v, w, n, f, perm);
    }
  }

  lemma OtherRootStays(m0: Tables, sh0: Shape, m1: Tables, sh1: Shape, o: nat, root: nat)
    requires Evolves(m0, sh0, m1, sh1, o) && UserRoot(sh0, root)
    ensures UserRoot(sh1, root)
  {
  }

  /** walkpgdir without alloc, for a page that is present: neither panic of copyuvm can happen. */
  method ReadEntry(mmu: Mmu, root: nat, v: nat) returns (e: Pte)
    requires Ok(mmu) && UserRoot(mmu.sh, root) && v < USERPAGES && Lookup(mmu.tables, root, 4, v).Some?
    modifies mmu`tables, mmu`free, mmu`sh
    ensures mmu.tables == old(mmu.tables) && mmu.free == old(mmu.free) && mmu.sh == old(mmu.sh)
    ensures Lookup(mmu.tables, root, 4, v) == Some(Leaf(e.frame, e.perm))
  {
    hide Lookup, WalkTo, ForestOk, PagesOk, Ptx, Evolves;
    PageEntry(mmu.tables, mmu.sh, root, v);
    UserIndex(v);
    assert Through(mmu.sh.pos[root], v);
    mmu.RootTable(root);
    var pte := mmu.Walk(root, v, false, 4, 1);
    assert pte.Some?;
    e := mmu.tables[pte.value][Ptx(v, 1)];
    assert e.present;
  }

  /** One turn of copyuvm's loop. */
  method CopyPage(mmu: Mmu, root: nat, d: nat, v: nat, ghost a: Memory) returns (ok: bool, ghost held: nat)
    requires Ok(mmu) && Copying(a, Now(mmu), root, d, v) && v < USERPAGES && Lookup(a.tables, root, 4, v).Some?
    modifies mmu
    ensures Ok(mmu) && mmu.Frames() == old(mmu.Frames())
    ensures Copying(a, Now(mmu), root, d, if ok then v + 1 else v)
    ensures Evolves(old(mmu.tables), old(mmu.sh), mmu.tables, mmu.sh, d)
    ensures ok ==> Places(mmu.sh, d) == Places(old(mmu.sh), d) + Path(v) && |mmu.data| == old(|mmu.data|) + 1
    ensures !ok ==> RanOut(old(mmu.sh), mmu.sh, d, v, held) && |mmu.free| == held && mmu.data == old(mmu.data)
  {
    hide Ok, Copying, Lookup, ForestOk, PagesOk, Evolves, CopyOf;
    hide Remapped, SubData, Places, Path, Elems, Mmu.Frames, UserRoot;
    Unmoved(mmu.tables, mmu.sh, d);
    NextPage(mmu, a, root, d, v);
    OkKeys(mmu);
    var e := ReadEntry(mmu, root, v);
    var mem := TakeFrame(mmu);
    if mem.None? {
      return false, 0;
    }
    ok := PlaceCopy(mmu, root, d, v, e, mem.value, a);
    held := 1;
    if !ok {
      ReturnFrame(mmu, mem.value);
    }
  }

  /** memmove and mappages: frame f, just taken, becomes the child's page v. */
  method PlaceCopy(mmu: Mmu, root: nat, d: nat, v: nat, e: Pte, f: nat, ghost a: Memory) returns (ok: bool)
    requires Ok(mmu) && Copying(a, Now(mmu), root, d, v) && v < USERPAGES && root != d
    requires UserRoot(mmu.sh, root) && UserRoot(mmu.sh, d) && Lookup(mmu.tables, d, 4, v) == None
    requires Lookup(mmu.tables, root, 4, v) == Some(Leaf(e.frame, e.perm)) && e.frame in mmu.data
    requires f !in mmu.free && f !in mmu.tables && f !in mmu.data && f != 0
    modifies mmu
    ensures Ok(mmu) && mmu.Frames() == old(mmu.Frames()) + if ok then {f} else {}
    ensures Copying(a, Now(mmu), root, d, if ok then v + 1 else v)
    ensures Evolves(old(mmu.tables), old(mmu.sh), mmu.tables, mmu.sh, d)
    ensures ok ==> Places(mmu.sh, d) == Places(old(mmu.sh), d) + Path(v) && |mmu.data| == old(|mmu.data|) + 1
    ensures !ok ==> Places(mmu.sh, d) < Places(old(mmu.sh), d) + Path(v) && mmu.data == old(mmu.data)
    ensures !ok ==> mmu.free == [] && f !in mmu.tables
  {
    hide Ok, Copying, Lookup, ForestOk, PagesOk, Evolves, CopyOf;
    hide Remapped, SubData, Places, Path, Elems, Mmu.Frames, UserRoot;
    ghost var b := Now(mmu);
    OkKeys(mmu);
    ok := AddPage(mmu, d, v, f, mmu.data[e.frame], e.perm);
    AddedData(b.data, mmu.data, f, b.data[e.frame], ok);
    if ok {
      PageCopied(b.tables, b.sh, mmu.tables, mmu.sh, b.data, root, d, v, f, Leaf(e.frame, e.perm));
    }
    CopyNext(a, b, Now(mmu), root, d, v, if ok then 1 else 0, f, e.perm);
  }

  lemma AddedData(d1: map<nat, seq<Byte>>, d2: map<nat, seq<Byte>>, f: nat, c: seq<Byte>, ok: bool)
    requires d2 == (if ok then d1[f := c] else d1) && f !in d1
    ensures SubData(d2, d1)
  {
  }

  /** copyuvm's way out: freevm(d, sz). */
  method Abandon(mmu: Mmu, root: nat, d: nat, sz: nat, v: nat, ghost a: Memory)
    requires Ok(mmu) && Copying(a, Now(mmu), root, d, v) && v <= Pages(sz) <= USERPAGES
    requires a.home.Keys == a.data.Keys && PagesOk(a.tables, a.sh, a.home)
    modifies mmu
    ensures Ok(mmu) && mmu.Frames() == old(mmu.Frames()) && Restored(a, Now(mmu))
  {
    hide Ok, Copying, Since, PagesOk, SpaceIs, UserRoot, Restored, Pages;
    CopyIsNew(a, Now(mmu), root, d, v);
    Discard(mmu, d, sz, v, a);
  }

  lemma CopyIsNew(a: Memory, b: Memory, root: nat, d: nat, v: nat)
    requires PagesOk(a.tables, a.sh, a.home) && Copying(a, b, root, d, v)
    ensures Since(a, b, d) && UserRoot(b.sh, d) && SpaceIs(b.tables, d, v)
  {
    hide ForestOk, PagesOk, Evolves, Lookup, SpaceIs, KernelShared, CopyOf;
  }

  lemma CopyRoot(a: Memory, b: Memory, root: nat, d: nat, v: nat)
    requires Copying(a, b, root, d, v)
    ensures UserRoot(b.sh, d) && SpaceIs(b.tables, d, v) && d != a.sh.kroot
  {
    hide Lookup, NodeOk, OnePerPlace;
  }

  /**
   copyuvm: a child with the parent's pages, copied into frames of their own. The
   parent and every other address space are as before. If memory runs out the
   result is None and every frame taken is back on the free list. Memory suffices if
   and only if there is a frame for the top level, for each page and for each lower
   table, one for every 512, 2^18 and 2^27 pages or part of so many.
   */
  method CopyUvm(mmu: Mmu, kpgdir: nat, root: nat, sz: nat) returns (d: Option<nat>)
    requires Ok(mmu) && kpgdir == mmu.sh.kroot && UserRoot(mmu.sh, root) && SpaceIs(mmu.tables, root, Pages(sz))
    requires sz < USERMAX
    modifies mmu
    ensures Ok(mmu) && mmu.Frames() == old(mmu.Frames())
    ensures d.Some? ==> && Copying(old(Now(mmu)), Now(mmu), root, d.value, Pages(sz))
                        && OthersSame(old(mmu.tables), mmu.tables, old(mmu.sh), d.value)
    ensures d.None? ==> Restored(old(Now(mmu)), Now(mmu)) && Elems(mmu.free) == Elems(old(mmu.free))
    ensures d.Some? <==> |old(mmu.free)| >= 1 + EmptyCost(Pages(sz))
    ensures d.Some? ==> |mmu.free| + 1 + EmptyCost(Pages(sz)) == |old(mmu.free)|
  {
    hide Ok, Copying, Lookup, ForestOk, PagesOk, Evolves, KernelShared, OthersSame, Places, Cost, EmptyCost, Pages,
         UserRoot, SpaceIs, Mmu.Frames, Elems;
    ghost var a, free0 := Now(mmu), mmu.free;
    OkKeys(mmu);
    OkFree(mmu);
    d := SetupKvm(mmu, kpgdir);
    if d.None? {
      return;
    }
    CopyStart(a, Now(mmu), root, d.value);
    Census(mmu);
    EmptyCosts(mmu.sh, d.value, Pages(sz));
    var ok, v := CopyPages(mmu, root, d.value, sz, a);
    if !ok {
      Abandon(mmu, root, d.value, sz, v, a);
      OkFree(mmu);
      d := None;
      return;
    }
    CopyRoot(a, Now(mmu), root, d.value, v);
    CopyEvolves(a, Now(mmu), root, d.value, v);
  }

  /** One turn of the loop, with what it takes from the frames that there were after setupkvm. */
  method CopyTurn(mmu: Mmu, root: nat, d: nat, v: nat, ghost n: nat, ghost a: Memory,
                  ghost m1: Tables, ghost sh1: Shape, ghost free1: seq<nat>) returns (ok: bool)
    requires Ok(mmu) && Copying(a, Now(mmu), root, d, v) && SpaceIs(a.tables, root, n) && v < n <= USERPAGES
    requires ForestOk(m1, sh1) && UserRoot(sh1, d) && Evolves(m1, sh1, mmu.tables, mmu.sh, d)
    requires Built(sh1, mmu.sh, d, 0, v) && |mmu.data| == |a.data| + v
    requires |mmu.Frames()| == |free1| + |m1.Keys| + |a.data.Keys|
    modifies mmu
    ensures Ok(mmu) && mmu.Frames() == old(mmu.Frames()) && Copying(a, Now(mmu), root, d, if ok then v + 1 else v)
    ensures ok ==>
        Evolves(m1, sh1, mmu.tables, mmu.sh, d) && Built(sh1, mmu.sh, d, 0, v + 1) && |mmu.data| == |a.data| + v + 1
    ensures !ok ==> |free1| < Cost(sh1, d, 0, n)
  {
    hide Ok, Copying, Lookup, ForestOk, Evolves, Places, Path;
    hide Built, RanOut, Cost, UserRoot, SpaceIs, Mmu.Frames, Elems;
    ghost var m2, sh2 := mmu.tables, mmu.sh;
    ParentPage(a.tables, root, n, v);
    ghost var held: nat;
    ok, held := CopyPage(mmu, root, d, v, a);
    EvolvesChain(m1, sh1, m2, sh2, mmu.tables, mmu.sh, d);
    if ok {
      BuiltNext(sh1, sh2, mmu.sh, d, 0, v);
    } else {
      Short(mmu, sh2, m1, sh1, a.data, free1, d, 0, v, n, held);
    }
  }

  /** copyuvm's loop; v pages were copied. */
  method CopyPages(mmu: Mmu, root: nat, d: nat, sz: nat, ghost a: Memory) returns (ok: bool, v: nat)
    requires Ok(mmu) && Copying(a, Now(mmu), root, d, 0) && mmu.data == a.data && UserRoot(mmu.sh, d)
    requires SpaceIs(a.tables, root, Pages(sz)) && sz < USERMAX
    modifies mmu
    ensures Ok(mmu) && mmu.Frames() == old(mmu.Frames()) && v <= Pages(sz) <= USERPAGES
    ensures Copying(a, Now(mmu), root, d, v) && (ok ==> v == Pages(sz))
    ensures ok <==> |old(mmu.free)| >= Cost(old(mmu.sh), d, 0, Pages(sz))
    ensures ok ==> |mmu.free| + Cost(old(mmu.sh), d, 0, Pages(sz)) == |old(mmu.free)|
  {
    hide Ok, Copying, Lookup, ForestOk, PagesOk, Evolves, Places, Path;
    hide Built, RanOut, Cost, Pages, UserRoot, SpaceIs, Mmu.Frames, Elems;
    ghost var m1, sh1, free1 := mmu.tables, mmu.sh, mmu.free;
    OkKeys(mmu);
    Census(mmu);
    Unmoved(m1, sh1, d);
    BuiltNone(sh1, d, 0);
    PagesAre(sz, 0);
    v := 0;
    while v * PGSIZE < sz
      invariant v <= Pages(sz) && Ok(mmu) && mmu.Frames() == old(mmu.Frames())
      invariant Copying(a, Now(mmu), root, d, v) && Evolves(m1, sh1, mmu.tables, mmu.sh, d)
      invariant Built(sh1, mmu.sh, d, 0, v) && |mmu.data| == |a.data| + v
    {
      PagesAre(sz, v);
      ok := CopyTurn(mmu, root, d, v, Pages(sz), a, m1, sh1, free1);
      if !ok {
        return;
      }
      v := v + 1;
    }
    PagesAre(sz, v);
    Enough(mmu, m1, sh1, a.data, free1, d, 0, v);
    ok := true;
  }

  lemma ParentPage(m: Tables, root: nat, n: nat, v: nat)
    requires SpaceIs(m, root, n) && v < n <= USERPAGES
    ensures Lookup(m, root, 4, v).Some?
  {
  }

  lemma OkFree(mmu: Mmu)
    requires Ok(mmu)
    ensures Elems(mmu.free) == mmu.Frames() - mmu.tables.Keys - mmu.data.Keys
  {
    hide ForestOk, PagesOk;
  }

  lemma CopyEvolves(a: Memory, b: Memory, root: nat, d: nat, v: nat)
    requires Copying(a, b, root, d, v)
    ensures OthersSame(a.tables, b.tables, a.sh, d)
  {
    hide Lookup, Evolves, NodeOk, OnePerPlace;
    CopyRoot(a, b, root, d, v);
    EvolvesOthers(a.tables, a.sh, b.tables, b.sh, d);
  }
}
