/**
 User address spaces (kern/vm.c): allocuvm and deallocuvm over the frames of Vm.
 Sizes are in bytes and below 2^31.
 */
module AddressSpace {
  import opened Bytes
  import opened PageTable
  import opened PageTree
  import opened Vm
  import opened FrameCount
  import opened Basics

  const PERMWU: nat := 6  // PTE_W | PTE_U

  predicate UserRoot(sh: Shape, r: nat) {
    IsRoot(sh, r) && r !in sh.wide && r != sh.kroot
  }

  /** Page f is mapped where it says it is. */
  predicate AtHome(m: Tables, sh: Shape, home: map<nat, Home>, f: nat)
    requires f in home
  {
    var h := home[f];
    && UserRoot(sh, h.root) && h.vpn < USERPAGES
    && Lookup(m, h.root, 4, h.vpn).Some? && Lookup(m, h.root, 4, h.vpn).value.frame == f
  }

  /** What page v of address space r translates to is the page that lives there. */
  predicate Lives(m: Tables, home: map<nat, Home>, r: nat, v: nat) {
    var l := Lookup(m, r, 4, v);
    l.Some? ==> l.value.frame in home && home[l.value.frame] == Home(r, v)
  }

  /** User translations and user pages correspond one to one. */
  ghost predicate PagesOk(m: Tables, sh: Shape, home: map<nat, Home>) {
    && (forall f :: f in home ==> AtHome(m, sh, home, f))
    && forall r: nat, v: nat :: UserRoot(sh, r) && v < USERPAGES ==> Lives(m, home, r, v)
  }

  /** Exactly the pages below n are present. */
  ghost predicate SpaceIs(m: Tables, r: nat, n: nat) {
    forall v: nat :: v < USERPAGES ==> (Lookup(m, r, 4, v).Some? <==> v < n)
  }

  ghost predicate Ok(mmu: Mmu)
    reads mmu
  {
    && mmu.Valid() && PagesOk(mmu.tables, mmu.sh, mmu.home) && mmu.home.Keys == mmu.data.Keys
    && 0 !in mmu.Frames()
  }

  /** Address spaces other than o see the same pages. */
  ghost predicate OthersSame(m0: Tables, m1: Tables, sh: Shape, o: nat) {
    forall r: nat, v: nat :: IsRoot(sh, r) && r != o ==> Lookup(m1, r, 4, v) == Lookup(m0, r, 4, v)
  }

  lemma EvolvesOthers(m0: Tables, sh0: Shape, m1: Tables, sh1: Shape, o: nat)
    requires ForestOk(m0, sh0) && Evolves(m0, sh0, m1, sh1, o) && o != sh0.kroot
    ensures OthersSame(m0, m1, sh0, o)
  {
    hide Lookup, NodeOk, OnePerPlace;
    forall r: nat, v: nat | IsRoot(sh0, r) && r != o
      ensures Lookup(m1, r, 4, v) == Lookup(m0, r, 4, v)
    {
      LookupKeeps(m0, m1, sh0, r, r, 4, v);
    }
  }

  /** Growing o's tree makes no new address space. */
  lemma SameRoots(m0: Tables, sh0: Shape, m1: Tables, sh1: Shape, o: nat, r: nat)
    requires Evolves(m0, sh0, m1, sh1, o) && o in sh0.own && sh0.pos.Keys == sh0.own.Keys
    ensures UserRoot(sh1, r) <==> UserRoot(sh0, r)
  {
  }

  // ------------------------------------------------------ one page at a time

  lemma PageAdded(m0: Tables, sh0: Shape, m1: Tables, sh1: Shape, home: map<nat, Home>, root: nat, v: nat, f: nat,
                  perm: nat)
    requires ForestOk(m0, sh0) && PagesOk(m0, sh0, home) && Evolves(m0, sh0, m1, sh1, root)
    requires UserRoot(sh0, root) && v < USERPAGES && Lookup(m0, root, 4, v) == None && f !in home
    requires Remapped(m0, m1, root, v, 1, f, perm)
    ensures PagesOk(m1, sh1, home[f := Home(root, v)])
  {
    hide Lookup, NodeOk, OnePerPlace, Evolves;
    EvolvesOthers(m0, sh0, m1, sh1, root);
    var home' := home[f := Home(root, v)];
    assert Lookup(m1, root, 4, v) == Some(Leaf(f, perm));
    forall g | g in home'
      ensures AtHome(m1, sh1, home', g)
    {
      SameRoots(m0, sh0, m1, sh1, root, home'[g].root);
      if g != f {
        assert AtHome(m0, sh0, home, g);
      }
    }
    forall r: nat, w: nat | UserRoot(sh1, r) && w < USERPAGES
      ensures Lives(m1, home', r, w)
    {
      SameRoots(m0, sh0, m1, sh1, root, r);
      assert Lives(m0, home, r, w);
    }
  }

  lemma PageStays(m0: Tables, sh0: Shape, m1: Tables, sh1: Shape, home: map<nat, Home>, root: nat, v: nat, f: nat,
                  perm: nat)
    requires ForestOk(m0, sh0) && PagesOk(m0, sh0, home) && Evolves(m0, sh0, m1, sh1, root)
    requires UserRoot(sh0, root) && Remapped(m0, m1, root, v, 0, f, perm)
    ensures PagesOk(m1, sh1, home)
  {
    hide Lookup, NodeOk, OnePerPlace, Evolves;
    EvolvesOthers(m0, sh0, m1, sh1, root);
    forall g | g in home
      ensures AtHome(m1, sh1, home, g)
    {
      SameRoots(m0, sh0, m1, sh1, root, home[g].root);
      assert AtHome(m0, sh0, home, g);
    }
    forall r: nat, w: nat | UserRoot(sh1, r) && w < USERPAGES
      ensures Lives(m1, home, r, w)
    {
      SameRoots(m0, sh0, m1, sh1, root, r);
      assert Lives(m0, home, r, w);
    }
  }

  /** The page table part of mappages. */
  method MapPage(mmu: Mmu, root: nat, v: nat, f: nat, perm: nat) returns (ok: bool)
    requires mmu.Valid() && UserRoot(mmu.sh, root) && v < USERPAGES && Lookup(mmu.tables, root, 4, v) == None
    modifies mmu`tables, mmu`free, mmu`sh
    ensures mmu.Valid() && UserRoot(mmu.sh, root) && mmu.sh.kroot == old(mmu.sh.kroot)
    ensures Evolves(old(mmu.tables), old(mmu.sh), mmu.tables, mmu.sh, root) && mmu.Frames() == old(mmu.Frames())
    ensures Remapped(old(mmu.tables), mmu.tables, root, v, if ok then 1 else 0, f, perm)
    ensures !ok ==> mmu.free == []
    ensures if ok then Places(mmu.sh, root) == Places(old(mmu.sh), root) + Path(v)
            else Places(mmu.sh, root) < Places(old(mmu.sh), root) + Path(v)
  {
    hide Lookup, ForestOk, Evolves, Remapped, Places, Path, WalkTo, Mmu.Frames;
    ghost var m0, sh0 := mmu.tables, mmu.sh;
    ok := mmu.MapLeaf(root, v, f, perm, 1);
    RootStays(m0, sh0, mmu.tables, mmu.sh, root);
    WalkAdds(m0, sh0, mmu.tables, mmu.sh, root, v);
  }

  /** mappages for one page of an address space: frame f, just taken from the free list, becomes page v. */
  method AddPage(mmu: Mmu, root: nat, v: nat, f: nat, content: seq<Byte>, perm: nat) returns (ok: bool)
    requires Ok(mmu) && UserRoot(mmu.sh, root) && v < USERPAGES && Lookup(mmu.tables, root, 4, v) == None
    requires f !in mmu.free && f !in mmu.tables && f !in mmu.data && f != 0
    modifies mmu
    ensures Ok(mmu) && UserRoot(mmu.sh, root) && mmu.sh.kroot == old(mmu.sh.kroot)
    ensures Evolves(old(mmu.tables), old(mmu.sh), mmu.tables, mmu.sh, root)
    ensures mmu.Frames() == old(mmu.Frames()) + if ok then {f} else {}
    ensures Remapped(old(mmu.tables), mmu.tables, root, v, if ok then 1 else 0, f, perm)
    ensures ok ==> mmu.data == old(mmu.data)[f := content] && mmu.home == old(mmu.home)[f := Home(root, v)]
    ensures !ok ==> mmu.free == [] && mmu.data == old(mmu.data) && mmu.home == old(mmu.home) && f !in mmu.tables
    ensures if ok then Places(mmu.sh, root) == Places(old(mmu.sh), root) + Path(v)
            else Places(mmu.sh, root) < Places(old(mmu.sh), root) + Path(v)
  {
    hide Lookup, ForestOk, Evolves, PagesOk, Remapped, Places, Path, Elems;
    ghost var m0, sh0 := mmu.tables, mmu.sh;
    ok := MapPage(mmu, root, v, f, perm);
    assert f !in mmu.tables && f !in mmu.free;
    if ok {
      PageAdded(m0, sh0, mmu.tables, mmu.sh, mmu.home, root, v, f, perm);
      mmu.data := mmu.data[f := content];
      mmu.home := mmu.home[f := Home(root, v)];
    } else {
      PageStays(m0, sh0, mmu.tables, mmu.sh, mmu.home, root, v, f, perm);
    }
  }

  /** A user tree has no large pages: a page whose 4K table is missing is not mapped. */
  lemma {:induction false} NoTableNoPage(m: Tables, sh: Shape, t: nat, v: nat)
    requires ForestOk(m, sh) && t in m && sh.own[t] !in sh.wide && Through(sh.pos[t], v)
    requires UserPart(sh.pos[t], Ptx(v, sh.pos[t].level)) && WalkTo(m, t, sh.pos[t].level, v, 1) == None
    ensures Lookup(m, t, sh.pos[t].level, v) == None
    decreases sh.pos[t].level
  {
    hide Ptx, UpOk, OnePerPlace;
    var l, i := sh.pos[t], Ptx(v, sh.pos[t].level);
    assert TableOk(sh.pos, l, m[t]) && NodeOk(m, sh, t) && EntryOwn(sh, sh.own[t], l, i, m[t][i]);
    if m[t][i].present {
      StepDown(m, sh, t, v);
      NoTableNoPage(m, sh, m[t][i].frame, v);
    }
  }

  /** Pages [lo, hi) of root are gone, everything else in root is as it was. */
  ghost predicate Unmapped(m0: Tables, m1: Tables, root: nat, lo: nat, hi: nat) {
    forall v: nat :: v < USERPAGES ==> Lookup(m1, root, 4, v) == if lo <= v < hi then None else Lookup(m0, root, 4, v)
  }

  predicate Within(h: Home, root: nat, lo: nat, hi: nat) {
    h.root == root && lo <= h.vpn < hi
  }

  /** The pages that lived in [lo, hi) of root, and only those, are gone. */
  predicate Dropped(home0: map<nat, Home>, home1: map<nat, Home>, root: nat, lo: nat, hi: nat) {
    && (forall f :: f in home1 ==> f in home0 && home1[f] == home0[f] && !Within(home0[f], root, lo, hi))
    && forall f :: f in home0 && !Within(home0[f], root, lo, hi) ==> f in home1
  }

  lemma PageDropped(m0: Tables, m1: Tables, sh: Shape, home: map<nat, Home>, root: nat, v: nat, f: nat)
    requires ForestOk(m0, sh) && PagesOk(m0, sh, home) && Evolves(m0, sh, m1, sh, root)
    requires UserRoot(sh, root) && v < USERPAGES && f in home && home[f] == Home(root, v)
    requires Unmapped(m0, m1, root, v, v + 1)
    ensures PagesOk(m1, sh, home - {f}) && Dropped(home, home - {f}, root, v, v + 1)
  {
    hide Lookup, NodeOk, OnePerPlace, Evolves;
    EvolvesOthers(m0, sh, m1, sh, root);
    var home' := home - {f};
    assert AtHome(m0, sh, home, f);
    forall g | g in home'
      ensures AtHome(m1, sh, home', g)
    {
      assert AtHome(m0, sh, home, g);
    }
    forall r: nat, w: nat | UserRoot(sh, r) && w < USERPAGES
      ensures Lives(m1, home', r, w)
    {
      assert Lives(m0, home, r, w);
    }
    forall g | g in home && Within(home[g], root, v, v + 1)
      ensures g == f
    {
      assert AtHome(m0, sh, home, g);
    }
  }

  lemma ClearedPage(m: Tables, sh: Shape, root: nat, v: nat, u: nat)
    requires ForestOk(m, sh) && UserRoot(sh, root) && v < USERPAGES && WalkTo(m, root, 4, v, 1) == Some(u)
    ensures u in m && |m[u]| == NPT && u in sh.own && sh.own[u] == root
    ensures m[u][Ptx(v, 1)].present <==> Lookup(m, root, 4, v).Some?
    ensures m[u][Ptx(v, 1)].present ==> Lookup(m, root, 4, v).value == Leaf(m[u][Ptx(v, 1)].frame, m[u][Ptx(v, 1)].perm)
    ensures var r := WithEntry(m, u, Ptx(v, 1), EMPTY);
            ForestOk(r, sh) && Unmapped(m, r, root, v, v + 1) && Evolves(m, sh, r, sh, root)
  {
    hide NodeOk, OnePerPlace;
    UserIndex(v);
    assert Through(sh.pos[root], v);
    WalkOwn(m, sh, root, v, 1);
    WalkPlace(m, sh.pos, root, v, 1);
    assert TableOk(sh.pos, sh.pos[u], m[u]);
    WrittenForest(m, sh, u, Ptx(v, 1), EMPTY);
    ClearUnmaps(m, sh.pos, root, v, u);
    Unmoved(m, sh, root);
    EvolvesWrite(m, sh, m, sh, u, Ptx(v, 1), EMPTY, root);
  }

  /** One turn of deallocuvm's loop. Its panic on a zero address cannot happen. */
  method DropPage(mmu: Mmu, root: nat, v: nat)
    requires Ok(mmu) && UserRoot(mmu.sh, root) && v < USERPAGES
    modifies mmu
    ensures Ok(mmu) && mmu.sh == old(mmu.sh) && mmu.Frames() == old(mmu.Frames())
    ensures Evolves(old(mmu.tables), mmu.sh, mmu.tables, mmu.sh, root) && mmu.tables.Keys == old(mmu.tables.Keys)
    ensures Unmapped(old(mmu.tables), mmu.tables, root, v, v + 1)
    ensures Dropped(old(mmu.home), mmu.home, root, v, v + 1)
    ensures SubData(old(mmu.data), mmu.data)
  {
    hide Lookup, WalkTo, ForestOk, Ptx, Evolves, PagesOk, Unmapped, Dropped, Mmu.Frames, Through, Extends, SameTrans;
    ghost var m, sh, home := mmu.tables, mmu.sh, mmu.home;
    RootWalk(sh, root, v);
    mmu.RootTable(root);
    var u := mmu.Walk(root, v, false, 4, 1);
    Unmoved(m, sh, root);
    if u.None? {
      NoTableNoPage(m, sh, root, v);
      NothingThere(m, sh, home, root, v);
      return;
    }
    ClearedPage(m, sh, root, v, u.value);
    if !mmu.tables[u.value][Ptx(v, 1)].present {
      NothingThere(m, sh, home, root, v);
      return;
    }
    ReleasePage(mmu, root, v, u.value);
  }

  /** kfree the page and clear its entry. */
  method ReleasePage(mmu: Mmu, root: nat, v: nat, u: nat)
    requires Ok(mmu) && UserRoot(mmu.sh, root) && v < USERPAGES && WalkTo(mmu.tables, root, 4, v, 1) == Some(u)
    requires Lookup(mmu.tables, root, 4, v).Some?
    modifies mmu`tables, mmu`free, mmu`data, mmu`home
    ensures Ok(mmu) && mmu.Frames() == old(mmu.Frames())
    ensures Evolves(old(mmu.tables), mmu.sh, mmu.tables, mmu.sh, root) && mmu.tables.Keys == old(mmu.tables.Keys)
    ensures Unmapped(old(mmu.tables), mmu.tables, root, v, v + 1)
    ensures Dropped(old(mmu.home), mmu.home, root, v, v + 1)
    ensures SubData(old(mmu.data), mmu.data)
  {
    hide Lookup, WalkTo, ForestOk, Ptx, Evolves, PagesOk, Unmapped, Dropped;
    ghost var m, sh, home := mmu.tables, mmu.sh, mmu.home;
    ClearedPage(m, sh, root, v, u);
    var f := mmu.tables[u][Ptx(v, 1)].frame;
    LivesThere(m, sh, home, root, v);
    assert f in mmu.Frames();
    assert f != 0;
    PageDropped(m, WithEntry(m, u, Ptx(v, 1), EMPTY), sh, home, root, v, f);
    mmu.Kfree(f);
    mmu.data := mmu.data - {f};
    mmu.home := mmu.home - {f};
    mmu.tables := WithEntry(mmu.tables, u, Ptx(v, 1), EMPTY);
  }

  lemma LivesThere(m: Tables, sh: Shape, home: map<nat, Home>, root: nat, v: nat)
    requires PagesOk(m, sh, home) && UserRoot(sh, root) && v < USERPAGES
    ensures Lives(m, home, root, v)
  {
  }

  lemma NothingThere(m: Tables, sh: Shape, home: map<nat, Home>, root: nat, v: nat)
    requires PagesOk(m, sh, home) && Lookup(m, root, 4, v) == None
    ensures Unmapped(m, m, root, v, v + 1) && Dropped(home, home, root, v, v + 1)
  {
    hide Lookup;
    forall f | f in home
      ensures !Within(home[f], root, v, v + 1)
    {
      assert AtHome(m, sh, home, f);
    }
  }

  // ------------------------------------------------------ growing, shrinking

  /** Pages [lo, hi) of root were removed and nothing else happened. */
  ghost predicate Cut(m0: Tables, m1: Tables, sh: Shape, home0: map<nat, Home>, home1: map<nat, Home>, root: nat,
                      lo: nat, hi: nat) {
    Unmapped(m0, m1, root, lo, hi) && Dropped(home0, home1, root, lo, hi) && Evolves(m0, sh, m1, sh, root)
  }

  lemma NoCut(m: Tables, sh: Shape, home: map<nat, Home>, root: nat, lo: nat)
    ensures Cut(m, m, sh, home, home, root, lo, lo)
  {
    hide Lookup;
    Unmoved(m, sh, root);
  }

  lemma CutNext(m0: Tables, m1: Tables, m2: Tables, sh: Shape, home0: map<nat, Home>, home1: map<nat, Home>,
                home2: map<nat, Home>, root: nat, lo: nat, k: nat)
    requires lo <= k && Cut(m0, m1, sh, home0, home1, root, lo, k) && Cut(m1, m2, sh, home1, home2, root, k, k + 1)
    ensures Cut(m0, m2, sh, home0, home2, root, lo, k + 1)
  {
    hide Lookup, Evolves;
    EvolvesChain(m0, sh, m1, sh, m2, sh, root);
  }

  /** deallocuvm: shrink root from oldsz to newsz bytes; pages already missing are skipped. */
  method DeallocUvm(mmu: Mmu, root: nat, oldsz: nat, newsz: nat) returns (r: nat)
    requires Ok(mmu) && UserRoot(mmu.sh, root) && Pages(oldsz) <= USERPAGES
    modifies mmu
    ensures r == if newsz < oldsz then newsz else oldsz
    ensures Ok(mmu) && mmu.sh == old(mmu.sh) && mmu.Frames() == old(mmu.Frames())
    ensures mmu.tables.Keys == old(mmu.tables.Keys)
    ensures Cut(old(mmu.tables), mmu.tables, mmu.sh, old(mmu.home), mmu.home, root, Pages(newsz),
                if newsz < oldsz then Pages(oldsz) else Pages(newsz))
    ensures SubData(old(mmu.data), mmu.data)
  {
    hide Ok, Cut;
    ghost var m0, sh, home0, data0 := mmu.tables, mmu.sh, mmu.home, mmu.data;
    NoCut(m0, sh, home0, root, Pages(newsz));
    if newsz >= oldsz {
      return oldsz;
    }
    var v := Pages(newsz);
    while v * PGSIZE < oldsz
      invariant Pages(newsz) <= v <= Pages(oldsz)
      invariant Ok(mmu) && mmu.sh == sh && mmu.Frames() == old(mmu.Frames()) && mmu.tables.Keys == old(mmu.tables.Keys)
      invariant Cut(m0, mmu.tables, sh, home0, mmu.home, root, Pages(newsz), v)
      invariant SubData(data0, mmu.data)
    {
      ghost var m1, home1 := mmu.tables, mmu.home;
      DropPage(mmu, root, v);
      assert Cut(m1, mmu.tables, sh, home1, mmu.home, root, v,
          v + 1) by { CutIs(m1, mmu.tables, sh, home1, mmu.home, root, v); }
      CutNext(m0, m1, mmu.tables, sh, home0, home1, mmu.home, root, Pages(newsz), v);
      v := v + 1;
    }
    r := newsz;
  }

  lemma CutIs(m0: Tables, m1: Tables, sh: Shape, home0: map<nat, Home>, home1: map<nat, Home>, root: nat, v: nat)
    requires Unmapped(m0, m1, root, v, v + 1) && Dropped(home0, home1, root, v, v + 1) && Evolves(m0, sh, m1, sh, root)
    ensures Cut(m0, m1, sh, home0, home1, root, v, v + 1)
  {
  }

  /** The pages of d1 are pages of d0, with the same contents. */
  predicate SubData(d0: map<nat, seq<Byte>>, d1: map<nat, seq<Byte>>) {
    forall f :: f in d1 ==> f in d0 && d1[f] == d0[f]
  }

  const ZEROPAGE: seq<Byte> := Zeros(4096)

  /** Page w of root is present, writable by the user and holds zeros. */
  predicate FreshPage(m: Tables, data: map<nat, seq<Byte>>, root: nat, w: nat) {
    var l := Lookup(m, root, 4, w);
    l.Some? && l.value.perm == PERMWU && l.value.frame in data && data[l.value.frame] == ZEROPAGE
  }

  /** Zeroed pages [lo, hi) were added to root and nothing else happened. */
  ghost predicate Grown(m0: Tables, m1: Tables, home0: map<nat, Home>, home1: map<nat, Home>,
                        data0: map<nat, seq<Byte>>, data1: map<nat, seq<Byte>>, root: nat, lo: nat, hi: nat) {
    && (forall w: nat :: w < USERPAGES && !(lo <= w < hi) ==> Lookup(m1, root, 4, w) == Lookup(m0, root, 4, w))
    && (forall w: nat :: lo <= w < hi ==> FreshPage(m1, data1, root, w))
    && (forall f :: f in home0 ==> f in home1 && home1[f] == home0[f])
    && (forall f :: f in home1 && f !in home0 ==> Within(home1[f], root, lo, hi))
    && SubData(data1, data0)
  }

  lemma GrownNext(m0: Tables, m1: Tables, m2: Tables, home0: map<nat, Home>, home1: map<nat, Home>,
                  data0: map<nat, seq<Byte>>, data1: map<nat, seq<Byte>>, root: nat, lo: nat, v: nat, f: nat)
    requires lo <= v < USERPAGES && Grown(m0, m1, home0, home1, data0, data1, root, lo, v)
    requires Remapped(m1, m2, root, v, 1, f, PERMWU) && f !in home1 && f !in data1
    ensures Grown(m0, m2, home0, home1[f := Home(root, v)], data0, data1[f := ZEROPAGE], root, lo, v + 1)
  {
    hide Lookup;
    var data2 := data1[f := ZEROPAGE];
    forall w: nat | lo <= w < v + 1
      ensures FreshPage(m2, data2, root, w)
    {
      if w < v {
        assert FreshPage(m1, data1, root, w);
      }
    }
  }

  /** Cutting the added pages off again restores root, its pages and their contents. */
  lemma GrowthUndone(m0: Tables, m1: Tables, m2: Tables, sh0: Shape, sh1: Shape,
                     home0: map<nat, Home>, home1: map<nat, Home>,
                     home2: map<nat, Home>, data0: map<nat, seq<Byte>>, data1: map<nat, seq<Byte>>,
                     data2: map<nat, seq<Byte>>, root: nat, lo: nat, v: nat, hi: nat)
    requires PagesOk(m0, sh0, home0) && SpaceIs(m0, root, lo) && lo <= v <= hi
    requires Grown(m0, m1, home0, home1, data0, data1, root, lo, v) && Cut(m1, m2, sh1, home1, home2, root, lo, hi)
    requires home0.Keys == data0.Keys && home2.Keys == data2.Keys && SubData(data1, data2)
    ensures home2 == home0 && data2 == data0 && Unmapped(m0, m2, root, 0, 0)
  {
    hide Lookup, Evolves;
    forall f | f in home0
      ensures f in home2 && home2[f] == home0[f]
    {
      assert AtHome(m0, sh0, home0, f);
    }
    forall f | f in home2
      ensures f in home0
    {
    }
  }

  lemma SpaceGrown(m0: Tables, m1: Tables, home0: map<nat, Home>, home1: map<nat, Home>,
                   data0: map<nat, seq<Byte>>, data1: map<nat, seq<Byte>>, root: nat, lo: nat, hi: nat)
    requires SpaceIs(m0, root, lo) && lo <= hi && Grown(m0, m1, home0, home1, data0, data1, root, lo, hi)
    ensures SpaceIs(m1, root, hi)
  {
    hide Lookup;
    forall w: nat | w < USERPAGES
      ensures Lookup(m1, root, 4, w).Some? <==> w < hi
    {
      if lo <= w < hi {
        assert FreshPage(m1, data1, root, w);
      }
    }
  }

  const KERNBASE: nat := 0xffff_ffff_8000_0000
  const USERMAX: nat := 0x8000_0000  // sizes are returned as int

  lemma Untouched(m: Tables, root: nat)
    ensures Unmapped(m, m, root, 0, 0)
  {
  }

  lemma NotGrown(m: Tables, home: map<nat, Home>, data: map<nat, seq<Byte>>, root: nat, lo: nat)
    ensures Grown(m, m, home, home, data, data, root, lo, lo)
  {
    hide Lookup;
  }

  /** Nothing is mapped at v yet. */
  lemma NextIsFree(m0: Tables, m1: Tables, home0: map<nat, Home>, home1: map<nat, Home>,
                   data0: map<nat, seq<Byte>>, data1: map<nat, seq<Byte>>, root: nat, lo: nat, v: nat)
    requires SpaceIs(m0, root, lo) && lo <= v < USERPAGES && Grown(m0, m1, home0, home1, data0, data1, root, lo, v)
    ensures Lookup(m1, root, 4, v) == None
  {
  }

  /** Every frame is free, a table or a page. */
  lemma Census(mmu: Mmu)
    requires Ok(mmu)
    ensures |mmu.Frames()| == |mmu.free| + |mmu.tables.Keys| + |mmu.data.Keys|
  {
    FrameTotal(mmu);
  }

  /** Frames went into the pages and tables that were not there before, and nowhere else. */
  lemma Spent(mmu: Mmu, m0: Tables, sh0: Shape, data0: map<nat, seq<Byte>>, free0: seq<nat>, root: nat)
    requires Ok(mmu) && ForestOk(m0, sh0) && UserRoot(sh0, root) && Evolves(m0, sh0, mmu.tables, mmu.sh, root)
    requires |mmu.Frames()| == |free0| + |m0.Keys| + |data0.Keys|
    ensures |free0| + |data0| + |Places(sh0, root)| == |mmu.free| + |mmu.data| + |Places(mmu.sh, root)|
  {
    hide PagesOk, ForestOk, Evolves, Places;
    Census(mmu);
    TableCount(m0, sh0, mmu.tables, mmu.sh, root);
    assert |data0| == |data0.Keys| && |mmu.data| == |mmu.data.Keys|;
  }

  lemma PagesAre(size: nat, v: nat)
    ensures v * PGSIZE < size <==> v < Pages(size)
    ensures size < USERMAX ==> Pages(size) < USERPAGES
  {
  }

  lemma PagesGrow(a: nat, b: nat)
    requires a <= b
    ensures Pages(a) <= Pages(b)
  {
  }

  /** The free list hands out a frame with no other use. */
  method TakeFrame(mmu: Mmu) returns (f: Option<nat>)
    requires Ok(mmu)
    modifies mmu`free
    ensures Ok(mmu)
    ensures f.None? ==> mmu.free == old(mmu.free) == [] && mmu.Frames() == old(mmu.Frames())
    ensures f.Some? ==> |mmu.free| + 1 == |old(mmu.free)|
    ensures f.Some? ==> && f.value !in mmu.free && f.value !in mmu.tables && f.value !in mmu.data && f.value != 0
                        && f.value !in mmu.Frames() && mmu.Frames() + {f.value} == old(mmu.Frames())
  {
    hide ForestOk, PagesOk;
    f := mmu.Kalloc();
    if f.Some? {
      assert f.value in old(mmu.Frames());
    }
  }

  method ReturnFrame(mmu: Mmu, f: nat)
    requires Ok(mmu) && f !in mmu.free && f !in mmu.tables && f !in mmu.data && f != 0
    modifies mmu`free
    ensures Ok(mmu) && mmu.Frames() == old(mmu.Frames()) + {f} && |mmu.free| == |old(mmu.free)| + 1
  {
    hide ForestOk, PagesOk;
    mmu.Kfree(f);
  }

  /** One turn of allocuvm's loop, undoing the whole growth if it fails. */
  method GrowOne(mmu: Mmu, root: nat, oldsz: nat, newsz: nat, v: nat, ghost m0: Tables, ghost sh0: Shape,
                 ghost home0: map<nat, Home>, ghost data0: map<nat, seq<Byte>>) returns (ok: bool, ghost held: nat)
    requires Ok(mmu) && UserRoot(mmu.sh, root) && newsz < USERMAX && Pages(oldsz) <= v < Pages(newsz)
    requires PagesOk(m0, sh0, home0) && home0.Keys == data0.Keys && SpaceIs(m0, root, Pages(oldsz))
    requires Evolves(m0, sh0, mmu.tables, mmu.sh, root)
    requires Grown(m0, mmu.tables, home0, mmu.home, data0, mmu.data, root, Pages(oldsz), v)
    modifies mmu
    ensures Ok(mmu) && UserRoot(mmu.sh, root) && mmu.Frames() == old(mmu.Frames())
    ensures Evolves(m0, sh0, mmu.tables, mmu.sh, root)
    ensures ok ==> Grown(m0, mmu.tables, home0, mmu.home, data0, mmu.data, root, Pages(oldsz), v + 1)
    ensures !ok ==> mmu.home == home0 && mmu.data == data0 && Unmapped(m0, mmu.tables, root, 0, 0)
    ensures ok ==> |mmu.data| == old(|mmu.data|) + 1 && Places(mmu.sh, root) == Places(old(mmu.sh), root) + Path(v)
    ensures !ok ==> |mmu.free| == old(|mmu.data|) - |data0| + held && RanOut(old(mmu.sh), mmu.sh, root, v, held)
  {
    hide Ok, Grown, SpaceIs, PagesOk, Evolves, Unmapped, Mmu.Frames, Elems, Pages, UserRoot, Places, Path, RanOut;
    PagesAre(newsz, v);
    var mem: Option<nat>;
    ok, mem := TakePage(mmu, root, Pages(oldsz), v, m0, sh0, home0, data0);
    held := if mem.Some? then 1 else 0;
    if !ok {
      if mem.None? {
        UndoGrowth(mmu, root, oldsz, newsz, v, m0, sh0, home0, data0);
      } else {
        GiveUp(mmu, root, oldsz, newsz, v, mem.value, m0, sh0, home0, data0);
      }
    }
  }

  /** kalloc, memset and mappages for page v. On failure the page, if there is one, is still held. */
  method TakePage(mmu: Mmu, root: nat, lo: nat, v: nat, ghost m0: Tables, ghost sh0: Shape,
                  ghost home0: map<nat, Home>, ghost data0: map<nat, seq<Byte>>) returns (ok: bool, mem: Option<nat>)
    requires Ok(mmu) && UserRoot(mmu.sh, root) && lo <= v < USERPAGES && SpaceIs(m0, root, lo)
    requires Evolves(m0, sh0, mmu.tables, mmu.sh, root)
    requires Grown(m0, mmu.tables, home0, mmu.home, data0, mmu.data, root, lo, v)
    modifies mmu
    ensures Ok(mmu) && UserRoot(mmu.sh, root) && Evolves(m0, sh0, mmu.tables, mmu.sh, root)
    ensures Grown(m0, mmu.tables, home0, mmu.home, data0, mmu.data, root, lo, if ok then v + 1 else v)
    ensures ok ==> mmu.Frames() == old(mmu.Frames()) && |mmu.data| == old(|mmu.data|) + 1
    ensures ok ==> Places(mmu.sh, root) == Places(old(mmu.sh), root) + Path(v)
    ensures !ok ==> mmu.free == [] && mmu.data == old(mmu.data)
    ensures !ok ==> RanOut(old(mmu.sh), mmu.sh, root, v, if mem.Some? then 1 else 0)
    ensures !ok && mem.None? ==> mmu.Frames() == old(mmu.Frames())
    ensures !ok && mem.Some? ==> && mem.value !in mmu.Frames() && mem.value != 0
                                 && mmu.Frames() + {mem.value} == old(mmu.Frames())
  {
    hide Ok, Grown, SpaceIs, PagesOk, Evolves, Remapped, Lookup, Elems, Mmu.Frames, UserRoot, ForestOk, Places, Path;
    ghost var m1, sh1, home1, data1 := mmu.tables, mmu.sh, mmu.home, mmu.data;
    NextIsFree(m0, m1, home0, home1, data0, data1, root, lo, v);
    OkKeys(mmu);
    mem := TakeFrame(mmu);
    if mem.None? {
      return false, None;
    }
    ok := AddPage(mmu, root, v, mem.value, ZEROPAGE, PERMWU);
    EvolvesChain(m0, sh0, m1, sh1, mmu.tables, mmu.sh, root);
    if ok {
      GrownNext(m0, m1, mmu.tables, home0, home1, data0, data1, root, lo, v, mem.value);
    } else {
      GrownStill(m0, m1, mmu.tables, home0, home1, data0, data1, root, lo, v, mem.value);
    }
  }

  /** mappages failed: undo the growth and kfree the page. */
  method GiveUp(mmu: Mmu, root: nat, oldsz: nat, newsz: nat, v: nat, mem: nat, ghost m0: Tables, ghost sh0: Shape,
                ghost home0: map<nat, Home>, ghost data0: map<nat, seq<Byte>>)
    requires Ok(mmu) && UserRoot(mmu.sh, root) && newsz < USERMAX && Pages(oldsz) <= v < Pages(newsz)
    requires PagesOk(m0, sh0, home0) && home0.Keys == data0.Keys && SpaceIs(m0, root, Pages(oldsz))
    requires Evolves(m0, sh0, mmu.tables, mmu.sh, root)
    requires Grown(m0, mmu.tables, home0, mmu.home, data0, mmu.data, root, Pages(oldsz), v)
    requires mem !in mmu.Frames() && mem != 0
    modifies mmu
    ensures Ok(mmu) && UserRoot(mmu.sh, root) && mmu.Frames() == old(mmu.Frames()) + {mem}
    ensures Evolves(m0, sh0, mmu.tables, mmu.sh, root)
    ensures mmu.home == home0 && mmu.data == data0 && Unmapped(m0, mmu.tables, root, 0, 0)
    ensures |mmu.free| == |old(mmu.free)| + old(|mmu.data|) - |data0| + 1 && mmu.sh == old(mmu.sh)
  {
    hide Ok, Grown, SpaceIs, PagesOk, Evolves, Unmapped;
    UndoGrowth(mmu, root, oldsz, newsz, v, m0, sh0, home0, data0);
    assert mem !in mmu.Frames();
    ReturnFrame(mmu, mem);
  }

  lemma OkKeys(mmu: Mmu)
    requires Ok(mmu)
    ensures mmu.home.Keys == mmu.data.Keys && PagesOk(mmu.tables, mmu.sh, mmu.home) && ForestOk(mmu.tables, mmu.sh)
    ensures mmu.sh.pos.Keys == mmu.sh.own.Keys == mmu.tables.Keys
  {
  }

  lemma GrownStill(m0: Tables, m1: Tables, m2: Tables, home0: map<nat, Home>, home1: map<nat, Home>,
                   data0: map<nat, seq<Byte>>, data1: map<nat, seq<Byte>>, root: nat, lo: nat, v: nat, f: nat)
    requires lo <= v < USERPAGES && Grown(m0, m1, home0, home1, data0, data1, root, lo, v)
    requires Remapped(m1, m2, root, v, 0, f, PERMWU)
    ensures Grown(m0, m2, home0, home1, data0, data1, root, lo, v)
  {
    hide Lookup;
    forall w: nat | lo <= w < v
      ensures FreshPage(m2, data1, root, w)
    {
      assert FreshPage(m1, data1, root, w);
    }
  }

  /** allocuvm's way out: deallocuvm(pgdir, newsz, oldsz). */
  method UndoGrowth(mmu: Mmu, root: nat, oldsz: nat, newsz: nat, v: nat, ghost m0: Tables, ghost sh0: Shape,
                    ghost home0: map<nat, Home>, ghost data0: map<nat, seq<Byte>>)
    requires Ok(mmu) && UserRoot(mmu.sh, root) && newsz < USERMAX && Pages(oldsz) <= v < Pages(newsz)
    requires PagesOk(m0, sh0, home0) && home0.Keys == data0.Keys && SpaceIs(m0, root, Pages(oldsz))
    requires Evolves(m0, sh0, mmu.tables, mmu.sh, root)
    requires Grown(m0, mmu.tables, home0, mmu.home, data0, mmu.data, root, Pages(oldsz), v)
    modifies mmu
    ensures Ok(mmu) && mmu.sh == old(mmu.sh) && mmu.Frames() == old(mmu.Frames())
    ensures mmu.tables.Keys == old(mmu.tables.Keys)
    ensures Evolves(m0, sh0, mmu.tables, mmu.sh, root)
    ensures mmu.home == home0 && mmu.data == data0 && Unmapped(m0, mmu.tables, root, 0, 0)
    ensures |mmu.free| == |old(mmu.free)| + old(|mmu.data|) - |data0|
  {
    hide Ok, Grown, SpaceIs, PagesOk, Evolves, Unmapped, Dropped, Lookup;
    ghost var m1, sh1, home1, data1 := mmu.tables, mmu.sh, mmu.home, mmu.data;
    OkKeys(mmu);
    Census(mmu);
    var r := DeallocUvm(mmu, root, newsz, oldsz);
    Census(mmu);
    OkKeys(mmu);
    GrowthUndone(m0, m1, mmu.tables, sh0, sh1, home0, home1, mmu.home, data0, data1, mmu.data, root, Pages(oldsz), v,
        Pages(newsz));
    EvolvesChain(m0, sh0, m1, sh1, mmu.tables, mmu.sh, root);
  }

  /**
   allocuvm: grow root from oldsz to newsz bytes with zeroed pages. ok is false
   only when newsz is a kernel address or memory ran out, and then the address
   space is as it was, but for tables made on the way. Memory suffices if and only
   if there are as many free frames as new pages and tables still missing for them;
   exactly so many are then taken.
   */
  method AllocUvm(mmu: Mmu, root: nat, oldsz: nat, newsz: nat) returns (r: nat, ghost ok: bool)
    requires Ok(mmu) && UserRoot(mmu.sh, root) && SpaceIs(mmu.tables, root, Pages(oldsz))
    requires newsz < USERMAX || newsz >= KERNBASE
    modifies mmu
    ensures Ok(mmu) && UserRoot(mmu.sh, root) && mmu.Frames() == old(mmu.Frames())
    ensures Evolves(old(mmu.tables), old(mmu.sh), mmu.tables, mmu.sh, root)
    ensures r == if !ok then 0 else if newsz < oldsz then oldsz else newsz
    ensures ok && newsz >= oldsz ==>
      && SpaceIs(mmu.tables, root, Pages(newsz))
      && Grown(old(mmu.tables), mmu.tables, old(mmu.home), mmu.home, old(mmu.data), mmu.data, root, Pages(oldsz),
          Pages(newsz))
    ensures !ok || newsz < oldsz ==>
      mmu.home == old(mmu.home) && mmu.data == old(mmu.data) && Unmapped(old(mmu.tables), mmu.tables, root, 0, 0)
    ensures newsz >= KERNBASE ==> !ok
    ensures newsz < KERNBASE && newsz < oldsz ==> ok
    ensures oldsz <= newsz < KERNBASE ==> Pages(oldsz) <= Pages(newsz)
    ensures oldsz <= newsz < KERNBASE ==>
        (ok <==> |old(mmu.free)| >= Cost(old(mmu.sh), root, Pages(oldsz), Pages(newsz)))
    ensures oldsz <= newsz < KERNBASE && ok ==>
        |mmu.free| + Cost(old(mmu.sh), root, Pages(oldsz), Pages(newsz)) == |old(mmu.free)|
  {
    hide Ok, Grown, SpaceIs, PagesOk, Evolves, Unmapped, Mmu.Frames, Elems, Pages, UserRoot, Cost;
    Unmoved(mmu.tables, mmu.sh, root);
    Untouched(mmu.tables, root);
    if newsz >= KERNBASE {
      return 0, false;
    }
    if newsz < oldsz {
      return oldsz, true;
    }
    var grew := GrowTo(mmu, root, oldsz, newsz);
    if !grew {
      return 0, false;
    }
    r, ok := newsz, true;
  }

  /** allocuvm's loop. */
  method GrowTo(mmu: Mmu, root: nat, oldsz: nat, newsz: nat) returns (ok: bool)
    requires Ok(mmu) && UserRoot(mmu.sh, root) && SpaceIs(mmu.tables, root, Pages(oldsz)) && oldsz <= newsz < USERMAX
    modifies mmu
    ensures Ok(mmu) && UserRoot(mmu.sh, root) && mmu.Frames() == old(mmu.Frames())
    ensures Evolves(old(mmu.tables), old(mmu.sh), mmu.tables, mmu.sh, root)
    ensures ok ==> SpaceIs(mmu.tables, root, Pages(newsz))
    ensures ok ==>
      Grown(old(mmu.tables), mmu.tables, old(mmu.home), mmu.home, old(mmu.data), mmu.data, root, Pages(oldsz),
          Pages(newsz))
    ensures !ok ==>
        mmu.home == old(mmu.home) && mmu.data == old(mmu.data) && Unmapped(old(mmu.tables), mmu.tables, root, 0, 0)
    ensures Pages(oldsz) <= Pages(newsz)
    ensures (ok <==> |old(mmu.free)| >= Cost(old(mmu.sh), root, Pages(oldsz), Pages(newsz)))
    ensures ok ==> |mmu.free| + Cost(old(mmu.sh), root, Pages(oldsz), Pages(newsz)) == |old(mmu.free)|
  {
    hide Ok, Grown, SpaceIs, PagesOk, Evolves, Unmapped, Mmu.Frames;
    hide Elems, Pages, UserRoot, Places, Path, Cost, RanOut, Built;
    ghost var m0, sh0, home0, data0, free0 := mmu.tables, mmu.sh, mmu.home, mmu.data, mmu.free;
    Unmoved(m0, sh0, root);
    OkKeys(mmu);
    var v := Pages(oldsz);
    NotGrown(m0, home0, data0, root, v);
    PagesGrow(oldsz, newsz);
    BuiltNone(sh0, root, v);
    Census(mmu);
    while v * PGSIZE < newsz
      invariant Pages(oldsz) <= v <= Pages(newsz)
      invariant Ok(mmu) && UserRoot(mmu.sh, root) && mmu.Frames() == old(mmu.Frames())
      invariant Evolves(m0, sh0, mmu.tables, mmu.sh, root)
      invariant Grown(m0, mmu.tables, home0, mmu.home, data0, mmu.data, root, Pages(oldsz), v)
      invariant |mmu.data| == |data0| + v - Pages(oldsz) && Built(sh0, mmu.sh, root, Pages(oldsz), v)
    {
      PagesAre(newsz, v);
      ghost var sh1 := mmu.sh;
      ghost var held: nat;
      ok, held := GrowOne(mmu, root, oldsz, newsz, v, m0, sh0, home0, data0);
      if !ok {
        Short(mmu, sh1, m0, sh0, data0, free0, root, Pages(oldsz), v, Pages(newsz), held);
        return;
      }
      BuiltNext(sh0, sh1, mmu.sh, root, Pages(oldsz), v);
      v := v + 1;
    }
    PagesAre(newsz, v);
    SpaceGrown(m0, mmu.tables, home0, mmu.home, data0, mmu.data, root, Pages(oldsz), v);
    Enough(mmu, m0, sh0, data0, free0, root, Pages(oldsz), v);
    ok := true;
  }

  /** The growth that failed at page v had too few frames. */
  lemma Short(mmu: Mmu, sh1: Shape, m0: Tables, sh0: Shape, data0: map<nat, seq<Byte>>, free0: seq<nat>, root: nat,
              lo: nat, v: nat, hi: nat, held: nat)
    requires Ok(mmu) && ForestOk(m0, sh0) && UserRoot(sh0, root) && Evolves(m0, sh0, mmu.tables, mmu.sh, root)
    requires |mmu.Frames()| == |free0| + |m0.Keys| + |data0.Keys|
    requires lo <= v < hi && Built(sh0, sh1, root, lo, v) && RanOut(sh1, mmu.sh, root, v, held)
    requires |mmu.free| + |mmu.data| == |data0| + v - lo + held
    ensures |free0| < Cost(sh0, root, lo, hi)
  {
    hide Ok, Mmu.Frames, Elems, ForestOk, Evolves, UserRoot, Places, Cost, RanOut, Built;
    FallsShort(sh0, sh1, mmu.sh, root, lo, v, hi, held);
    Spent(mmu, m0, sh0, data0, free0, root);
  }

  lemma Enough(mmu: Mmu, m0: Tables, sh0: Shape, data0: map<nat, seq<Byte>>, free0: seq<nat>, root: nat, lo: nat,
               hi: nat)
    requires Ok(mmu) && ForestOk(m0, sh0) && UserRoot(sh0, root) && Evolves(m0, sh0, mmu.tables, mmu.sh, root)
    requires |mmu.Frames()| == |free0| + |m0.Keys| + |data0.Keys|
    requires lo <= hi && Built(sh0, mmu.sh, root, lo, hi) && |mmu.data| == |data0| + hi - lo
    ensures |free0| == |mmu.free| + Cost(sh0, root, lo, hi)
  {
    hide Ok, Mmu.Frames, Elems, ForestOk, Evolves, UserRoot, Places, Cost, Built;
    Paid(sh0, mmu.sh, root, lo, hi);
    Spent(mmu, m0, sh0, data0, free0, root);
  }

  /** A process can read, write or execute a page just as its own entry says. */
  lemma UserAccess(mmu: Mmu, root: nat, v: nat, bit: nat)
    requires mmu.Valid() && IsRoot(mmu.sh, root) && v < Span(5) && (bit == PTEW || bit == PTEU)
    ensures Allows(mmu.tables, root, 4, v, bit) <==>
            var l := Lookup(mmu.tables, root, 4, v); l.Some? && HasPerm(l.value.perm, bit)
  {
    hide Lookup, Allows, Wf, NodeOk, OnePerPlace;
    LeafDecides(mmu.tables, mmu.sh.pos, root, v, bit);
  }

  /** The pages that allocuvm adds are the process's to write. */
  lemma FreshIsWritable(mmu: Mmu, root: nat, v: nat)
    requires mmu.Valid() && IsRoot(mmu.sh, root) && v < Span(5) && FreshPage(mmu.tables, mmu.data, root, v)
    ensures Allows(mmu.tables, root, 4, v, PTEW) && Allows(mmu.tables, root, 4, v, PTEU)
  {
    hide Lookup, Allows, Mmu.Valid;
    UserAccess(mmu, root, v, PTEW);
    UserAccess(mmu, root, v, PTEU);
  }
}
