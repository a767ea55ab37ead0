/**
 Tearing an address space down (kern/vm.c): do_freevm's recursion over the page
 tables and freevm, which must return every frame once and leave the shared
 kernel half alone.
 */
module FreeVm {
  import opened PageTable
  import opened PageTree
  import opened Vm
  import opened AddressSpace
  import opened Basics

  /** The first page that goes through a table at l. */
  function FirstVpn(l: Loc): nat {
    l.prefix * Span(l.level + 1)
  }

  /** The place k is at or below l. */
  predicate Under(l: Loc, k: Loc) {
    1 <= k.level <= l.level <= 4 && FirstVpn(k) / Span(l.level + 1) == l.prefix
  }

  /** Which entry of a table at l leads to k. */
  function Slot(l: Loc, k: Loc): (i: nat)
    ensures i < NPT
  {
    Ptx(FirstVpn(k), l.level)
  }

  /** Being below the i-th child place of l, in terms of l. */
  lemma UnderChild(l: Loc, k: Loc, i: nat)
    requires 1 <= k.level < l.level <= 4 && i < NPT
    ensures Under(Loc(l.level - 1, l.prefix * NPT + i), k) <==> Under(l, k) && Slot(l, k) == i
  {
    SpanSplit(l.level, FirstVpn(k));
    ChildPlace(l.prefix, i);
    ChildPlace(FirstVpn(k) / Span(l.level + 1), Slot(l, k));
  }

  lemma FirstVpnDiv(l: Loc)
    requires 1 <= l.level <= 4
    ensures FirstVpn(l) / Span(l.level + 1) == l.prefix
  {
  }

  /** A table's place and its parent's go through the same entries above the parent. */
  lemma ParentAgrees(k: Loc, p: Loc)
    requires 1 <= k.level < 4 && p == Loc(k.level + 1, k.prefix / NPT)
    ensures FirstVpn(k) / Span(p.level + 1) == p.prefix
    ensures FirstVpn(p) / Span(p.level + 1) == p.prefix
    ensures Slot(p, k) == k.prefix % NPT
  {
    FirstVpnDiv(k);
    FirstVpnDiv(p);
    SpanSplit(p.level, FirstVpn(k));
    assert FirstVpn(k) / Span(p.level) == k.prefix;
  }

  /** Tables of t's tree at or below t. */
  ghost function Sub(m: Tables, sh: Shape, t: nat): set<nat>
    requires t in sh.own && t in sh.pos
  {
    set x | x in m && x in sh.own && x in sh.pos && sh.own[x] == sh.own[t] && Under(sh.pos[t], sh.pos[x])
  }

  /** Those reached through entries below i. */
  ghost function Part(m: Tables, sh: Shape, t: nat, i: nat): set<nat>
    requires t in sh.own && t in sh.pos
  {
    set x | x in Sub(m, sh, t) && x != t && Slot(sh.pos[t], sh.pos[x]) < i
  }

  ghost predicate InForest(m: Tables, sh: Shape, t: nat) {
    ForestOk(m, sh) && t in m && sh.own[t] !in sh.wide
  }

  /** Below t, only t is at t's level. */
  lemma LevelBelow(m: Tables, sh: Shape, t: nat, x: nat)
    requires InForest(m, sh, t) && x in Sub(m, sh, t) && x != t
    ensures 1 <= sh.pos[x].level < sh.pos[t].level <= 4
  {
    hide NodeOk, Wf;
    FirstVpnDiv(sh.pos[x]);
    assert sh.pos[x].level == sh.pos[t].level ==> Twins(sh, x, t);
  }

  /** Whatever lies below t is reached through a present entry of t. */
  lemma {:induction false} HasSlot(m: Tables, sh: Shape, t: nat, x: nat)
    requires InForest(m, sh, t) && x in Sub(m, sh, t) && x != t
    ensures |m[t]| == NPT && m[t][Slot(sh.pos[t], sh.pos[x])].present
    decreases 4 - sh.pos[x].level
  {
    hide EntryOwn, Wf, Ptx;
    LevelBelow(m, sh, t, x);
    assert NodeOk(m, sh, t) && NodeOk(m, sh, x);
    var l, k := sh.pos[t], sh.pos[x];
    var p := sh.up[x];
    ParentAgrees(k, sh.pos[p]);
    if k.level + 1 == l.level {
      assert Twins(sh, p, t);
    } else {
      CoarserEqual(k.level + 2, l.level, FirstVpn(k), FirstVpn(sh.pos[p]));
      CoarserEqual(l.level, l.level + 1, FirstVpn(k), FirstVpn(sh.pos[p]));
      SameIndex(FirstVpn(k), FirstVpn(sh.pos[p]), l.level);
      assert p in Sub(m, sh, t);
      HasSlot(m, sh, t, p);
    }
  }

  lemma SameIndex(v: nat, w: nat, level: nat)
    requires v / Span(level) == w / Span(level)
    ensures Ptx(v, level) == Ptx(w, level)
  {
  }

  /** The tables below entry i of t are the subtree of the table it links to. */
  lemma SlotIsSub(m: Tables, sh: Shape, t: nat, i: nat)
    requires InForest(m, sh, t) && i < NPT && |m[t]| == NPT && UserPart(sh.pos[t], i) && sh.pos[t].level > 1
    requires m[t][i].present
    ensures !m[t][i].large && m[t][i].frame in m && sh.own[m[t][i].frame] == sh.own[t]
    ensures sh.pos[m[t][i].frame].level == sh.pos[t].level - 1
    ensures Part(m, sh, t, i + 1) == Part(m, sh, t, i) + Sub(m, sh, m[t][i].frame)
    ensures Part(m, sh, t, i) !! Sub(m, sh, m[t][i].frame)
  {
    hide UpOk, OnePerPlace, Ptx, Slot;
    assert NodeOk(m, sh, t) && EntryOwn(sh, sh.own[t], sh.pos[t], i, m[t][i]);
    assert TableOk(sh.pos, sh.pos[t], m[t]) && EntryOk(sh.pos, sh.pos[t], i, m[t][i]);
    var c := m[t][i].frame;
    forall x | x in m
      ensures x in Sub(m, sh, c) <==> x in Sub(m, sh, t) && x != t && Slot(sh.pos[t], sh.pos[x]) == i
    {
      SlotMember(m, sh, t, i, x);
    }
  }

  lemma SlotMember(m: Tables, sh: Shape, t: nat, i: nat, x: nat)
    requires InForest(m, sh, t) && i < NPT && sh.pos[t].level > 1 && x in m
    requires |m[t]| == NPT && m[t][i].present && m[t][i].frame in m
    requires sh.own[m[t][i].frame] == sh.own[t]
    requires sh.pos[m[t][i].frame] == Loc(sh.pos[t].level - 1, sh.pos[t].prefix * NPT + i)
    ensures x in Sub(m, sh, m[t][i].frame) <==> x in Sub(m, sh, t) && x != t && Slot(sh.pos[t], sh.pos[x]) == i
  {
    hide NodeOk, OnePerPlace, Ptx, Slot, Wf;
    assert 1 <= sh.pos[x].level <= 4 && sh.pos[t].level <= 4 by { Levels(m, sh, x); Levels(m, sh, t); }
    if x in Sub(m, sh, t) && x != t {
      LevelBelow(m, sh, t, x);
    }
    if sh.pos[x].level < sh.pos[t].level {
      UnderChild(sh.pos[t], sh.pos[x], i);
    }
  }

  lemma Levels(m: Tables, sh: Shape, x: nat)
    requires ForestOk(m, sh) && x in m
    ensures 1 <= sh.pos[x].level <= 4 && |m[x]| == NPT
  {
    assert TableOk(sh.pos, sh.pos[x], m[x]);
  }

  /** Nothing lies below an entry that is not present. */
  lemma SlotIsEmpty(m: Tables, sh: Shape, t: nat, i: nat)
    requires InForest(m, sh, t) && i < NPT && |m[t]| == NPT && !m[t][i].present
    ensures Part(m, sh, t, i + 1) == Part(m, sh, t, i)
  {
    hide Slot, Under, NodeOk, OnePerPlace, Wf;
    forall x | x in Sub(m, sh, t) && x != t
      ensures Slot(sh.pos[t], sh.pos[x]) != i
    {
      HasSlot(m, sh, t, x);
    }
  }

  /** A lowest-level table has no tables below it. */
  lemma LeafTable(m: Tables, sh: Shape, t: nat)
    requires InForest(m, sh, t) && sh.pos[t].level == 1
    ensures Sub(m, sh, t) == {t}
  {
    hide NodeOk, OnePerPlace, Wf;
    FirstVpnDiv(sh.pos[t]);
    forall x | x in Sub(m, sh, t) && x != t
      ensures false
    {
      LevelBelow(m, sh, t, x);
    }
  }

  lemma WholeSub(m: Tables, sh: Shape, t: nat)
    requires InForest(m, sh, t)
    ensures t in sh.own && t in sh.pos && 1 <= sh.pos[t].level <= 4
    ensures Sub(m, sh, t) == Part(m, sh, t, NPT) + {t} && t !in Part(m, sh, t, NPT) && Part(m, sh, t, 0) == {}
  {
    hide NodeOk, OnePerPlace;
    assert TableOk(sh.pos, sh.pos[t], m[t]);
    FirstVpnDiv(sh.pos[t]);
  }

  // ----------------------------------------------------------- do_freevm

  /** Frames in one place only, while an address space is being taken apart. */
  ghost predicate FramesOk(mmu: Mmu)
    reads mmu
  {
    && Distinct(mmu.free) && (forall f :: f in mmu.free ==> f !in mmu.tables && f !in mmu.data)
    && forall f :: f in mmu.data ==> f !in mmu.tables
  }

  /** The tables in s are still in place. */
  predicate Intact(m0: Tables, m: Tables, s: set<nat>) {
    forall x :: x in s ==> x in m0 && x in m && m[x] == m0[x]
  }

  /** do_freevm. m0 and sh0 describe the address space before any of its tables was freed. */
  method FreeTables(mmu: Mmu, t: nat, level: nat, ghost m0: Tables, ghost sh0: Shape)
    requires InForest(m0, sh0, t) && sh0.pos[t].level == level < 4
    requires FramesOk(mmu) && Intact(m0, mmu.tables, Sub(m0, sh0, t))
    modifies mmu`tables, mmu`free
    decreases level, 1
    ensures FramesOk(mmu) && mmu.tables == old(mmu.tables) - Sub(m0, sh0, t)
    ensures Elems(mmu.free) == Elems(old(mmu.free)) + Sub(m0, sh0, t)
  {
    hide InForest, Sub, Part;
    ghost var tables0, free0 := mmu.tables, mmu.free;
    WholeSub(m0, sh0, t);
    for i := 0 to NPT
      invariant FramesOk(mmu) && mmu.tables == tables0 - Part(m0, sh0, t, i)
      invariant Elems(mmu.free) == Elems(free0) + Part(m0, sh0, t, i)
    {
      FreeEntry(mmu, t, i, level, m0, sh0, tables0, free0);
    }
    mmu.Kfree(t);
    mmu.tables := mmu.tables - {t};
  }

  /** One turn of its loop, and of freevm's over the user half of the top level. */
  method FreeEntry(mmu: Mmu, t: nat, i: nat, level: nat, ghost m0: Tables, ghost sh0: Shape, ghost tables0: Tables,
                   ghost free0: seq<nat>)
    requires InForest(m0, sh0, t) && sh0.pos[t].level == level && i < NPT && UserPart(sh0.pos[t], i)
    requires FramesOk(mmu) && Intact(m0, tables0, Sub(m0, sh0, t))
    requires mmu.tables == tables0 - Part(m0, sh0, t, i) && Elems(mmu.free) == Elems(free0) + Part(m0, sh0, t, i)
    modifies mmu`tables, mmu`free
    decreases level, 0
    ensures FramesOk(mmu) && mmu.tables == tables0 - Part(m0, sh0, t, i + 1)
    ensures Elems(mmu.free) == Elems(free0) + Part(m0, sh0, t, i + 1)
  {
    hide InForest, Sub, Part;
    WholeSub(m0, sh0, t);
    PartBelow(m0, sh0, t, i);
    var e := mmu.tables[t][i];
    if e.present && level > 1 && !e.large {
      SlotIsSub(m0, sh0, t, i);
      SubInForest(m0, sh0, t, e.frame);
      SubNested(m0, sh0, t, i);
      ghost var tables1 := mmu.tables;
      FreeTables(mmu, e.frame, level - 1, m0, sh0);
      assert mmu.tables == tables0 - Part(m0, sh0, t, i + 1) by {
        MinusMinus(tables0, Part(m0, sh0, t, i), Sub(m0, sh0, e.frame));
      }
    } else if level == 1 {
      LeafTable(m0, sh0, t);
      WholeSub(m0, sh0, t);
      PartEmpty(m0, sh0, t, i);
    } else {
      if e.present {
        SlotIsSub(m0, sh0, t, i);
      }
      SlotIsEmpty(m0, sh0, t, i);
    }
  }

  lemma MinusMinus(m: Tables, a: set<nat>, b: set<nat>)
    ensures (m - a) - b == m - (a + b)
  {
  }

  lemma PartBelow(m: Tables, sh: Shape, t: nat, i: nat)
    requires InForest(m, sh, t)
    ensures t !in Part(m, sh, t, i) && t in Sub(m, sh, t) && |m[t]| == NPT && Part(m, sh, t, i) <= Sub(m, sh, t)
  {
    hide NodeOk, OnePerPlace;
    assert TableOk(sh.pos, sh.pos[t], m[t]);
    FirstVpnDiv(sh.pos[t]);
  }

  lemma SubInForest(m: Tables, sh: Shape, t: nat, c: nat)
    requires InForest(m, sh, t) && c in m && sh.own[c] == sh.own[t]
    ensures InForest(m, sh, c)
  {
  }

  lemma SubNested(m: Tables, sh: Shape, t: nat, i: nat)
    requires InForest(m, sh, t) && i < NPT && |m[t]| == NPT && UserPart(sh.pos[t], i) && sh.pos[t].level > 1
    requires m[t][i].present
    ensures m[t][i].frame in sh.own && m[t][i].frame in sh.pos && Sub(m, sh, m[t][i].frame) <= Sub(m, sh, t)
  {
    SlotIsSub(m, sh, t, i);
    assert Part(m, sh, t, i + 1) <= Sub(m, sh, t);
  }

  lemma PartEmpty(m: Tables, sh: Shape, t: nat, i: nat)
    requires t in sh.own && t in sh.pos && Sub(m, sh, t) == {t}
    ensures Part(m, sh, t, i) == {} && Part(m, sh, t, i + 1) == {}
  {
  }

  // -------------------------------------------------------------- freevm

  /** All tables of the address space at root. */
  ghost function Tree(m: Tables, sh: Shape, root: nat): set<nat> {
    set x | x in m && x in sh.own && sh.own[x] == root
  }

  /** Every table of an address space is below its root, through the user half. */
  lemma {:induction false} InTree(m: Tables, sh: Shape, root: nat, x: nat)
    requires ForestOk(m, sh) && UserRoot(sh, root) && x in m && sh.own[x] == root
    ensures Under(sh.pos[root], sh.pos[x]) && (x != root ==> Slot(sh.pos[root], sh.pos[x]) < UHALF)
    decreases 4 - sh.pos[x].level
  {
    hide EntryOwn, Wf, OnePerPlace, Ptx, Slot;
    assert NodeOk(m, sh, x);
    Levels(m, sh, x);
    var k := sh.pos[x];
    if k.level == 4 {
      FirstVpnDiv(k);
    } else {
      var p := sh.up[x];
      InTree(m, sh, root, p);
      ParentAgrees(k, sh.pos[p]);
      TopAgrees(k, sh.pos[p]);
    }
  }

  /**
   A table and its parent are below the same top-level entry; the top-level entry of a
   level-3 table is its prefix.
   */
  lemma TopAgrees(k: Loc, p: Loc)
    requires 1 <= k.level < 4 && p == Loc(k.level + 1, k.prefix / NPT)
    requires Under(Loc(4, 0), p)
    requires p.level < 4 ==> Slot(Loc(4, 0), p) < UHALF
    requires k.level == 3 ==> k.prefix < UHALF
    ensures Under(Loc(4, 0), k) && Slot(Loc(4, 0), k) < UHALF
  {
    ParentAgrees(k, p);
    CoarserEqual(p.level + 1, 5, FirstVpn(k), FirstVpn(p));
    if p.level < 4 {
      CoarserEqual(p.level + 1, 4, FirstVpn(k), FirstVpn(p));
      SameIndex(FirstVpn(k), FirstVpn(p), 4);
    }
  }

  lemma TreeIsSub(m: Tables, sh: Shape, root: nat)
    requires ForestOk(m, sh) && UserRoot(sh, root)
    ensures InForest(m, sh, root)
    ensures Tree(m, sh, root) == Sub(m, sh, root) == Part(m, sh, root, UHALF) + {root}
    ensures root !in Part(m, sh, root, UHALF) && Part(m, sh, root, 0) == {}
  {
    hide NodeOk, Wf, OnePerPlace, Under, Slot;
    forall x | x in Tree(m, sh, root)
      ensures x in Sub(m, sh, root) && (x == root || x in Part(m, sh, root, UHALF))
    {
      InTree(m, sh, root, x);
    }
    InTree(m, sh, root, root);
  }

  /** The forest without the tree at root. */
  ghost function Felled(sh: Shape, gone: set<nat>): Shape {
    sh.(pos := sh.pos - gone, own := sh.own - gone, up := sh.up - gone)
  }

  lemma FelledEntry(m: Tables, sh: Shape, root: nat, t: nat, i: nat)
    requires ForestOk(m, sh) && root !in sh.wide && t in m && sh.own[t] != root && |m[t]| == NPT && i < NPT
    ensures EntryOwn(Felled(sh, Tree(m, sh, root)), sh.own[t], sh.pos[t], i, m[t][i])
    ensures EntryOk(sh.pos - Tree(m, sh, root), sh.pos[t], i, m[t][i])
  {
    hide OnePerPlace, UpOk;
    assert NodeOk(m, sh, t) && TableOk(sh.pos, sh.pos[t], m[t]);
    assert EntryOwn(sh, sh.own[t], sh.pos[t], i, m[t][i]) && EntryOk(sh.pos, sh.pos[t], i, m[t][i]);
  }

  lemma FelledUp(m: Tables, sh: Shape, root: nat, t: nat)
    requires ForestOk(m, sh) && t in m && sh.own[t] != root && sh.own[t] !in sh.wide && sh.pos[t].level < 4
    ensures UpOk(m - Tree(m, sh, root), Felled(sh, Tree(m, sh, root)), t)
  {
    hide OnePerPlace, EntryOwn, Wf;
    assert NodeOk(m, sh, t);
    assert UpOk(m, sh, t);
  }

  lemma Standing(m: Tables, sh: Shape, root: nat, t: nat)
    requires t in sh.own
    ensures t in Tree(m, sh, root) <==> t in m && sh.own[t] == root
  {
  }

  lemma FelledNode(m: Tables, sh: Shape, root: nat, t: nat)
    requires ForestOk(m, sh) && root !in sh.wide && t in m && sh.own[t] != root
    ensures NodeOk(m - Tree(m, sh, root), Felled(sh, Tree(m, sh, root)), t)
    ensures TableOk(sh.pos - Tree(m, sh, root), sh.pos[t], m[t])
  {
    hide OnePerPlace, EntryOwn, EntryOk, UpOk, Tree;
    assert NodeOk(m, sh, t) && TableOk(sh.pos, sh.pos[t], m[t]);
    Standing(m, sh, root, t);
    Standing(m, sh, root, sh.own[t]);
    forall i | 0 <= i < NPT
      ensures EntryOwn(Felled(sh, Tree(m, sh, root)), sh.own[t], sh.pos[t], i, m[t][i])
      ensures EntryOk(sh.pos - Tree(m, sh, root), sh.pos[t], i, m[t][i])
    {
      FelledEntry(m, sh, root, t, i);
    }
    if sh.own[t] !in sh.wide && sh.pos[t].level < 4 {
      FelledUp(m, sh, root, t);
    }
  }

  lemma FelledForest(m: Tables, sh: Shape, root: nat)
    requires ForestOk(m, sh) && UserRoot(sh, root)
    ensures ForestOk(m - Tree(m, sh, root), Felled(sh, Tree(m, sh, root)))
  {
    hide NodeOk, TableOk;
    var gone := Tree(m, sh, root);
    var m', sh' := m - gone, Felled(sh, gone);
    forall t | t in m'
      ensures NodeOk(m', sh', t) && TableOk(sh'.pos, sh'.pos[t], m'[t])
    {
      FelledNode(m, sh, root, t);
    }
    forall t: nat, u: nat | Twins(sh', t, u)
      ensures t == u
    {
      assert Twins(sh, t, u);
    }
  }

  lemma FelledPages(m: Tables, sh: Shape, home: map<nat, Home>, root: nat)
    requires ForestOk(m, sh) && UserRoot(sh, root) && PagesOk(m, sh, home)
    requires forall f :: f in home ==> home[f].root != root
    ensures var gone := Tree(m, sh, root);
            PagesOk(m - gone, Felled(sh, gone), home) && OthersSame(m, m - gone, sh, root)
  {
    hide Lookup, NodeOk, Wf, OnePerPlace;
    var gone := Tree(m, sh, root);
    var m', sh' := m - gone, Felled(sh, gone);
    forall r: nat, v: nat | IsRoot(sh, r) && r != root
      ensures Lookup(m', r, 4, v) == Lookup(m, r, 4, v)
    {
      LookupKeeps(m, m', sh, r, r, 4, v);
    }
    forall f | f in home
      ensures AtHome(m', sh', home, f)
    {
      assert AtHome(m, sh, home, f);
    }
    forall r: nat, v: nat | UserRoot(sh', r) && v < USERPAGES
      ensures Lives(m', home, r, v)
    {
      assert Lives(m, home, r, v);
    }
  }

  /** The page-table half of freevm: the pages are already gone. */
  method FreeTree(mmu: Mmu, root: nat)
    requires Ok(mmu) && UserRoot(mmu.sh, root) && forall f :: f in mmu.home ==> mmu.home[f].root != root
    modifies mmu`tables, mmu`free, mmu`sh
    ensures Ok(mmu) && mmu.Frames() == old(mmu.Frames())
    ensures mmu.tables == old(mmu.tables) - Tree(old(mmu.tables), old(mmu.sh), root)
    ensures mmu.sh == Felled(old(mmu.sh), Tree(old(mmu.tables), old(mmu.sh), root))
    ensures OthersSame(old(mmu.tables), mmu.tables, old(mmu.sh), root)
  {
    hide ForestOk, PagesOk, Sub, Part, OthersSame, InForest;
    ghost var m0, sh0, free0 := mmu.tables, mmu.sh, mmu.free;
    TreeIsSub(m0, sh0, root);
    WholeSub(m0, sh0, root);
    for i := 0 to UHALF
      invariant FramesOk(mmu) && mmu.tables == m0 - Part(m0, sh0, root, i)
      invariant Elems(mmu.free) == Elems(free0) + Part(m0, sh0, root, i)
    {
      FreeEntry(mmu, root, i, 4, m0, sh0, m0, free0);
    }
    assert root in mmu.tables;
    mmu.Kfree(root);
    MinusMinus(m0, Part(m0, sh0, root, UHALF), {root});
    mmu.tables := mmu.tables - {root};
    assert mmu.tables == m0 - Tree(m0, sh0, root);
    mmu.sh := Felled(sh0, Tree(m0, sh0, root));
    FelledForest(m0, sh0, root);
    FelledPages(m0, sh0, mmu.home, root);
  }

  /**
   freevm: every page and every table of the address space goes back to the free
   list, each once, and nothing else changes: other address spaces, their pages
   and the kernel half translate as before.
   */
  method FreeVmSpace(mmu: Mmu, root: nat, utop: nat, ghost n: nat)
    requires Ok(mmu) && UserRoot(mmu.sh, root) && SpaceIs(mmu.tables, root, n) && n <= Pages(utop) <= USERPAGES
    modifies mmu
    ensures Ok(mmu) && mmu.Frames() == old(mmu.Frames())
    ensures mmu.tables.Keys == old(mmu.tables.Keys) - Tree(old(mmu.tables), old(mmu.sh), root)
    ensures forall t :: t in mmu.tables ==> mmu.tables[t] == old(mmu.tables)[t]
    ensures mmu.sh == Felled(old(mmu.sh), Tree(old(mmu.tables), old(mmu.sh), root))
    ensures Dropped(old(mmu.home), mmu.home, root, 0, USERPAGES) && SubData(old(mmu.data), mmu.data)
    ensures OthersSame(old(mmu.tables), mmu.tables, old(mmu.sh), root)
    ensures forall f :: f in old(mmu.home) && old(mmu.home)[f].root == root ==> f in mmu.free
    ensures forall t :: t in old(mmu.tables) && old(mmu.sh).own[t] == root ==> t in mmu.free
  {
    hide Ok, SpaceIs, Dropped, Cut, Felled, OthersSame, SubData, Evolves, Lookup, ForestOk, PagesOk, Mmu.Frames, Elems;
    ghost var m0, sh0, home0, frames := mmu.tables, mmu.sh, mmu.home, mmu.Frames();
    OkKeys(mmu);
    OkFrames(mmu);
    var r := DeallocUvm(mmu, root, utop, 0);
    ghost var m1 := mmu.tables;
    assert Pages(0) == 0;
    NoPagesLeft(m0, m1, sh0, home0, mmu.home, root, n, Pages(utop));
    FreeTree(mmu, root);
    SameTree(m0, m1, mmu.tables, sh0, root);
    OthersChain(m0, m1, mmu.tables, sh0, root);
    AllReturned(mmu, frames, m0, sh0, home0, root);
  }

  /** deallocuvm up to utop removed every page of the address space. */
  lemma NoPagesLeft(m0: Tables, m1: Tables, sh: Shape, home0: map<nat, Home>, home1: map<nat, Home>, root: nat, n: nat,
                    hi: nat)
    requires ForestOk(m0, sh) && UserRoot(sh, root) && PagesOk(m0, sh, home0) && SpaceIs(m0, root, n)
    requires n <= hi <= USERPAGES
    requires Cut(m0, m1, sh, home0, home1, root, 0, hi)
    ensures forall f :: f in home1 ==> home1[f].root != root
    ensures Dropped(home0, home1, root, 0, USERPAGES)
    ensures forall f :: f in home0 && home0[f].root == root ==> home0[f].vpn < USERPAGES
    ensures OthersSame(m0, m1, sh, root) && Evolves(m0, sh, m1, sh, root)
  {
    hide Lookup, Evolves, ForestOk;
    EvolvesOthers(m0, sh, m1, sh, root);
    forall f | f in home0 && home0[f].root == root
      ensures home0[f].vpn < n
    {
      assert AtHome(m0, sh, home0, f);
    }
  }

  lemma OkFrames(mmu: Mmu)
    requires Ok(mmu)
    ensures mmu.tables.Keys <= mmu.Frames() && mmu.home.Keys <= mmu.Frames() && mmu.tables.Keys !! mmu.home.Keys
  {
    hide ForestOk, PagesOk;
  }

  lemma SameTree(m0: Tables, m1: Tables, m2: Tables, sh: Shape, root: nat)
    requires m1.Keys == m0.Keys == sh.own.Keys && Evolves(m0, sh, m1, sh, root) && m2 == m1 - Tree(m1, sh, root)
    ensures Tree(m1, sh, root) == Tree(m0, sh, root)
    ensures m2.Keys == m0.Keys - Tree(m0, sh, root) && forall t :: t in m2 ==> m2[t] == m0[t]
  {
  }

  lemma OthersChain(m0: Tables, m1: Tables, m2: Tables, sh: Shape, root: nat)
    requires OthersSame(m0, m1, sh, root) && OthersSame(m1, m2, sh, root)
    ensures OthersSame(m0, m2, sh, root)
  {
    hide Lookup;
  }

  /** A frame that is neither a table nor a page any more is on the free list. */
  lemma AllReturned(mmu: Mmu, frames: set<nat>, m0: Tables, sh0: Shape, home0: map<nat, Home>, root: nat)
    requires Ok(mmu) && mmu.Frames() == frames && m0.Keys <= frames && home0.Keys <= frames
    requires m0.Keys == sh0.own.Keys && m0.Keys !! home0.Keys
    requires mmu.tables.Keys == m0.Keys - Tree(m0, sh0, root) && Dropped(home0, mmu.home, root, 0, USERPAGES)
    requires forall f :: f in home0 && home0[f].root == root ==> home0[f].vpn < USERPAGES
    ensures forall f :: f in home0 && home0[f].root == root ==> f in mmu.free
    ensures forall t :: t in m0 && sh0.own[t] == root ==> t in mmu.free
  {
    hide ForestOk, PagesOk;
    forall t | t in m0 && sh0.own[t] == root
      ensures t in mmu.free
    {
      assert t in Tree(m0, sh0, root);
      assert t in mmu.Frames();
    }
    forall f | f in home0 && home0[f].root == root
      ensures f in mmu.free
    {
      assert f in mmu.Frames();
    }
  }
}
